/** A value or none: the kernel's pointers that may be RT_NULL. */
module Options {
  datatype Option<T> = None | Some(value: T)
}
