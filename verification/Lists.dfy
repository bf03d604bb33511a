/** Edits of finite lists that stand for the kernel's intrusive lists. */
module Lists {

  ghost predicate NoDuplicates<T>(s: seq<T>) {
    forall i, j :: 0 <= i < j < |s| ==> s[i] != s[j]
  }

  function Insert<T>(s: seq<T>, n: nat, x: T): seq<T>
    requires n <= |s|
  {
    s[..n] + [x] + s[n..]
  }

  function Delete<T>(s: seq<T>, k: nat): seq<T>
    requires k < |s|
  {
    s[..k] + s[k + 1..]
  }

  lemma {:induction false} InsertMembers<T>(s: seq<T>, n: nat, x: T)
    requires n <= |s|
    ensures forall w :: w in Insert(s, n, x) <==> w in s || w == x
    ensures x !in s && NoDuplicates(s) ==> NoDuplicates(Insert(s, n, x))
  {
    var r := Insert(s, n, x);
    forall w ensures w in r <==> w in s || w == x {
      if w in s {
        var i :| 0 <= i < |s| && s[i] == w;
        assert w == r[if i < n then i else i + 1];
      }
      assert r[n] == x;
    }
  }

  lemma {:induction false} DeleteMembers<T>(s: seq<T>, k: nat)
    requires k < |s| && NoDuplicates(s)
    ensures NoDuplicates(Delete(s, k))
    ensures forall w :: w in Delete(s, k) <==> w in s && w != s[k]
  {
    var r := Delete(s, k);
    forall w ensures w in r <==> w in s && w != s[k] {
      if w in s && w != s[k] {
        var i :| 0 <= i < |s| && s[i] == w;
        assert w == r[if i < k then i else i - 1];
      }
    }
  }

  /** `s` without its first occurrence of `x`. */
  function Without<T(==)>(s: seq<T>, x: T): seq<T> {
    if s == [] then [] else if s[0] == x then s[1..] else [s[0]] + Without(s[1..], x)
  }

  lemma {:induction false} WithoutIsDelete<T>(s: seq<T>, k: nat)
    requires k < |s| && NoDuplicates(s)
    ensures Without(s, s[k]) == Delete(s, k)
  {
    if k > 0 {
      WithoutIsDelete(s[1..], k - 1);
      assert [s[0]] + Delete(s[1..], k - 1) == Delete(s, k);
    }
  }

  lemma {:induction false} WithoutAbsent<T>(s: seq<T>, x: T)
    requires x !in s
    ensures Without(s, x) == s
  {
    if s != [] {
      assert s[0] in s && forall w :: w in s[1..] ==> w in s;
      WithoutAbsent(s[1..], x);
    }
  }

  lemma {:induction false} WithoutMembers<T>(s: seq<T>, x: T)
    requires NoDuplicates(s)
    ensures NoDuplicates(Without(s, x))
    ensures forall w :: w in Without(s, x) <==> w in s && w != x
    ensures x !in s ==> Without(s, x) == s
  {
    if s != [] {
      TailMembers(s);
      assert forall w :: w in s <==> w == s[0] || w in s[1..];
      if s[0] != x {
        WithoutMembers(s[1..], x);
        var r := Without(s[1..], x);
        InsertMembers(r, 0, s[0]);
        assert Insert(r, 0, s[0]) == [s[0]] + r;
      }
    }
  }

  lemma {:induction false} EndMembers<T>(s: seq<T>, x: T, last: bool)
    requires x !in s && NoDuplicates(s)
    ensures var r := if last then s + [x] else [x] + s;
      NoDuplicates(r) && forall w :: w in r <==> w in s || w == x
  {
    InsertMembers(s, 0, x);
    InsertMembers(s, |s|, x);
    assert Insert(s, 0, x) == [x] + s && Insert(s, |s|, x) == s + [x];
  }

  lemma {:induction false} Regroup<T>(a: seq<T>, b: seq<T>, c: seq<T>)
    ensures (a + b) + c == a + (b + c)
  {
  }

  lemma {:induction false} TailMembers<T>(s: seq<T>)
    requires s != [] && NoDuplicates(s)
    ensures NoDuplicates(s[1..])
    ensures forall w :: w in s[1..] <==> w in s && w != s[0]
  {
    assert Delete(s, 0) == s[1..];
    DeleteMembers(s, 0);
  }

  function Reverse<T>(s: seq<T>): (r: seq<T>)
    ensures |r| == |s|
  {
    if s == [] then [] else Reverse(s[1..]) + [s[0]]
  }

  lemma {:induction false} ReverseMembers<T>(s: seq<T>)
    ensures forall w :: w in Reverse(s) <==> w in s
    ensures NoDuplicates(s) ==> NoDuplicates(Reverse(s))
  {
    if s != [] {
      ReverseMembers(s[1..]);
      assert s == [s[0]] + s[1..];
      if NoDuplicates(s) {
        TailMembers(s);
        assert s[0] !in Reverse(s[1..]);
      }
    }
  }

  lemma {:induction false} AppendMembers<T>(s: seq<T>, u: seq<T>)
    ensures forall w :: w in s + u <==> w in s || w in u
    ensures NoDuplicates(s) && NoDuplicates(u) && (forall w :: w in s ==> w !in u) ==> NoDuplicates(s + u)
  {
    assert forall i :: 0 <= i < |s| ==> s[i] in s;
    assert forall i :: 0 <= i < |u| ==> u[i] in u;
  }
}
