/** Copying bytes within a heap. */
module Memory {

  function Overwritten(was: seq<bv8>, to: nat, from: nat, k: nat): seq<bv8>
    requires to + k <= |was| && from + k <= |was|
  {
    was[..to] + was[from..from + k] + was[to + k..]
  }

  // The n bytes at `to` are those that were at `from`; all others are as they were.
  ghost predicate CopiedTo(was: seq<bv8>, now: seq<bv8>, to: nat, from: nat, n: nat) {
    && |now| == |was| && to + n <= |was| && from + n <= |was|
    && now[to..to + n] == was[from..from + n]
    && now[..to] == was[..to] && now[to + n..] == was[to + n..]
  }

  // rt_memcpy between two blocks of one heap.
  method MemCopy(was: seq<bv8>, to: nat, from: nat, n: nat) returns (bytes: seq<bv8>)
    requires to + n <= |was| && from + n <= |was| && (to + n <= from || from + n <= to)
    ensures |bytes| == |was| && CopiedTo(was, bytes, to, from, n)
  {
    hide Overwritten, CopiedTo;
    bytes := was;
    Overwrites(was, to, from, 0);
    for k := 0 to n
      invariant |bytes| == |was| && bytes == Overwritten(was, to, from, k)
    {
      OverwritesOne(was, to, from, k);
      bytes := bytes[to + k := bytes[from + k]];
    }
    Overwrites(was, to, from, n);
  }

  lemma {:induction false} OverwritesOne(was: seq<bv8>, to: nat, from: nat, k: nat)
    requires to + k < |was| && from + k < |was| && (to + k < from || from + k < to)
    ensures var now := Overwritten(was, to, from, k);
      |now| == |was| && Overwritten(was, to, from, k + 1) == now[to + k := now[from + k]]
  {
    var now := Overwritten(was, to, from, k);
    assert now[from + k] == was[from + k];
  }

  lemma {:induction false} Overwrites(was: seq<bv8>, to: nat, from: nat, k: nat)
    requires to + k <= |was| && from + k <= |was|
    ensures CopiedTo(was, Overwritten(was, to, from, k), to, from, k)
    ensures k == 0 ==> Overwritten(was, to, from, k) == was
  {
  }

  function Least(a: int, b: int): int { if a < b then a else b }

  lemma {:induction false} SameOutside(was: seq<bv8>, now: seq<bv8>, p: nat, q: nat, a: nat, b: nat)
    requires |was| == |now| && p <= q <= |was| && now[..p] == was[..p] && now[q..] == was[q..]
    requires a <= b <= |was| && (b <= p || q <= a)
    ensures now[a..b] == was[a..b]
  {
    forall j | a <= j < b ensures now[j] == was[j] {
      if b <= p {
        assert now[j] == now[..p][j] && was[j] == was[..p][j];
      } else {
        assert now[j] == now[q..][j - q] && was[j] == was[q..][j - q];
      }
    }
  }
}
