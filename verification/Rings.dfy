/** Circular doubly linked lists with a head, as the memheap keeps its free blocks. */
module Rings {
  import opened Lists

  // Following `next` from the head visits the ring in order, `prev` goes back.
  ghost predicate Ring(next: map<nat, nat>, prev: map<nat, nat>, ring: seq<nat>) {
    && ring != [] && NoDuplicates(ring)
    && (forall i :: 0 <= i < |ring| ==> LinkAt(next, prev, ring, i))
  }

  function After(n: nat, i: nat): nat { if i + 1 == n then 0 else i + 1 }

  predicate LinkAt(next: map<nat, nat>, prev: map<nat, nat>, ring: seq<nat>, i: nat)
    requires i < |ring|
  {
    var j := After(|ring|, i);
    ring[i] in next && next[ring[i]] == ring[j] && ring[j] in prev && prev[ring[j]] == ring[i]
  }

  // The neighbours of x are linked to each other.
  function Unlinked(next: map<nat, nat>, prev: map<nat, nat>, x: nat): (map<nat, nat>, map<nat, nat>)
    requires x in next && x in prev
  {
    (next[prev[x] := next[x]], prev[next[x] := prev[x]])
  }

  // x is put right after a.
  function LinkedIn(next: map<nat, nat>, prev: map<nat, nat>, a: nat, x: nat): (map<nat, nat>, map<nat, nat>)
    requires a in next
  {
    (next[x := next[a]][a := x], prev[x := a][next[a] := x])
  }

  lemma {:induction false} RingAt(next: map<nat, nat>, prev: map<nat, nat>, ring: seq<nat>, i: nat)
    requires Ring(next, prev, ring) && i < |ring|
    ensures LinkAt(next, prev, ring, i)
    ensures LinkAt(next, prev, ring, if i == 0 then |ring| - 1 else i - 1)
    ensures ring[i] in next && ring[i] in prev
    ensures forall j :: 0 <= j < |ring| && j != i ==> ring[j] != ring[i]
  {
  }

  lemma {:induction false} UnlinkRing(next: map<nat, nat>, prev: map<nat, nat>, ring: seq<nat>, k: nat)
    requires Ring(next, prev, ring) && 0 < k < |ring|
    ensures ring[k] in next && ring[k] in prev
    ensures var u := Unlinked(next, prev, ring[k]); Ring(u.0, u.1, Delete(ring, k))
  {
    hide Ring, NoDuplicates;
    RingAt(next, prev, ring, k);
    var u := Unlinked(next, prev, ring[k]);
    var r := Delete(ring, k);
    forall i | 0 <= i < |r| ensures LinkAt(u.0, u.1, r, i) {
      var a := if i < k then i else i + 1;
      RingAt(next, prev, ring, a);
      RingAt(next, prev, ring, if a == k - 1 then k else a);
      RingAt(next, prev, ring, if i + 1 == |r| then 0 else if i + 1 < k then i + 1 else i + 2);
    }
    RingIs(next, prev, ring);
    DeleteMembers(ring, k);
    MakeRing(u.0, u.1, r);
  }

  lemma {:induction false} RingIs(next: map<nat, nat>, prev: map<nat, nat>, ring: seq<nat>)
    requires Ring(next, prev, ring)
    ensures ring != [] && NoDuplicates(ring)
  {
  }

  lemma {:induction false} MakeRing(next: map<nat, nat>, prev: map<nat, nat>, ring: seq<nat>)
    requires ring != [] && NoDuplicates(ring) && forall i :: 0 <= i < |ring| ==> LinkAt(next, prev, ring, i)
    ensures Ring(next, prev, ring)
  {
  }

  lemma {:induction false} InsertAt(ring: seq<nat>, k: nat, x: nat, i: nat)
    requires k < |ring| && i <= |ring|
    ensures |Insert(ring, k + 1, x)| == |ring| + 1
    ensures Insert(ring, k + 1, x)[i] == if i <= k then ring[i] else if i == k + 1 then x else ring[i - 1]
  {
  }

  lemma {:induction false} Apart(next: map<nat, nat>, prev: map<nat, nat>, ring: seq<nat>, i: nat, j: nat)
    requires Ring(next, prev, ring) && i < |ring| && j < |ring|
    ensures ring[i] == ring[j] <==> i == j
    ensures LinkAt(next, prev, ring, i)
  {
  }

  lemma {:induction false} LinkPoint(next: map<nat, nat>, prev: map<nat, nat>, ring: seq<nat>, k: nat, x: nat, i: nat)
    requires Ring(next, prev, ring) && k < |ring| && x !in ring && i <= |ring|
    ensures ring[k] in next && |Insert(ring, k + 1, x)| == |ring| + 1
    ensures var u := LinkedIn(next, prev, ring[k], x); LinkAt(u.0, u.1, Insert(ring, k + 1, x), i)
  {
    hide Ring, NoDuplicates, Insert;
    var j := After(|ring| + 1, i);
    InsertAt(ring, k, x, i);
    InsertAt(ring, k, x, j);
    var a := if i <= k then i else i - 1;
    var f := After(|ring|, k);
    Apart(next, prev, ring, a, k);
    Apart(next, prev, ring, k, a);
    Apart(next, prev, ring, After(|ring|, a), f);
    assert x != ring[a] && x != ring[k] && x != ring[f] && x != ring[After(|ring|, a)];
  }

  lemma {:induction false} LinkRing(next: map<nat, nat>, prev: map<nat, nat>, ring: seq<nat>, k: nat, x: nat)
    requires Ring(next, prev, ring) && k < |ring| && x !in ring
    ensures ring[k] in next
    ensures var u := LinkedIn(next, prev, ring[k], x); Ring(u.0, u.1, Insert(ring, k + 1, x))
  {
    hide Ring, NoDuplicates, LinkAt, Insert, LinkedIn;
    RingIs(next, prev, ring);
    LinkPoint(next, prev, ring, k, x, 0);
    var u := LinkedIn(next, prev, ring[k], x);
    var r := Insert(ring, k + 1, x);
    forall i | 0 <= i < |r| ensures LinkAt(u.0, u.1, r, i) { LinkPoint(next, prev, ring, k, x, i); }
    InsertMembers(ring, k + 1, x);
    MakeRing(u.0, u.1, r);
  }
}
