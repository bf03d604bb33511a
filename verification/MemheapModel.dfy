/** The memheap (src/memheap.c) as the list of its blocks in address order and its list of free blocks. */
module MemheapModel {
  import opened Lists
  import opened SmallHeapModel

  // The block ring: the headers in address order, the tail last.
  function BlockRing(bs: seq<Block>, end: nat): seq<nat> {
    if bs == [] then [end] else [bs[0].start] + BlockRing(bs[1..], end)
  }

  lemma {:induction false} BlockRingAt(bs: seq<Block>, end: nat, i: nat)
    requires i <= |bs|
    ensures |BlockRing(bs, end)| == |bs| + 1 && BlockRing(bs, end)[i] == Start(bs, end, i)
  {
    if bs != [] { BlockRingAt(bs[1..], end, if i == 0 then 0 else i - 1); }
  }

  lemma {:induction false} BlockRingAll(bs: seq<Block>, end: nat)
    ensures |BlockRing(bs, end)| == |bs| + 1
    ensures forall i :: 0 <= i <= |bs| ==> BlockRing(bs, end)[i] == Start(bs, end, i)
  {
    BlockRingAt(bs, end, 0);
    forall i | 0 <= i <= |bs| ensures BlockRing(bs, end)[i] == Start(bs, end, i) { BlockRingAt(bs, end, i); }
  }

  lemma {:induction false} SplitRing(bs: seq<Block>, end: nat, i: nat, cut: nat)
    requires i < |bs|
    ensures i + 1 <= |BlockRing(bs, end)|
    ensures BlockRing(Split(bs, i, cut), end) == Insert(BlockRing(bs, end), i + 1, cut)
  {
    hide Split, BlockRing;
    SplitAt(bs, i, cut);
    BlockRingAll(bs, end);
    BlockRingAll(Split(bs, i, cut), end);
  }

  // Blocks i and i + 1 become one block.
  function Fused(bs: seq<Block>, i: nat, used: bool): seq<Block>
    requires i + 1 < |bs|
  {
    Splice(bs, i, i + 2, [Block(bs[i].start, bs[i + 1].next, used)])
  }

  lemma {:induction false} FusedAt(bs: seq<Block>, i: nat, used: bool)
    requires i + 1 < |bs|
    ensures |Fused(bs, i, used)| == |bs| - 1 && Fused(bs, i, used)[i] == Block(bs[i].start, bs[i + 1].next, used)
    ensures forall k :: 0 <= k < i ==> Fused(bs, i, used)[k] == bs[k]
    ensures forall k :: i < k < |bs| - 1 ==> Fused(bs, i, used)[k] == bs[k + 1]
  {
  }

  lemma {:induction false} FusedRing(bs: seq<Block>, end: nat, i: nat, used: bool)
    requires i + 1 < |bs|
    ensures i + 1 < |BlockRing(bs, end)|
    ensures BlockRing(Fused(bs, i, used), end) == Delete(BlockRing(bs, end), i + 1)
  {
    hide Fused, BlockRing;
    FusedAt(bs, i, used);
    BlockRingAll(bs, end);
    BlockRingAll(Fused(bs, i, used), end);
  }

  lemma {:induction false} MarkedRing(bs: seq<Block>, end: nat, i: nat, used: bool)
    requires i < |bs|
    ensures BlockRing(bs[i := bs[i].(used := used)], end) == BlockRing(bs, end)
  {
    hide BlockRing;
    BlockRingAll(bs, end);
    BlockRingAll(bs[i := bs[i].(used := used)], end);
  }

  // What the free blocks offer.
  function FreeRooms(l: Layout, bs: seq<Block>): int {
    if bs == [] then 0 else (if bs[0].used then 0 else Room(l, bs[0])) + FreeRooms(l, bs[1..])
  }

  lemma {:induction false} RoomsSplit(l: Layout, a: seq<Block>, b: seq<Block>)
    ensures FreeRooms(l, a + b) == FreeRooms(l, a) + FreeRooms(l, b)
  {
    if a == [] {
      assert a + b == b;
    } else {
      RoomsSplit(l, a[1..], b);
      assert (a + b)[1..] == a[1..] + b;
    }
  }

  lemma {:induction false} SpliceRooms(l: Layout, bs: seq<Block>, i: nat, j: nat, mid: seq<Block>)
    requires i <= j <= |bs|
    ensures FreeRooms(l, Splice(bs, i, j, mid)) == FreeRooms(l, bs) - FreeRooms(l, bs[i..j]) + FreeRooms(l, mid)
  {
    RoomsSplit(l, bs[..i] + mid, bs[j..]);
    RoomsSplit(l, bs[..i], mid);
    RoomsSplit(l, bs[..i] + bs[i..j], bs[j..]);
    RoomsSplit(l, bs[..i], bs[i..j]);
    assert bs[..i] + bs[i..j] + bs[j..] == bs;
  }

  function Offer(l: Layout, b: Block): int { if b.used then 0 else Room(l, b) }

  lemma {:induction false} RoomsOfTwo(l: Layout, a: Block, b: Block)
    ensures FreeRooms(l, [a]) == Offer(l, a)
    ensures FreeRooms(l, [a, b]) == Offer(l, a) + Offer(l, b)
  {
    RoomsSplit(l, [a], [b]);
    assert [a] + [b] == [a, b];
  }

  lemma {:induction false} SplitRooms(l: Layout, bs: seq<Block>, i: nat, cut: nat)
    requires i < |bs|
    ensures FreeRooms(l, Split(bs, i, cut)) == FreeRooms(l, bs) - Offer(l, bs[i]) + (bs[i].next - cut - l.header)
  {
    SpliceRooms(l, bs, i, i + 1, [Block(bs[i].start, cut, true), Block(cut, bs[i].next, false)]);
    RoomsOfTwo(l, Block(bs[i].start, cut, true), Block(cut, bs[i].next, false));
    RoomsOfTwo(l, bs[i], bs[i]);
    assert bs[i..i + 1] == [bs[i]];
  }

  lemma {:induction false} FusedRooms(l: Layout, bs: seq<Block>, i: nat, used: bool)
    requires i + 1 < |bs|
    ensures FreeRooms(l, Fused(bs, i, used)) ==
      FreeRooms(l, bs) - Offer(l, bs[i]) - Offer(l, bs[i + 1]) + Offer(l, Block(bs[i].start, bs[i + 1].next, used))
  {
    var b := Block(bs[i].start, bs[i + 1].next, used);
    SpliceRooms(l, bs, i, i + 2, [b]);
    RoomsOfTwo(l, b, b);
    RoomsOfTwo(l, bs[i], bs[i + 1]);
    assert bs[i..i + 2] == [bs[i], bs[i + 1]];
  }

  lemma {:induction false} MarkedRooms(l: Layout, bs: seq<Block>, i: nat, used: bool)
    requires i < |bs|
    ensures var r := bs[i := bs[i].(used := used)];
      FreeRooms(l, r) == FreeRooms(l, bs) - Offer(l, bs[i]) + Offer(l, bs[i].(used := used))
  {
    var b := bs[i].(used := used);
    SpliceRooms(l, bs, i, i + 1, [b]);
    RoomsOfTwo(l, b, b);
    RoomsOfTwo(l, bs[i], bs[i]);
    assert Splice(bs, i, i + 1, [b]) == bs[i := b];
    assert bs[i..i + 1] == [bs[i]];
  }

  // x is the header of a free block.
  ghost predicate IsFree(bs: seq<Block>, x: nat) {
    exists i :: 0 <= i < |bs| && FreeAt(bs[i], x)
  }

  predicate FreeAt(b: Block, x: nat) { b.start == x && !b.used }

  // The free list holds every free block once and nothing else.
  ghost predicate Listed(bs: seq<Block>, free: seq<nat>) {
    NoDuplicates(free) && forall x: nat :: x in free <==> IsFree(bs, x)
  }

  lemma {:induction false} IsFreeAt(l: Layout, bs: seq<Block>, end: nat, i: nat)
    requires Sound(l) && Tiles(l, bs, end) && i < |bs|
    ensures IsFree(bs, bs[i].start) <==> !bs[i].used
  {
    hide Tiles;
    if IsFree(bs, bs[i].start) {
      var j :| 0 <= j < |bs| && FreeAt(bs[j], bs[i].start);
      if j < i { Increasing(l, bs, end, j, i); }
      if i < j { Increasing(l, bs, end, i, j); }
    }
    if !bs[i].used { assert FreeAt(bs[i], bs[i].start); }
  }

  lemma {:induction false} SplitFree(l: Layout, bs: seq<Block>, end: nat, i: nat, cut: nat, x: nat)
    requires Sound(l) && Tiles(l, bs, end) && i < |bs|
    ensures IsFree(Split(bs, i, cut), x) <==> x == cut || (IsFree(bs, x) && x != bs[i].start)
  {
    hide Split, Tiles;
    SplitAt(bs, i, cut);
    var r := Split(bs, i, cut);
    assert FreeAt(r[i + 1], cut);
    if IsFree(r, x) && x != cut {
      var k :| 0 <= k < |r| && FreeAt(r[k], x);
      var j := if k < i then k else k - 1;
      assert FreeAt(bs[j], x);
      if j < i { Increasing(l, bs, end, j, i); } else { Increasing(l, bs, end, i, j); }
    }
    if IsFree(bs, x) && x != bs[i].start {
      var k :| 0 <= k < |bs| && FreeAt(bs[k], x);
      assert FreeAt(r[if k < i then k else k + 1], x);
    }
  }

  lemma {:induction false} FusedFree(l: Layout, bs: seq<Block>, end: nat, i: nat, used: bool, x: nat)
    requires Sound(l) && Tiles(l, bs, end) && i + 1 < |bs| && !bs[i + 1].used && used == bs[i].used
    ensures IsFree(Fused(bs, i, used), x) <==> IsFree(bs, x) && x != bs[i + 1].start
  {
    hide Fused, Tiles;
    FusedAt(bs, i, used);
    var r := Fused(bs, i, used);
    if IsFree(r, x) {
      var k :| 0 <= k < |r| && FreeAt(r[k], x);
      var j := if k <= i then k else k + 1;
      assert FreeAt(bs[j], x);
      if j <= i { Increasing(l, bs, end, j, i + 1); } else { Increasing(l, bs, end, i + 1, j); }
    }
    if IsFree(bs, x) && x != bs[i + 1].start {
      var k :| 0 <= k < |bs| && FreeAt(bs[k], x);
      assert FreeAt(r[if k <= i then k else k - 1], x);
    }
  }

  lemma {:induction false} MarkedFree(l: Layout, bs: seq<Block>, end: nat, i: nat, used: bool, x: nat)
    requires Sound(l) && Tiles(l, bs, end) && i < |bs|
    ensures var r := bs[i := bs[i].(used := used)];
      IsFree(r, x) <==> if x == bs[i].start then !used else IsFree(bs, x)
  {
    hide Tiles;
    var r := bs[i := bs[i].(used := used)];
    if IsFree(r, x) {
      var k :| 0 <= k < |r| && FreeAt(r[k], x);
      if k != i {
        assert FreeAt(bs[k], x);
        if k < i { Increasing(l, bs, end, k, i); } else { Increasing(l, bs, end, i, k); }
      }
    }
    if x == bs[i].start && !used { assert FreeAt(r[i], x); }
    if IsFree(bs, x) && x != bs[i].start {
      var k :| 0 <= k < |bs| && FreeAt(bs[k], x);
      assert FreeAt(r[k], x);
    }
  }
}
