/** The memheap itself: a ring of blocks, a ring of free blocks, and the two counters. */
module Memheaps {
  import opened Arithmetic
  import opened Lists
  import opened MemheapModel
  import opened Memory
  import opened Options
  import opened Rings
  import opened SmallHeapModel
  import opened SmallHeaps

  ghost predicate Marks(used: map<nat, bool>, bs: seq<Block>, end: nat) {
    && (forall i :: 0 <= i < |bs| ==> bs[i].start in used && used[bs[i].start] == bs[i].used)
    && end in used && used[end]
  }

  lemma {:induction false} MarksAt(used: map<nat, bool>, bs: seq<Block>, end: nat, i: nat)
    requires Marks(used, bs, end)
    ensures i <= |bs| ==> Start(bs, end, i) in used && (used[Start(bs, end, i)] <==> i == |bs| || bs[i].used)
  {
  }

  // What the block ring says around block i.
  lemma {:induction false} LinksAt(l: Layout, next: map<nat, nat>, prev: map<nat, nat>, bs: seq<Block>, end: nat, i: nat)
    requires Sound(l) && Tiles(l, bs, end) && Ring(next, prev, BlockRing(bs, end)) && i < |bs|
    ensures |BlockRing(bs, end)| == |bs| + 1 && BlockRing(bs, end)[i] == bs[i].start
    ensures BlockRing(bs, end)[i + 1] == Start(bs, end, i + 1) == bs[i].next
    ensures bs[i].start in next && next[bs[i].start] == bs[i].next
    ensures bs[i].start in prev && prev[bs[i].start] == if i == 0 then end else bs[i - 1].start
  {
    hide Ring, Tiles, BlockRing;
    Order(l, bs, end, i, i);
    var ring := BlockRing(bs, end);
    BlockRingAt(bs, end, i);
    BlockRingAt(bs, end, i + 1);
    BlockRingAt(bs, end, if i == 0 then |bs| else i - 1);
    RingAt(next, prev, ring, i);
  }

  lemma {:induction false} CutMarks(l: Layout, used: map<nat, bool>, bs: seq<Block>, end: nat, i: nat, cut: nat)
    requires Sound(l) && Tiles(l, bs, end) && Marks(used, bs, end) && i < |bs| && bs[i].start < cut < bs[i].next
    ensures Marks(used[cut := false][bs[i].start := true], Split(bs, i, cut), end)
  {
    hide Tiles, Split;
    SplitAt(bs, i, cut);
    var r := Split(bs, i, cut);
    var used1 := used[cut := false][bs[i].start := true];
    Order(l, bs, end, i, i);
    forall k | 0 <= k < |r| ensures r[k].start in used1 && used1[r[k].start] == r[k].used {
      var j := if k <= i then k else k - 1;
      Order(l, bs, end, i, j);
      MarksAt(used, bs, end, j);
    }
  }

  lemma {:induction false} FusedMarks(l: Layout, used: map<nat, bool>, bs: seq<Block>, end: nat, i: nat)
    requires Sound(l) && Tiles(l, bs, end) && Marks(used, bs, end) && i + 1 < |bs|
    ensures Marks(used, Fused(bs, i, bs[i].used), end)
  {
    hide Fused;
    FusedAt(bs, i, bs[i].used);
  }

  lemma {:induction false} SetMarks(l: Layout, used: map<nat, bool>, bs: seq<Block>, end: nat, i: nat, mark: bool)
    requires Sound(l) && Tiles(l, bs, end) && Marks(used, bs, end) && i < |bs|
    ensures Marks(used[bs[i].start := mark], bs[i := bs[i].(used := mark)], end)
  {
    hide Tiles;
    Order(l, bs, end, i, i);
    var r := bs[i := bs[i].(used := mark)];
    forall k | 0 <= k < |r| ensures used[bs[i].start := mark][r[k].start] == r[k].used && r[k].start in used {
      Order(l, bs, end, i, k);
      MarksAt(used, bs, end, k);
    }
  }

  lemma {:induction false} FusedTiles(l: Layout, bs: seq<Block>, end: nat, i: nat, used: bool)
    requires Sound(l) && Tiles(l, bs, end) && i + 1 < |bs|
    ensures Tiles(l, Fused(bs, i, used), end) && (OnGrid(l, bs) ==> OnGrid(l, Fused(bs, i, used)))
  {
    hide Fused;
    FusedAt(bs, i, used);
  }

  // A new header at `cut` is no header yet.
  lemma {:induction false} CutIsNew(l: Layout, bs: seq<Block>, end: nat, i: nat, cut: nat)
    requires Sound(l) && Tiles(l, bs, end) && i < |bs| && bs[i].start < cut < bs[i].next
    ensures cut !in BlockRing(bs, end) && !IsFree(bs, cut)
  {
    hide Tiles, BlockRing;
    BlockRingAll(bs, end);
    Order(l, bs, end, i, i);
    forall k | 0 <= k <= |bs| ensures BlockRing(bs, end)[k] != cut {
      if k < |bs| { Order(l, bs, end, i, k); }
    }
    if IsFree(bs, cut) {
      var k :| 0 <= k < |bs| && FreeAt(bs[k], cut);
      Order(l, bs, end, i, k);
    }
  }

  // Free headers lie below the tail, so the head of the free list is none of them.
  lemma {:induction false} FreeBelow(l: Layout, bs: seq<Block>, end: nat, free: seq<nat>, x: nat)
    requires Sound(l) && Tiles(l, bs, end) && Listed(bs, free) && x in free
    ensures x < end
  {
    hide Tiles;
    var i :| 0 <= i < |bs| && FreeAt(bs[i], x);
    Order(l, bs, end, i, i);
  }

  // The block whose header is x, or how many blocks there are.
  function IndexOf(bs: seq<Block>, x: nat): nat {
    if bs == [] || bs[0].start == x then 0 else 1 + IndexOf(bs[1..], x)
  }

  lemma {:induction false} IndexFinds(bs: seq<Block>, x: nat, k: nat)
    requires k < |bs| && bs[k].start == x
    ensures IndexOf(bs, x) <= k && bs[IndexOf(bs, x)].start == x
  {
    if bs[0].start != x { IndexFinds(bs[1..], x, k - 1); }
  }

  lemma {:induction false} FreeIndex(l: Layout, bs: seq<Block>, end: nat, free: seq<nat>, x: nat)
    requires Sound(l) && Tiles(l, bs, end) && Listed(bs, free) && x in free
    ensures var i := IndexOf(bs, x); i < |bs| && bs[i].start == x && !bs[i].used
  {
    hide Tiles;
    var k :| 0 <= k < |bs| && FreeAt(bs[k], x);
    IndexFinds(bs, x, k);
    IsFreeAt(l, bs, end, IndexOf(bs, x));
  }

  lemma {:induction false} ListedFree(l: Layout, bs: seq<Block>, end: nat, free: seq<nat>, i: nat)
    requires Sound(l) && Tiles(l, bs, end) && Listed(bs, free) && i < |bs|
    ensures bs[i].start in free <==> !bs[i].used
    ensures IndexOf(bs, bs[i].start) == i
  {
    hide Tiles;
    IsFreeAt(l, bs, end, i);
    IndexFinds(bs, bs[i].start, i);
    Order(l, bs, end, i, IndexOf(bs, bs[i].start));
  }

  // Where the search of the free list stops: the first listed block from k on with room enough.
  function FirstListed(l: Layout, bs: seq<Block>, free: seq<nat>, size: nat, k: nat): (r: nat)
    requires k <= |free|
    ensures k <= r <= |free|
    decreases |free| - k
  {
    if k == |free| || RoomAt(l, bs, free[k]) >= size then k else FirstListed(l, bs, free, size, k + 1)
  }

  function RoomAt(l: Layout, bs: seq<Block>, x: nat): int {
    var i := IndexOf(bs, x);
    if i < |bs| then Room(l, bs[i]) else -1
  }

  lemma {:induction false} FirstListedIs(l: Layout, bs: seq<Block>, free: seq<nat>, size: nat, i: nat, k: nat)
    requires i <= k <= |free| && (k < |free| ==> RoomAt(l, bs, free[k]) >= size)
    requires forall j :: i <= j < k ==> RoomAt(l, bs, free[j]) < size
    ensures FirstListed(l, bs, free, size, i) == k
    decreases k - i
  {
    if i < k { FirstListedIs(l, bs, free, size, i + 1, k); }
  }

  class MemHeap {
    const layout: Layout
    const poolSize: nat
    var used: map<nat, bool>
    var next: map<nat, nat>
    var prev: map<nat, nat>
    var nextFree: map<nat, nat>
    var prevFree: map<nat, nat>
    var available: int
    var maxUsed: int
    var bytes: seq<bv8>
    ghost var blocks: seq<Block>
    ghost var free: seq<nat> // the free list from its head on
    ghost var levels: seq<int> // the bytes in use at the start and after each step that changed them

    ghost function End(): int { poolSize - layout.header }

    ghost predicate Fixed() {
      Sound(layout) && poolSize >= 2 * layout.header && poolSize % layout.align == 0 && layout.min % layout.align == 0
    }

    // The ring of blocks.
    ghost predicate Chained()
      requires Fixed()
      reads this`used, this`next, this`prev, this`blocks
    {
      && Tiles(layout, blocks, End()) && OnGrid(layout, blocks)
      && Marks(used, blocks, End()) && Ring(next, prev, BlockRing(blocks, End()))
    }

    // The ring of free blocks; its head is a header outside the pool.
    ghost predicate FreeChained()
      reads this`nextFree, this`prevFree, this`free
    {
      Ring(nextFree, prevFree, [poolSize] + free)
    }

    ghost predicate Valid()
      reads this
    {
      && Fixed() && Chained() && FreeChained()
      && Listed(blocks, free) && Merged(blocks)
      && available == FreeRooms(layout, blocks)
      && poolSize - available <= maxUsed
      && levels != [] && levels[|levels| - 1] == poolSize - available && maxUsed == Highest(levels)
      && |bytes| == End()
    }

    // rt_memheap_init: one free block and the tail.
    constructor (layout: Layout, poolSize: nat)
      requires Sound(layout) && poolSize >= 2 * layout.header && poolSize % layout.align == 0 && layout.min % layout.align == 0
      ensures Valid() && this.layout == layout && this.poolSize == poolSize
      ensures blocks == [Block(0, poolSize - layout.header, false)] && free == [0]
      ensures available == poolSize - 2 * layout.header && levels == [2 * layout.header]
    {
      this.layout := layout;
      this.poolSize := poolSize;
      var end := poolSize - layout.header;
      used := map[0 := false, end := true];
      next := map[0 := end, end := 0];
      prev := map[0 := end, end := 0];
      nextFree := map[poolSize := 0, 0 := poolSize];
      prevFree := map[poolSize := 0, 0 := poolSize];
      available := poolSize - 2 * layout.header;
      maxUsed := 2 * layout.header;
      levels := [2 * layout.header];
      bytes := seq(end, i => 0);
      blocks := [Block(0, end, false)];
      free := [0];
      new;
      assert BlockRing(blocks, end) == [0, end];
      assert [poolSize] + free == [poolSize, 0];
      assert IsFree(blocks, 0) by { assert FreeAt(blocks[0], 0); }
      RoomsOfTwo(layout, blocks[0], blocks[0]);
      DifferenceOnGrid(poolSize, layout.header, layout.align);
      assert 0 % layout.align == 0;
    }

    // A block is cut in two: the second part becomes a free block that is on no list yet.
    method Cut(header: nat, cut: nat, ghost i: nat)
      requires Fixed() && Chained() && i < |blocks| && blocks[i].start == header && cut % layout.align == 0
      requires header + layout.header <= cut && cut + layout.header <= blocks[i].next
      modifies this`used, this`next, this`prev, this`blocks
      ensures Chained() && blocks == Split(old(blocks), i, cut)
    {
      hide Tiles, Marks, Ring, BlockRing, Split, OnGrid;
      ghost var l, end, bs := layout, End(), blocks;
      LinksAt(l, next, prev, bs, end, i);
      CutIsNew(l, bs, end, i, cut);
      LinkRing(next, prev, BlockRing(bs, end), i, cut);
      SplitRing(bs, end, i, cut);
      SplitTiles(l, bs, end, i, cut);
      SplitOnGrid(l, bs, i, cut);
      CutMarks(l, used, bs, end, i, cut);
      used := used[cut := false];
      var after := next[header];
      prev := prev[cut := header];
      next := next[cut := after];
      prev := prev[after := cut];
      next := next[header := cut];
      used := used[header := true];
      blocks := Split(bs, i, cut);
    }

    // A block takes in the free one after it.
    method Fuse(header: nat, ghost i: nat)
      requires Fixed() && Chained() && i + 1 < |blocks| && blocks[i].start == header
      modifies this`next, this`prev, this`blocks
      ensures Chained() && blocks == Fused(old(blocks), i, old(blocks)[i].used)
    {
      hide Tiles, Marks, Ring, BlockRing, Fused, OnGrid;
      ghost var l, end, bs := layout, End(), blocks;
      LinksAt(l, next, prev, bs, end, i);
      LinksAt(l, next, prev, bs, end, i + 1);
      UnlinkRing(next, prev, BlockRing(bs, end), i + 1);
      FusedRing(bs, end, i, bs[i].used);
      FusedTiles(l, bs, end, i, bs[i].used);
      FusedMarks(l, used, bs, end, i);
      var x := next[header];
      prev := prev[next[x] := header];
      next := next[header := next[x]];
      blocks := Fused(bs, i, bs[i].used);
    }

    method Mark(header: nat, mark: bool, ghost i: nat)
      requires Fixed() && Chained() && i < |blocks| && blocks[i].start == header
      modifies this`used, this`blocks
      ensures Chained() && blocks == old(blocks)[i := old(blocks)[i].(used := mark)]
    {
      hide Tiles, Marks, Ring, BlockRing, OnGrid;
      SetMarks(layout, used, blocks, End(), i, mark);
      MarkedRing(blocks, End(), i, mark);
      MarkedTiles(layout, blocks, End(), i, mark);
      used := used[header := mark];
      blocks := blocks[i := blocks[i].(used := mark)];
    }

    method TakeFree(x: nat, ghost k: nat)
      requires FreeChained() && k < |free| && free[k] == x
      modifies this`nextFree, this`prevFree, this`free
      ensures FreeChained() && free == Delete(old(free), k)
    {
      hide Ring;
      ghost var ring := [poolSize] + free;
      UnlinkRing(nextFree, prevFree, ring, k + 1);
      assert Delete(ring, k + 1) == [poolSize] + Delete(free, k);
      RingAt(nextFree, prevFree, ring, k + 1);
      var n, p := nextFree[x], prevFree[x];
      prevFree := prevFree[n := p];
      nextFree := nextFree[p := n];
      free := Delete(free, k);
    }

    method PutFree(x: nat)
      requires FreeChained() && x != poolSize && x !in free
      modifies this`nextFree, this`prevFree, this`free
      ensures FreeChained() && free == [x] + old(free)
    {
      hide Ring;
      ghost var ring := [poolSize] + free;
      LinkRing(nextFree, prevFree, ring, 0, x);
      assert Insert(ring, 1, x) == [poolSize] + ([x] + free);
      var first := nextFree[poolSize];
      nextFree := nextFree[x := first];
      prevFree := prevFree[x := poolSize];
      prevFree := prevFree[first := x];
      nextFree := nextFree[poolSize := x];
      free := [x] + free;
    }

    // The search of the free list.
    method Search(r: nat) returns (header: nat, found: bool)
      requires Valid() && r > 0
      ensures found <==> FirstListed(layout, blocks, free, r, 0) < |free|
      ensures found ==> header == free[FirstListed(layout, blocks, free, r, 0)]
    {
      hide Tiles, Marks, Ring, BlockRing, OnGrid, Listed, Merged, FreeRooms;
      ghost var l, end := layout, End();
      var freeSize := 0;
      ghost var ring := [poolSize] + free;
      ghost var k := 0;
      RingAt(nextFree, prevFree, ring, 0);
      header := nextFree[poolSize];
      HeadApart(l, blocks, end, free, poolSize);
      while header != poolSize && freeSize < r
        invariant k <= |free| && header == if k < |free| then free[k] else poolSize
        invariant forall j :: 0 <= j < k ==> RoomAt(l, blocks, free[j]) < r
        invariant freeSize >= r ==> k < |free| && RoomAt(l, blocks, free[k]) >= r
        decreases |free| - k, if freeSize < r then 1 else 0
      {
        ListHeader(l, blocks, end, free, poolSize, ring, k, header);
        LinksAt(l, next, prev, blocks, end, IndexOf(blocks, header));
        freeSize := next[header] - header - layout.header;
        if freeSize < r {
          RingAt(nextFree, prevFree, ring, k + 1);
          header := nextFree[header];
          k := k + 1;
        }
      }
      found := freeSize >= r;
      FirstListedIs(l, blocks, free, r, 0, k);
    }

    // NULL exactly when the rounded request is not below what is available or no free block can hold it;
    // otherwise the first block on the free list that can is taken.
    method Alloc(request: nat) returns (p: Option<nat>)
      requires Valid()
      modifies this`used, this`next, this`prev, this`nextFree, this`prevFree, this`available, this`maxUsed, this`blocks, this`free, this`levels
      ensures Valid()
      ensures var r := Rounded(layout, request);
        p == None <==> r >= old(available) || NothingFits(layout, old(blocks), r)
      ensures p == None ==> unchanged(this)
      ensures p.Some? ==> Taken(layout, old(blocks), old(free), Rounded(layout, request), p.value, blocks, free)
      ensures p.Some? ==> maxUsed == Most(old(maxUsed), poolSize - available) && levels == old(levels) + [poolSize - available]
      ensures p.Some? ==> var r := Rounded(layout, request);
        RoomIs(layout, blocks, p.value, r, r + layout.header + layout.min) && available <= old(available) - r
      ensures OthersSurvive(layout, old(blocks), bytes, blocks, bytes, None)
    {
      hide Tiles, Chained, FreeChained, OnGrid, Listed, Merged, FreeRooms, AlignUp, Carved, NothingFits, AfterTake, Highest;
      hide RoomIs, OthersSurvive, Owner, Rounded, FirstListed;
      ChainedTiles();
      ghost var l, end, bs, fl, r := layout, End(), blocks, free, Rounded(layout, request);
      NothingMoved(l, bs, bytes, end, 0);
      p := Place(request);
      if p.Some? {
        ghost var f := IndexOf(bs, fl[FirstListed(l, bs, fl, r, 0)]);
        AllocEffect(l, bs, bytes, end, f, r);
        CarvedRooms(l, bs, end, f, r);
      }
    }

    // The search and the split of rt_memheap_alloc.
    method Place(request: nat) returns (p: Option<nat>)
      requires Valid()
      modifies this`used, this`next, this`prev, this`nextFree, this`prevFree, this`available, this`maxUsed, this`blocks, this`free, this`levels
      ensures Valid()
      ensures var r := Rounded(layout, request);
        p == None <==> r >= old(available) || NothingFits(layout, old(blocks), r)
      ensures p == None ==> unchanged(this)
      ensures p.Some? ==> Taken(layout, old(blocks), old(free), Rounded(layout, request), p.value, blocks, free)
      ensures p.Some? ==> maxUsed == Most(old(maxUsed), poolSize - available) && levels == old(levels) + [poolSize - available]
    {
      ghost var l, end, bs, fl := layout, End(), blocks, free;
      var r := AlignUp(request, layout.align);
      AlignedUp(request, layout.align);
      if r < layout.min {
        r := layout.min;
      }
      if r < available {
        hide Highest, Tiles, Chained, FreeChained, OnGrid, Listed, Merged, FreeRooms, AlignUp, Carved, NothingFits, AfterTake;
        PositiveRound(l, r);
        var header, found := Search(r);
        FoundFits(l, bs, end, fl, r);
        if found {
          Take(header, r, FirstListed(l, bs, fl, r, 0), IndexOf(bs, header));
          return Some(header + layout.header);
        }
      }
      p := None;
    }

    // What Alloc does with the block it found.
    method Take(header: nat, r: nat, ghost k: nat, ghost i: nat)
      requires Valid() && k < |free| && free[k] == header && i < |blocks| && blocks[i].start == header
      requires Fits(layout, blocks[i], r) && r % layout.align == 0
      modifies this`used, this`next, this`prev, this`nextFree, this`prevFree, this`available, this`maxUsed, this`blocks, this`free, this`levels
      ensures Valid()
      ensures blocks == Carved(layout, old(blocks), i, r)
      ensures free == AfterTake(layout, old(blocks), old(free), k, i, r)
      ensures maxUsed == Most(old(maxUsed), poolSize - available) && levels == old(levels) + [poolSize - available]
    {
      hide Highest, Tiles, Marks, Ring, BlockRing, OnGrid, Merged, FreeRooms, Split, Listed, FreeChained;
      ghost var l, end, bs, fl := layout, End(), blocks, free;
      CarvedValid(l, bs, end, i, r);
      TakeListed(l, bs, end, fl, k, i, r);
      LinksAt(l, next, prev, bs, end, i);
      var freeSize := next[header] - header - layout.header;
      if freeSize >= r + layout.header + layout.min {
        TakePart(header, r, k, i);
        available := available - r - layout.header;
      } else {
        MarkedRooms(l, bs, i, true);
        available := available - freeSize;
        TakeFree(header, k);
        assert free == [] + Delete(fl, k);
        Mark(header, true, i);
      }
      if poolSize - available > maxUsed {
        maxUsed := poolSize - available;
      }
      HighestStep(levels, poolSize - available);
      levels := levels + [poolSize - available];
    }

    // The block is split: its rest takes its place at the head of the free list.
    method TakePart(header: nat, r: nat, ghost k: nat, ghost i: nat)
      requires Fixed() && Chained() && FreeChained() && Listed(blocks, free)
      requires k < |free| && free[k] == header && i < |blocks| && blocks[i].start == header && !blocks[i].used
      requires Room(layout, blocks[i]) >= r + layout.header + layout.min && r % layout.align == 0
      modifies this`used, this`next, this`prev, this`nextFree, this`prevFree, this`blocks, this`free
      ensures Chained() && FreeChained()
      ensures blocks == Split(old(blocks), i, header + layout.header + r)
      ensures free == [header + layout.header + r] + Delete(old(free), k)
      ensures FreeRooms(layout, blocks) == FreeRooms(layout, old(blocks)) - r - layout.header
    {
      hide Chained, FreeChained, OnGrid, FreeRooms, Split, Listed;
      ghost var l, end, bs, fl := layout, End(), blocks, free;
      ghost var cut := header + l.header + r;
      ChainedTiles();
      CutOnGrid(l, bs, i, r);
      SplitRooms(l, bs, i, cut);
      CutNotListed(l, bs, end, fl, k, i, cut);
      Cut(header, header + layout.header + r, i);
      TakeFree(header, k);
      PutFree(header + layout.header + r);
    }

    lemma {:induction false} ChainedTiles()
      requires Fixed() && Chained()
      ensures Tiles(layout, blocks, End()) && OnGrid(layout, blocks)
    {
    }

    // The state between the steps of freeing: block `out`, if it is one, is free but not listed yet.
    ghost predicate Mid(out: nat)
      reads this
    {
      && Fixed() && Chained() && FreeChained()
      && ListedBut(blocks, free, out)
      && available == FreeRooms(layout, blocks)
    }

    // A free block before this one takes it in; it is listed already.
    method MergeLeft(header: nat, ghost i: nat) returns (start: nat, insert: bool)
      requires Mid(header) && i < |blocks| && blocks[i].start == header && !blocks[i].used
      modifies this`next, this`prev, this`blocks, this`available
      ensures insert <==> i == 0 || old(blocks)[i - 1].used
      ensures insert ==> start == header && blocks == old(blocks) && Mid(header)
      ensures !insert ==> start == old(blocks)[i - 1].start && blocks == Joined(old(blocks), i - 1) && Mid(poolSize)
    {
      hide Tiles, Ring, BlockRing, OnGrid, FreeRooms, Joined, ListedBut, FreeChained;
      ghost var l, end, bs := layout, End(), blocks;
      LinksAt(l, next, prev, bs, end, i);
      MarksAt(used, bs, end, if i == 0 then |bs| else i - 1);
      if !used[prev[header]] {
        available := available + layout.header;
        start := prev[header];
        FusedRooms(l, bs, i - 1, false);
        FusedListed(l, bs, end, free, i - 1, header, poolSize);
        LinksAt(l, next, prev, bs, end, i - 1);
        Fuse(start, i - 1);
        FusedIsJoined(bs, i - 1);
        insert := false;
      } else {
        start := header;
        insert := true;
      }
    }

    // A free block after this one is taken in and leaves the free list.
    method MergeRight(header: nat, ghost i: nat, ghost out: nat)
      requires Mid(out) && i < |blocks| && blocks[i].start == header && !blocks[i].used && out in {header, poolSize}
      modifies this`next, this`prev, this`blocks, this`available, this`nextFree, this`prevFree, this`free
      ensures Mid(out)
      ensures blocks == if i + 1 < |old(blocks)| && !old(blocks)[i + 1].used then Joined(old(blocks), i) else old(blocks)
    {
      hide Tiles, Ring, BlockRing, OnGrid, FreeRooms, Joined, ListedBut, FreeChained;
      ghost var l, end, bs, fl := layout, End(), blocks, free;
      LinksAt(l, next, prev, bs, end, i);
      MarksAt(used, bs, end, i + 1);
      if !used[next[header]] {
        available := available + layout.header;
        var x := next[header];
        FusedRooms(l, bs, i, false);
        ghost var k := ListedIndex(l, bs, end, fl, out, i);
        TakeListedBut(l, bs, end, fl, i, k, out);
        Fuse(header, i);
        FusedIsJoined(bs, i);
        TakeFree(x, k);
      }
    }

    // The merging half of rt_memheap_free.
    method Merge(header: nat, ghost i: nat)
      requires Mid(header) && i < |blocks| && blocks[i].start == header && !blocks[i].used
      modifies this`next, this`prev, this`nextFree, this`prevFree, this`available, this`blocks, this`free
      ensures Fixed() && Chained() && FreeChained() && Listed(blocks, free) && available == FreeRooms(layout, blocks)
      ensures blocks == Plugged(old(blocks), i)
    {
      hide Tiles, Chained, OnGrid, FreeRooms, Joined, Listed, ListedBut, FreeChained, Plugged, IsFree;
      ghost var l, end, bs := layout, End(), blocks;
      var start, insert := MergeLeft(header, i);
      ghost var j := if insert then i else i - 1;
      MidBlock(bs, i);
      MergeOrder(bs, i);
      MergeRight(start, j, if insert then header else poolSize);
      ChainedTiles();
      if insert {
        PluggedHas(bs, i);
        PutListed(l, blocks, end, free, header);
        PutFree(start);
      } else {
        ListedAll(l, blocks, end, free, poolSize);
      }
    }

    // rt_memheap_free
    method Free(ptr: Option<nat>)
      requires Valid() && (ptr.Some? ==> Live(layout, blocks, ptr.value))
      modifies this`used, this`next, this`prev, this`nextFree, this`prevFree, this`available, this`blocks, this`free, this`levels
      ensures Valid()
      ensures ptr == None ==> unchanged(this)
      ensures ptr.Some? ==> blocks == Released(old(blocks), Owner(layout, old(blocks), ptr.value))
      ensures ptr.Some? ==> levels == old(levels) + [poolSize - available]
      ensures ptr.Some? ==>
        && OthersSurvive(layout, old(blocks), bytes, blocks, bytes, ptr)
        && available >= old(available) + Room(layout, old(blocks)[Owner(layout, old(blocks), ptr.value)])
    {
      hide Highest, Tiles, Chained, OnGrid, FreeRooms, Plugged, Listed, ListedBut, FreeChained, Merged;
      if ptr == None {
        return;
      }
      var p := ptr.value;
      ghost var l, end, bs := layout, End(), blocks;
      ghost var i := Owner(l, bs, p);
      OwnerIs(l, bs, p);
      ChainedTiles();
      ReleasedValid(l, bs, end, i);
      ReleasedRooms(l, bs, end, i);
      MarkedRooms(l, bs, i, false);
      MarkListed(l, bs, end, free, i);
      Order(l, bs, end, i, i);
      var header := p - layout.header;
      NextIs(header, i);
      available := available + (next[header] - header - layout.header);
      Mark(header, false, i);
      Merge(header, i);
      FreedKeeps(l, bs, bytes, end, i);
      HighestStep(levels, poolSize - available);
      levels := levels + [poolSize - available];
    }

    // Growing into the free block that follows.
    method Grow(header: nat, newsize: nat, ghost i: nat)
      requires Valid() && i + 1 < |blocks| && blocks[i].start == header && blocks[i].used && !blocks[i + 1].used
      requires newsize % layout.align == 0 && Room(layout, blocks[i]) < newsize
      requires Room(layout, blocks[i + 1]) + Room(layout, blocks[i]) > newsize + layout.min
      modifies this`used, this`next, this`prev, this`nextFree, this`prevFree, this`available, this`maxUsed, this`blocks, this`free, this`levels
      ensures Valid()
      ensures blocks == Grown(layout, old(blocks), i, newsize)
      ensures maxUsed == Most(old(maxUsed), poolSize - available) && levels == old(levels) + [poolSize - available]
    {
      hide Highest, Tiles, Chained, OnGrid, FreeRooms, Fused, Split, Listed, ListedBut, FreeChained, Merged;
      ghost var l, end, bs, fl := layout, End(), blocks, free;
      ChainedTiles();
      GrownValid(l, bs, end, i, newsize);
      Order(l, bs, end, i, i + 1);
      CutOnGrid(l, bs, i, newsize);
      NextIs(header, i);
      var oldsize := next[header] - header - layout.header;
      available := available - (newsize - oldsize);
      if poolSize - available > maxUsed {
        maxUsed := poolSize - available;
      }
      HighestStep(levels, poolSize - available);
      levels := levels + [poolSize - available];
      ListedBelow(l, bs, end, fl, poolSize);
      ghost var k := ListedIndex(l, bs, end, fl, poolSize, i);
      GrownListed(l, bs, end, fl, i, k, newsize, poolSize);
      var x := next[header];
      TakeFree(x, k);
      Fuse(header, i);
      FusedAt(bs, i, true);
      Cut(header, header + layout.header + newsize, i);
      PutFree(header + layout.header + newsize);
    }

    // The new block after a cut takes in a free block that follows it, whose bytes no longer count.
    method Absorb(new_ptr: nat, ghost i: nat)
      requires Fixed() && Chained() && FreeChained() && ListedBut(blocks, free, new_ptr)
      requires i < |blocks| && blocks[i].start == new_ptr && !blocks[i].used
      modifies this`next, this`prev, this`nextFree, this`prevFree, this`available, this`blocks, this`free
      ensures Chained() && FreeChained() && ListedBut(blocks, free, new_ptr)
      ensures blocks == if i + 1 < |old(blocks)| && !old(blocks)[i + 1].used then Joined(old(blocks), i) else old(blocks)
      ensures FreeRooms(layout, blocks) - Room(layout, blocks[i]) - available
        == FreeRooms(layout, old(blocks)) - Room(layout, old(blocks)[i]) - old(available)
    {
      hide Tiles, Chained, OnGrid, FreeRooms, Joined, ListedBut, FreeChained, IsFree;
      ghost var l, end, bs := layout, End(), blocks;
      ChainedTiles();
      NextIs(new_ptr, i);
      NextMark(i);
      if !used[next[new_ptr]] {
        var x := next[new_ptr];
        Order(l, bs, end, i, i + 1);
        NextIs(x, i + 1);
        available := available - (next[x] - x - layout.header);
        FusedRooms(l, bs, i, false);
        ghost var k := ListedIndex(l, bs, end, free, new_ptr, i);
        TakeListedBut(l, bs, end, free, i, k, new_ptr);
        JoinedPoint(bs, i, i);
        Fuse(new_ptr, i);
        FusedIsJoined(bs, i);
        TakeFree(x, k);
      }
    }

    // Giving the end of a block back; a free block after it is taken in.
    method Shrink(header: nat, newsize: nat, ghost i: nat)
      requires Valid() && i < |blocks| && blocks[i].start == header && blocks[i].used
      requires newsize % layout.align == 0 && newsize > 0 && newsize + layout.header + layout.min < Room(layout, blocks[i])
      modifies this`used, this`next, this`prev, this`nextFree, this`prevFree, this`available, this`blocks, this`free, this`levels
      ensures Valid()
      ensures blocks == Shrunk(layout, old(blocks), i, newsize)
      ensures levels == old(levels) + [poolSize - available]
    {
      hide Highest, Tiles, Chained, OnGrid, FreeRooms, Joined, Split, Listed, ListedBut, FreeChained, Merged, IsFree, Shrunk, Plugged;
      ghost var l, end, bs := layout, End(), blocks;
      ghost var cut := header + l.header + newsize;
      ChainedTiles();
      ShrunkValid(l, bs, end, i, newsize);
      ShrunkRooms(l, bs, end, i, newsize);
      Order(l, bs, end, i, i);
      CutOnGrid(l, bs, i, newsize);
      CutListed(l, bs, end, free, i, cut);
      SplitRooms(l, bs, i, cut);
      SplitPoint(bs, i, cut, i);
      SplitPoint(bs, i, cut, i + 1);
      var new_ptr := header + layout.header + newsize;
      Cut(header, new_ptr, i);
      PluggedSplit(l, bs, i, newsize);
      Absorb(new_ptr, i + 1);
      PutBack(new_ptr, i + 1);
      HighestStep(levels, poolSize - available);
      levels := levels + [poolSize - available];
    }

    // The new block heads the free list, and its bytes count.
    method PutBack(new_ptr: nat, ghost i: nat)
      requires Fixed() && Chained() && FreeChained() && ListedBut(blocks, free, new_ptr)
      requires i < |blocks| && FreeAt(blocks[i], new_ptr)
      modifies this`nextFree, this`prevFree, this`available, this`free
      ensures FreeChained() && Listed(blocks, free) && available == old(available) + Room(layout, blocks[i])
    {
      hide Tiles, Chained, FreeRooms, Listed, ListedBut, FreeChained, IsFree;
      ChainedTiles();
      FreeHas(blocks, i, new_ptr);
      PutListed(layout, blocks, End(), free, new_ptr);
      PutFree(new_ptr);
      NextIs(new_ptr, i);
      available := available + (next[new_ptr] - new_ptr - layout.header);
    }

    // The part of rt_memheap_realloc that moves the data to a new block.
    method Move(ptr: nat, newsize: nat) returns (p: Option<nat>)
      requires Valid() && Live(layout, blocks, ptr)
      requires newsize > 0 && newsize % layout.align == 0
      modifies this
      ensures Valid() && old(levels) <= levels
      ensures p == None ==> unchanged(this)
      ensures p != Some(ptr)
      ensures p.Some? ==> Given(layout, blocks, p.value, newsize)
      ensures p.Some? ==> Carried(layout, old(blocks), old(bytes), ptr, bytes, p.value, newsize)
      ensures p.Some? ==> Peaks(layout, poolSize, old(blocks), old(free), Rounded(layout, newsize), old(maxUsed), maxUsed)
      ensures OthersSurvive(layout, old(blocks), old(bytes), blocks, bytes, Some(ptr))
      ensures p == None <==> Rounded(layout, newsize) >= old(available) || NothingFits(layout, old(blocks), Rounded(layout, newsize))
      ensures p.Some? ==> var r := Rounded(layout, newsize); RoomIs(layout, blocks, p.value, r, r + layout.header + layout.min)
    {
      hide Chained, FreeChained, Listed, Tiles, FreeRooms, Carved, AfterTake, Live, Merged, AlignUp, Given, RoomIs, OthersSurvive, Carried, NothingFits;
      ChainedTiles();
      ghost var l, end, bs, fl := layout, End(), blocks, free;
      RoundedUp(l, newsize);
      ghost var r := Rounded(l, newsize);
      p := Alloc(newsize);
      if p.Some? {
        Relocate(ptr, p.value, newsize, bs, IndexOf(bs, fl[FirstListed(l, bs, fl, r, 0)]), r);
      } else {
        NothingMoved(l, bs, bytes, end, ptr);
      }
    }

    // Copying to the block just allocated, number f of the blocks `bs` there were, and freeing the old one.
    method Relocate(ptr: nat, p: nat, newsize: nat, ghost bs: seq<Block>, ghost f: nat, ghost r: nat)
      requires Valid() && SmallHeapModel.Valid(layout, bs, End()) && Live(layout, bs, ptr)
      requires f < |bs| && Fits(layout, bs[f], r) && newsize <= r && p == bs[f].start + layout.header
      requires blocks == Carved(layout, bs, f, r)
      modifies this
      ensures Valid() && maxUsed == old(maxUsed) && p != ptr && old(levels) <= levels
      ensures Given(layout, blocks, p, newsize)
      ensures Carried(layout, bs, old(bytes), ptr, bytes, p, newsize)
      ensures OthersSurvive(layout, bs, old(bytes), blocks, bytes, Some(ptr))
      ensures RoomIs(layout, blocks, p, r, r + layout.header + layout.min)
    {
      hide Chained, FreeChained, Listed, Tiles, FreeRooms, Carved, Released, Owner, Merged, Given, RoomIs, OthersSurvive, Carried, CopiedTo;
      ghost var l, end, was := layout, End(), bytes;
      ghost var b := bs[Owner(l, bs, ptr)];
      OwnerIs(l, bs, ptr);
      AllocGives(l, bs, end, f, r, b);
      NextIs(ptr - layout.header, Owner(l, blocks, ptr));
      var oldsize := next[ptr - layout.header] - ptr;
      var n := if oldsize < newsize then oldsize else newsize;
      bytes := MemCopy(bytes, p, ptr, n);
      Moved(l, bs, was, end, f, r, b, bytes, newsize, n);
      Free(Some(ptr));
    }

    // As for the small heap: the data goes along, the other blocks in use stay as they are, and NULL for a
    // size that is not zero changes nothing. A block grows in place when the free block after it allows.
    method Realloc(ptr: Option<nat>, request: nat) returns (p: Option<nat>)
      requires Valid() && (ptr.Some? ==> Live(layout, blocks, ptr.value))
      modifies this
      ensures Valid() && old(levels) <= levels
      ensures p == None && request != 0 ==> unchanged(this)
      ensures request == 0 ==> p == None && bytes == old(bytes)
      ensures request == 0 && ptr.Some? ==> blocks == Released(old(blocks), Owner(layout, old(blocks), ptr.value))
      ensures request == 0 && ptr == None ==> blocks == old(blocks)
      ensures p.Some? ==> Given(layout, blocks, p.value, Rounded(layout, request))
      ensures p.Some? && ptr.Some? ==>
        Carried(layout, old(blocks), old(bytes), ptr.value, bytes, p.value, Rounded(layout, request))
      ensures OthersSurvive(layout, old(blocks), old(bytes), blocks, bytes, ptr)
      ensures ptr.Some? && request != 0 && GrowsInPlace(layout, old(blocks), ptr.value, Rounded(layout, request)) ==> p == ptr
      ensures p == None ==> maxUsed == old(maxUsed)
      ensures p.Some? && ptr == None ==> maxUsed == Most(old(maxUsed), poolSize - available)
      ensures p.Some? && ptr.Some? ==> HighWater(old(blocks), old(free), old(maxUsed), ptr.value, Rounded(layout, request), p.value)
      ensures ptr == None && request != 0 ==>
        (p == None <==> Rounded(layout, request) >= old(available) || NothingFits(layout, old(blocks), Rounded(layout, request)))
      ensures ptr.Some? && request != 0 ==>
        var i := Owner(layout, old(blocks), ptr.value);
        && i < |old(blocks)|
        && var bs, n, room := old(blocks), Rounded(layout, request), Room(layout, old(blocks)[i]);
        var grows := room < n && i + 1 < |bs| && !bs[i + 1].used && Room(layout, bs[i + 1]) + room > n + layout.min;
        && (room >= n ==>
          p == Some(ptr.value) && RoomIs(layout, blocks, ptr.value, n, if n + layout.header + layout.min >= room then room + 1 else n + 1))
        && (grows ==> p == Some(ptr.value) && RoomIs(layout, blocks, ptr.value, n, n + 1))
        && (room < n && !grows ==> (p == None <==> n >= old(available) || NothingFits(layout, bs, n)))
        && (room < n && !grows && p.Some? ==> RoomIs(layout, blocks, p.value, n, n + layout.header + layout.min))
    {
      hide Chained, FreeChained, Listed, Tiles, FreeRooms, Carved, Released, Shrunk, Grown, AfterTake, Merged, AlignUp;
      hide Owner, Given, RoomIs, OthersSurvive, Carried, NothingFits, GrowsInPlace, HighWater;
      ChainedTiles();
      ghost var l, end, bs, fl, was := layout, End(), blocks, free, bytes;
      NothingMoved(l, bs, was, end, 0);
      if request == 0 {
        if ptr.Some? {
          OwnerIs(l, bs, ptr.value);
          Free(ptr);
          FreedKeeps(l, bs, was, end, Owner(l, bs, ptr.value));
        }
        return None;
      }
      var newsize := AlignUp(request, layout.align);
      AlignedUp(request, layout.align);
      if newsize < layout.min {
        newsize := layout.min;
      }
      RoundedTwice(l, request);
      if ptr == None {
        p := Alloc(newsize);
        if p.Some? { NewKeeps(l, bs, was, end, IndexOf(bs, fl[FirstListed(l, bs, fl, newsize, 0)]), newsize); }
        return;
      }
      p := Resize(ptr.value, newsize);
    }

    // How the high-water mark moves when the object at ptr becomes the one at p.
    ghost predicate HighWater(bs: seq<Block>, fl: seq<nat>, before: int, ptr: nat, newsize: nat, p: nat)
      reads this`maxUsed, this`available
    {
      if p != ptr then Peaks(layout, poolSize, bs, fl, newsize, before, maxUsed)
      else maxUsed == if GrowsInPlace(layout, bs, ptr, newsize) then Most(before, poolSize - available) else before
    }

    // rt_memheap_realloc of an object to a rounded size that is not zero.
    method Resize(ptr: nat, newsize: nat) returns (p: Option<nat>)
      requires Valid() && Live(layout, blocks, ptr)
      requires newsize > 0 && newsize % layout.align == 0 && Rounded(layout, newsize) == newsize
      modifies this
      ensures Valid() && old(levels) <= levels
      ensures p == None ==> unchanged(this)
      ensures p.Some? ==> Given(layout, blocks, p.value, newsize)
      ensures p.Some? ==> Carried(layout, old(blocks), old(bytes), ptr, bytes, p.value, newsize)
      ensures OthersSurvive(layout, old(blocks), old(bytes), blocks, bytes, Some(ptr))
      ensures GrowsInPlace(layout, old(blocks), ptr, newsize) ==> p == Some(ptr)
      ensures p.Some? ==> HighWater(old(blocks), old(free), old(maxUsed), ptr, newsize, p.value)
      ensures var i := Owner(layout, old(blocks), ptr);
        && i < |old(blocks)|
        && var bs, n, room := old(blocks), newsize, Room(layout, old(blocks)[i]);
        var grows := room < n && i + 1 < |bs| && !bs[i + 1].used && Room(layout, bs[i + 1]) + room > n + layout.min;
        && (room >= n ==>
          p == Some(ptr) && RoomIs(layout, blocks, ptr, n, if n + layout.header + layout.min >= room then room + 1 else n + 1))
        && (grows ==> p == Some(ptr) && RoomIs(layout, blocks, ptr, n, n + 1))
        && (room < n && !grows ==> (p == None <==> n >= old(available) || NothingFits(layout, bs, n)))
        && (room < n && !grows && p.Some? ==> RoomIs(layout, blocks, p.value, n, n + layout.header + layout.min))
    {
      hide Chained, FreeChained, Listed, Tiles, FreeRooms, Carved, Released, Shrunk, Grown, AfterTake, Merged, Rounded;
      hide Owner, Given, RoomIs, OthersSurvive, Carried, NothingFits, Peaks;
      ChainedTiles();
      ghost var l, end, bs, was := layout, End(), blocks, bytes;
      NothingMoved(l, bs, was, end, ptr);
      OwnerIs(l, bs, ptr);
      ghost var i := Owner(l, bs, ptr);
      Order(l, bs, end, i, i);
      var header := ptr - layout.header;
      NextIs(header, i);
      NextMark(i);
      var oldsize := next[header] - header - layout.header;
      if newsize > oldsize {
        var next_ptr := next[header];
        if !used[next_ptr] {
          Order(l, bs, end, i, i + 1);
          NextIs(next_ptr, i + 1);
          var nextsize := next[next_ptr] - next_ptr - layout.header;
          if nextsize + oldsize > newsize + layout.min {
            Grow(header, newsize, i);
            GrownKeeps(l, bs, was, end, i, newsize);
            return Some(ptr);
          }
        }
        p := Move(ptr, newsize);
        return;
      }
      if newsize + layout.header + layout.min >= oldsize {
        SameKeeps(l, bs, was, i, newsize);
        return Some(ptr);
      }
      Shrink(header, newsize, i);
      ShrunkKeeps(l, bs, was, end, i, newsize);
      SameKeeps(l, bs, was, i, newsize);
      p := Some(ptr);
    }

    lemma {:induction false} NextMark(i: nat)
      requires Fixed() && Chained() && i < |blocks|
      ensures blocks[i].next in used && (used[blocks[i].next] <==> i + 1 == |blocks| || blocks[i + 1].used)
    {
      Order(layout, blocks, End(), i, i);
      MarksAt(used, blocks, End(), i + 1);
    }

    lemma {:induction false} NextIs(header: nat, i: nat)
      requires Fixed() && Chained() && i < |blocks| && blocks[i].start == header
      ensures header in next && next[header] == blocks[i].next
    {
      LinksAt(layout, next, prev, blocks, End(), i);
    }
  }

  // The free list without `out`.
  ghost predicate ListedBut(bs: seq<Block>, free: seq<nat>, out: nat) {
    NoDuplicates(free) && forall x: nat :: x in free <==> IsFree(bs, x) && x != out
  }

  lemma {:induction false} MarkListed(l: Layout, bs: seq<Block>, end: nat, free: seq<nat>, i: nat)
    requires Sound(l) && Tiles(l, bs, end) && Listed(bs, free) && i < |bs| && bs[i].used
    ensures ListedBut(bs[i := bs[i].(used := false)], free, bs[i].start)
  {
    hide Tiles, IsFree;
    IsFreeAt(l, bs, end, i);
    forall x: nat ensures x in free <==> IsFree(bs[i := bs[i].(used := false)], x) && x != bs[i].start {
      MarkedFree(l, bs, end, i, false, x);
    }
  }

  // Block i + 1, the one not listed, is taken in by block i.
  lemma {:induction false} FusedListed(l: Layout, bs: seq<Block>, end: nat, free: seq<nat>, i: nat, out: nat, none: nat)
    requires Sound(l) && Tiles(l, bs, end) && i + 1 < |bs| && !bs[i].used && !bs[i + 1].used
    requires out == bs[i + 1].start && ListedBut(bs, free, out) && end < none
    ensures ListedBut(Fused(bs, i, false), free, none)
  {
    hide Tiles, IsFree, Fused;
    forall x: nat ensures x in free <==> IsFree(Fused(bs, i, false), x) && x != none {
      FusedFree(l, bs, end, i, false, x);
      NotFree(l, bs, end, none);
    }
  }

  lemma {:induction false} NotFree(l: Layout, bs: seq<Block>, end: nat, x: nat)
    requires Sound(l) && Tiles(l, bs, end) && end <= x
    ensures !IsFree(bs, x)
  {
    hide Tiles;
    forall i | 0 <= i < |bs| ensures !FreeAt(bs[i], x) { Order(l, bs, end, i, i); }
  }

  ghost function ListedIndex(l: Layout, bs: seq<Block>, end: nat, free: seq<nat>, out: nat, i: nat): (k: nat)
    requires Sound(l) && Tiles(l, bs, end) && i + 1 < |bs| && !bs[i + 1].used
    requires ListedBut(bs, free, out) && (out == bs[i].start || out > end)
    ensures k < |free| && free[k] == bs[i + 1].start
  {
    IsFreeAt(l, bs, end, i + 1);
    Order(l, bs, end, i, i + 1);
    assert bs[i + 1].start in free;
    var k :| 0 <= k < |free| && free[k] == bs[i + 1].start;
    k
  }

  // Block i takes in block i + 1, which leaves the list.
  lemma {:induction false} TakeListedBut(l: Layout, bs: seq<Block>, end: nat, free: seq<nat>, i: nat, k: nat, out: nat)
    requires Sound(l) && Tiles(l, bs, end) && i + 1 < |bs| && !bs[i + 1].used
    requires ListedBut(bs, free, out) && k < |free| && free[k] == bs[i + 1].start
    ensures ListedBut(Fused(bs, i, bs[i].used), Delete(free, k), out)
  {
    hide Tiles, IsFree, Fused;
    DeleteMembers(free, k);
    forall x: nat ensures x in Delete(free, k) <==> IsFree(Fused(bs, i, bs[i].used), x) && x != out {
      FusedFree(l, bs, end, i, bs[i].used, x);
    }
  }

  lemma {:induction false} PutListed(l: Layout, bs: seq<Block>, end: nat, free: seq<nat>, x: nat)
    requires Sound(l) && Tiles(l, bs, end) && ListedBut(bs, free, x) && IsFree(bs, x)
    ensures x !in free && x < end && Listed(bs, [x] + free)
  {
    hide Tiles, IsFree;
    InsertMembers(free, 0, x);
    assert Insert(free, 0, x) == [x] + free;
    if x >= end { NotFree(l, bs, end, x); }
  }

  lemma {:induction false} ListedAll(l: Layout, bs: seq<Block>, end: nat, free: seq<nat>, none: nat)
    requires Sound(l) && Tiles(l, bs, end) && ListedBut(bs, free, none) && end < none
    ensures Listed(bs, free)
  {
    NotFree(l, bs, end, none);
  }

  lemma {:induction false} FusedIsJoined(bs: seq<Block>, i: nat)
    requires i + 1 < |bs|
    ensures Fused(bs, i, false) == Joined(bs, i)
  {
  }

  // Block i takes `size` bytes; the rest of the free block after it stays free.
  function Grown(l: Layout, bs: seq<Block>, i: nat, size: nat): seq<Block>
    requires i + 1 < |bs|
  {
    FusedAt(bs, i, true);
    Split(Fused(bs, i, true), i, bs[i].start + l.header + size)
  }

  lemma {:induction false} GrownValid(l: Layout, bs: seq<Block>, end: nat, i: nat, size: nat)
    requires Valid(l, bs, end) && i + 1 < |bs| && bs[i].used && !bs[i + 1].used
    requires Room(l, bs[i]) < size && Room(l, bs[i + 1]) + Room(l, bs[i]) >= size
    ensures Valid(l, Grown(l, bs, i, size), end)
    ensures FreeRooms(l, Grown(l, bs, i, size)) == FreeRooms(l, bs) - (size - Room(l, bs[i]))
  {
    hide Fused, Split, Tiles, FreeRooms;
    var cut := bs[i].start + l.header + size;
    Order(l, bs, end, i, i + 1);
    FusedAt(bs, i, true);
    FusedTiles(l, bs, end, i, true);
    FusedRooms(l, bs, i, true);
    SplitAt(Fused(bs, i, true), i, cut);
    Below(l, bs, end, i);
    SplitTiles(l, Fused(bs, i, true), end, i, cut);
    SplitRooms(l, Fused(bs, i, true), i, cut);
  }

  lemma {:induction false} ListedBelow(l: Layout, bs: seq<Block>, end: nat, free: seq<nat>, none: nat)
    requires Sound(l) && Tiles(l, bs, end) && Listed(bs, free) && end < none
    ensures ListedBut(bs, free, none)
  {
    NotFree(l, bs, end, none);
  }

  lemma {:induction false} GrownListed(l: Layout, bs: seq<Block>, end: nat, free: seq<nat>, i: nat, k: nat, size: nat, none: nat)
    requires Sound(l) && Tiles(l, bs, end) && Listed(bs, free) && end < none && k < |free|
    requires i + 1 < |bs| && bs[i].used && !bs[i + 1].used && free[k] == bs[i + 1].start
    requires Room(l, bs[i]) < size && Room(l, bs[i + 1]) + Room(l, bs[i]) >= size
    ensures var cut := bs[i].start + l.header + size;
      cut !in Delete(free, k) && cut < end && Listed(Grown(l, bs, i, size), [cut] + Delete(free, k))
  {
    hide Tiles, IsFree, Fused, Split;
    var cut := bs[i].start + l.header + size;
    var bs1 := Fused(bs, i, true);
    var rest := Delete(free, k);
    Order(l, bs, end, i, i + 1);
    ListedBelow(l, bs, end, free, none);
    TakeListedBut(l, bs, end, free, i, k, none);
    FusedAt(bs, i, true);
    FusedTiles(l, bs, end, i, true);
    CutIsNew(l, bs1, end, i, cut);
    InsertMembers(rest, 0, cut);
    assert Insert(rest, 0, cut) == [cut] + rest;
    IsFreeAt(l, bs1, end, i);
    NotFree(l, bs1, end, none);
    forall x: nat ensures x in [cut] + rest <==> IsFree(Split(bs1, i, cut), x) { SplitFree(l, bs1, end, i, cut, x); }
  }

  lemma {:induction false} CutListed(l: Layout, bs: seq<Block>, end: nat, free: seq<nat>, i: nat, cut: nat)
    requires Sound(l) && Tiles(l, bs, end) && Listed(bs, free) && i < |bs| && bs[i].used && bs[i].start < cut < bs[i].next
    ensures ListedBut(Split(bs, i, cut), free, cut)
  {
    hide Tiles, IsFree, Split;
    CutIsNew(l, bs, end, i, cut);
    IsFreeAt(l, bs, end, i);
    forall x: nat ensures x in free <==> IsFree(Split(bs, i, cut), x) && x != cut { SplitFree(l, bs, end, i, cut, x); }
  }

  lemma {:induction false} FreeHas(bs: seq<Block>, i: nat, x: nat)
    requires i < |bs| && FreeAt(bs[i], x)
    ensures IsFree(bs, x)
  {
  }

  // After a cut in a used block there is nothing free before the new block.
  lemma {:induction false} PluggedSplit(l: Layout, bs: seq<Block>, i: nat, size: nat)
    requires i < |bs|
    ensures var bs1 := Split(bs, i, bs[i].start + l.header + size);
      && |bs1| == |bs| + 1
      && Shrunk(l, bs, i, size) == if i + 2 < |bs1| && !bs1[i + 2].used then Joined(bs1, i + 1) else bs1
    ensures var r := Shrunk(l, bs, i, size); i + 1 < |r| && FreeAt(r[i + 1], bs[i].start + l.header + size)
  {
    hide Split, Joined;
    var cut := bs[i].start + l.header + size;
    SplitPoint(bs, i, cut, i);
    SplitPoint(bs, i, cut, i + 1);
    var bs1 := Split(bs, i, cut);
    if i + 2 < |bs1| && !bs1[i + 2].used {
      JoinedPoint(bs1, i + 1, i);
      JoinedPoint(bs1, i + 1, i + 1);
    }
  }

  // Giving bytes back makes more bytes available.
  lemma {:induction false} ShrunkRooms(l: Layout, bs: seq<Block>, end: nat, i: nat, size: nat)
    requires Sound(l) && Tiles(l, bs, end) && i < |bs| && bs[i].used && size + l.header <= Room(l, bs[i])
    ensures FreeRooms(l, Shrunk(l, bs, i, size)) >= FreeRooms(l, bs)
  {
    hide Split, Joined, Tiles, FreeRooms;
    var cut := bs[i].start + l.header + size;
    var bs1 := Split(bs, i, cut);
    SplitRooms(l, bs, i, cut);
    SplitPoint(bs, i, cut, i);
    SplitPoint(bs, i, cut, i + 1);
    PluggedSplit(l, bs, i, size);
    Order(l, bs, end, i, i);
    Below(l, bs, end, i);
    SplitTiles(l, bs, end, i, cut);
    if i + 2 < |bs1| && !bs1[i + 2].used {
      Order(l, bs1, end, i + 1, i + 2);
      FusedRooms(l, bs1, i + 1, false);
      FusedIsJoined(bs1, i + 1);
    }
  }

  // The condition under which a block grows in place.
  ghost predicate GrowsInPlace(l: Layout, bs: seq<Block>, p: nat, size: nat) {
    var i := Owner(l, bs, p);
    && i + 1 < |bs| && !bs[i + 1].used
    && Room(l, bs[i]) < size && Room(l, bs[i + 1]) + Room(l, bs[i]) > size + l.min
  }

  lemma {:induction false} RoundedTwice(l: Layout, size: nat)
    requires Sound(l) && l.min % l.align == 0
    ensures Rounded(l, Rounded(l, size)) == Rounded(l, size) && Rounded(l, size) % l.align == 0 && Rounded(l, size) > 0
  {
    AlignedUp(size, l.align);
    AlignedUp(Rounded(l, size), l.align);
  }

  lemma {:induction false} GrownPoint(l: Layout, bs: seq<Block>, i: nat, size: nat, k: nat)
    requires i + 1 < |bs| && k < |bs| && k != i && k != i + 1
    ensures |Grown(l, bs, i, size)| == |bs| && Grown(l, bs, i, size)[k] == bs[k]
    ensures Grown(l, bs, i, size)[i] == Block(bs[i].start, bs[i].start + l.header + size, true)
  {
    hide Fused, Split;
    FusedAt(bs, i, true);
    SplitPoint(Fused(bs, i, true), i, bs[i].start + l.header + size, k);
    SplitPoint(Fused(bs, i, true), i, bs[i].start + l.header + size, i);
  }

  lemma {:induction false} GrownKeeps(l: Layout, bs: seq<Block>, was: seq<bv8>, end: nat, i: nat, size: nat)
    requires Valid(l, bs, end) && i + 1 < |bs| && bs[i].used && !bs[i + 1].used && |was| == end
    requires Room(l, bs[i]) < size && Room(l, bs[i + 1]) + Room(l, bs[i]) >= size
    ensures OthersSurvive(l, bs, was, Grown(l, bs, i, size), was, Some(bs[i].start + l.header))
    ensures Given(l, Grown(l, bs, i, size), bs[i].start + l.header, size)
    ensures RoomIs(l, Grown(l, bs, i, size), bs[i].start + l.header, size, size + 1)
    ensures Owner(l, bs, bs[i].start + l.header) == i
    ensures Carried(l, bs, was, bs[i].start + l.header, was, bs[i].start + l.header, size)
  {
    hide Tiles, Fused, Split, Merged, Owner, FreeRooms, Grown;
    Below(l, bs, end, i);
    GrownValid(l, bs, end, i, size);
    GrownHas(l, bs, i, size);
    OwnerOf(l, Grown(l, bs, i, size), end, Block(bs[i].start, bs[i].start + l.header + size, true));
    OwnerOf(l, bs, end, bs[i]);
    Order(l, bs, end, i, Owner(l, bs, bs[i].start + l.header));
    forall x | x in bs && x.used && x.start != bs[i].start ensures Survives(l, was, Grown(l, bs, i, size), was, x) {
      ApartBlocks(l, bs, end, x, x);
      var k :| 0 <= k < |bs| && bs[k] == x;
      GrownPoint(l, bs, i, size, k);
    }
  }

  lemma {:induction false} GrownHas(l: Layout, bs: seq<Block>, i: nat, size: nat)
    requires i + 1 < |bs|
    ensures Block(bs[i].start, bs[i].start + l.header + size, true) in Grown(l, bs, i, size)
  {
    hide Fused, Split;
    FusedAt(bs, i, true);
    SplitPoint(Fused(bs, i, true), i, bs[i].start + l.header + size, i);
  }

  lemma {:induction false} SameKeeps(l: Layout, bs: seq<Block>, was: seq<bv8>, i: nat, size: nat)
    requires i < |bs| && bs[i].used && Owner(l, bs, bs[i].start + l.header) == i && 0 <= size <= Room(l, bs[i]) && bs[i].next <= |was|
    ensures Given(l, bs, bs[i].start + l.header, size) && RoomIs(l, bs, bs[i].start + l.header, size, Room(l, bs[i]) + 1)
    ensures Carried(l, bs, was, bs[i].start + l.header, was, bs[i].start + l.header, size)
  {
  }

  // Where the block being freed is after the left merge.
  lemma {:induction false} MidBlock(bs: seq<Block>, i: nat)
    requires i < |bs| && !bs[i].used
    ensures i > 0 && !bs[i - 1].used ==> |Joined(bs, i - 1)| == |bs| - 1
    ensures i > 0 && !bs[i - 1].used ==> Joined(bs, i - 1)[i - 1] == Block(bs[i - 1].start, bs[i].next, false)
  {
    if i > 0 && !bs[i - 1].used { JoinedAt(bs, i - 1); }
  }

  // With no free block before it, the freed block keeps its header.
  lemma {:induction false} PluggedHas(bs: seq<Block>, i: nat)
    requires i < |bs| && !bs[i].used && (i == 0 || bs[i - 1].used)
    ensures IsFree(Plugged(bs, i), bs[i].start)
  {
    hide Joined;
    if i + 1 < |bs| && !bs[i + 1].used { JoinedAt(bs, i); }
    assert FreeAt(Plugged(bs, i)[i], bs[i].start);
  }

  // Freeing makes more bytes available.
  lemma {:induction false} ReleasedRooms(l: Layout, bs: seq<Block>, end: nat, i: nat)
    requires Sound(l) && Tiles(l, bs, end) && i < |bs| && bs[i].used
    ensures FreeRooms(l, Released(bs, i)) >= FreeRooms(l, bs) + Room(l, bs[i])
  {
    hide Joined;
    var bs1 := bs[i := bs[i].(used := false)];
    MarkedRooms(l, bs, i, false);
    Order(l, bs, end, i, i);
    Below(l, bs, end, i);
    var bs2 := if i + 1 < |bs1| && !bs1[i + 1].used then Joined(bs1, i) else bs1;
    if i + 1 < |bs1| && !bs1[i + 1].used {
      FusedRooms(l, bs1, i, false);
      FusedIsJoined(bs1, i);
      JoinedAt(bs1, i);
      Order(l, bs, end, i, i + 1);
    }
    if i > 0 && !bs2[i - 1].used {
      FusedRooms(l, bs2, i - 1, false);
      FusedIsJoined(bs2, i - 1);
      Order(l, bs, end, i - 1, i);
    }
  }

  // Merging left first and then right gives what plugging the hole right first gives.
  lemma {:induction false} MergeOrder(bs: seq<Block>, i: nat)
    requires i < |bs| && !bs[i].used
    ensures var left := i > 0 && !bs[i - 1].used; var bs1 := if left then Joined(bs, i - 1) else bs; var j := if left then i - 1 else i;
      j < |bs1| && Plugged(bs, i) == if j + 1 < |bs1| && !bs1[j + 1].used then Joined(bs1, j) else bs1
  {
    hide Joined;
    var left := i > 0 && !bs[i - 1].used;
    var right := i + 1 < |bs| && !bs[i + 1].used;
    if left { JoinedAt(bs, i - 1); }
    if right { JoinedAt(bs, i); }
    if left && right {
      var a := Joined(Joined(bs, i), i - 1);
      var b := Joined(Joined(bs, i - 1), i - 1);
      JoinedAt(Joined(bs, i), i - 1);
      JoinedAt(Joined(bs, i - 1), i - 1);
      assert |a| == |b| && forall k :: 0 <= k < |a| ==> a[k] == b[k];
    }
  }

  // The search finds a block that fits if there is one.
  lemma {:induction false} FoundFits(l: Layout, bs: seq<Block>, end: nat, free: seq<nat>, r: nat)
    requires Sound(l) && Tiles(l, bs, end) && Listed(bs, free)
    ensures var k := FirstListed(l, bs, free, r, 0);
      if k < |free| then
        var i := IndexOf(bs, free[k]);
        i < |bs| && bs[i].start == free[k] && Fits(l, bs[i], r) && !NothingFits(l, bs, r)
      else NothingFits(l, bs, r)
  {
    hide Tiles, Listed;
    var k := FirstListed(l, bs, free, r, 0);
    FirstListedStops(l, bs, free, r, 0);
    if k < |free| {
      assert free[k] in free;
      FreeIndex(l, bs, end, free, free[k]);
      SomethingFits(l, bs, r, IndexOf(bs, free[k]));
    } else {
      NoneListed(l, bs, end, free, r);
    }
  }

  lemma {:induction false} FirstListedStops(l: Layout, bs: seq<Block>, free: seq<nat>, size: nat, k: nat)
    requires k <= |free|
    ensures var r := FirstListed(l, bs, free, size, k);
      (r < |free| ==> RoomAt(l, bs, free[r]) >= size) && forall j :: k <= j < r ==> RoomAt(l, bs, free[j]) < size
    decreases |free| - k
  {
    if k < |free| && RoomAt(l, bs, free[k]) < size { FirstListedStops(l, bs, free, size, k + 1); }
  }

  lemma {:induction false} HeadApart(l: Layout, bs: seq<Block>, end: nat, free: seq<nat>, head: nat)
    requires Sound(l) && Tiles(l, bs, end) && Listed(bs, free) && end < head
    ensures forall j :: 0 <= j < |free| ==> free[j] != head
  {
    hide Tiles, Listed;
    forall j | 0 <= j < |free| ensures free[j] != head {
      assert free[j] in free;
      FreeBelow(l, bs, end, free, free[j]);
    }
  }

  function Most(a: int, b: int): int { if a > b then a else b }

  ghost function Highest(levels: seq<int>): int
    requires levels != []
  {
    var last := |levels| - 1;
    if last == 0 then levels[0] else Most(Highest(levels[..last]), levels[last])
  }

  // Highest is one of the levels, and none is above it.
  lemma {:induction false} HighestIs(levels: seq<int>)
    requires levels != []
    ensures Highest(levels) in levels
    ensures forall i :: 0 <= i < |levels| ==> levels[i] <= Highest(levels)
  {
    var last := |levels| - 1;
    if last > 0 {
      HighestIs(levels[..last]);
      assert forall i :: 0 <= i < last ==> levels[..last][i] == levels[i];
    }
  }

  lemma {:induction false} HighestStep(levels: seq<int>, level: int)
    requires levels != []
    ensures Highest(levels + [level]) == Most(Highest(levels), level)
  {
    assert (levels + [level])[..|levels|] == levels;
  }

  function AfterTake(l: Layout, bs: seq<Block>, free: seq<nat>, k: nat, i: nat, r: nat): seq<nat>
    requires k < |free| && i < |bs|
  {
    (if Room(l, bs[i]) >= r + l.header + l.min then [bs[i].start + l.header + r] else []) + Delete(free, k)
  }

  // p is the data of the first listed block with room, carved; a remainder heads the free list.
  ghost predicate Taken(l: Layout, bs: seq<Block>, free: seq<nat>, r: nat, p: nat, bs1: seq<Block>, free1: seq<nat>) {
    var k := FirstListed(l, bs, free, r, 0);
    && k < |free|
    && var i := IndexOf(bs, free[k]);
      && i < |bs| && p == bs[i].start + l.header && Fits(l, bs[i], r)
      && bs1 == Carved(l, bs, i, r) && free1 == AfterTake(l, bs, free, k, i, r)
  }

  // The high-water mark after a move: it counts the moment when both blocks are in use.
  ghost predicate Peaks(l: Layout, poolSize: nat, bs: seq<Block>, free: seq<nat>, r: nat, before: int, now: int) {
    var k := FirstListed(l, bs, free, r, 0);
    && k < |free| && IndexOf(bs, free[k]) < |bs|
    && now == Most(before, poolSize - FreeRooms(l, Carved(l, bs, IndexOf(bs, free[k]), r)))
  }

  lemma {:induction false} PositiveRound(l: Layout, r: nat)
    requires Sound(l) && r >= l.min
    ensures r > 0
  {
  }

  lemma {:induction false} ListHeader(l: Layout, bs: seq<Block>, end: nat, free: seq<nat>, head: nat, ring: seq<nat>, k: nat, x: nat)
    requires Sound(l) && Tiles(l, bs, end) && Listed(bs, free) && ring == [head] + free && k < |free| && x == free[k]
    ensures ring[k + 1] == x
    ensures var i := IndexOf(bs, x); i < |bs| && bs[i].start == x && !bs[i].used && RoomAt(l, bs, x) == Room(l, bs[i])
  {
    hide Tiles, Listed;
    assert x in free;
    FreeIndex(l, bs, end, free, x);
  }

  // If no listed block has room, no free block has.
  lemma {:induction false} NoneListed(l: Layout, bs: seq<Block>, end: nat, free: seq<nat>, r: nat)
    requires Sound(l) && Tiles(l, bs, end) && Listed(bs, free)
    requires forall j :: 0 <= j < |free| ==> RoomAt(l, bs, free[j]) < r
    ensures NothingFits(l, bs, r)
  {
    hide Tiles, Listed;
    forall i | 0 <= i < |bs| ensures !Fits(l, bs[i], r) {
      ListedFree(l, bs, end, free, i);
      if !bs[i].used {
        var j :| 0 <= j < |free| && free[j] == bs[i].start;
        assert RoomAt(l, bs, free[j]) == Room(l, bs[i]);
      }
    }
  }

  lemma {:induction false} CutNotListed(l: Layout, bs: seq<Block>, end: nat, free: seq<nat>, k: nat, i: nat, cut: nat)
    requires Sound(l) && Tiles(l, bs, end) && Listed(bs, free) && k < |free| && i < |bs| && bs[i].start < cut < bs[i].next
    ensures cut !in Delete(free, k) && cut < end
  {
    hide Tiles;
    CutIsNew(l, bs, end, i, cut);
    Order(l, bs, end, i, i);
    assert cut !in free;
  }

  lemma {:induction false} TakeListed(l: Layout, bs: seq<Block>, end: nat, free: seq<nat>, k: nat, i: nat, r: nat)
    requires Sound(l) && Tiles(l, bs, end) && Listed(bs, free) && k < |free| && i < |bs| && free[k] == bs[i].start
    requires Fits(l, bs[i], r)
    ensures Listed(Carved(l, bs, i, r), AfterTake(l, bs, free, k, i, r))
  {
    hide Tiles, Split, IsFree;
    var cut := bs[i].start + l.header + r;
    DeleteMembers(free, k);
    var rest := Delete(free, k);
    if Room(l, bs[i]) >= r + l.header + l.min {
      CutNotListed(l, bs, end, free, k, i, cut);
      InsertMembers(rest, 0, cut);
      assert Insert(rest, 0, cut) == [cut] + rest;
      forall x: nat ensures x in [cut] + rest <==> IsFree(Split(bs, i, cut), x) { SplitFree(l, bs, end, i, cut, x); }
    } else {
      assert [] + rest == rest;
      forall x: nat ensures x in rest <==> IsFree(bs[i := bs[i].(used := true)], x) { MarkedFree(l, bs, end, i, true, x); }
    }
  }

  // A free block that fits is refused only when the request is all that is available.
  lemma {:induction false} RoomsBound(l: Layout, bs: seq<Block>, i: nat)
    requires i < |bs| && !bs[i].used && forall k :: 0 <= k < |bs| ==> Room(l, bs[k]) >= 0
    ensures FreeRooms(l, bs) >= Room(l, bs[i])
  {
    RoomsNatural(l, bs[1..]);
    if i > 0 { RoomsBound(l, bs[1..], i - 1); }
  }

  lemma {:induction false} RoomsNatural(l: Layout, bs: seq<Block>)
    requires forall k :: 0 <= k < |bs| ==> Room(l, bs[k]) >= 0
    ensures FreeRooms(l, bs) >= 0
  {
    if bs != [] { RoomsNatural(l, bs[1..]); }
  }

  // A fresh heap asked for all the bytes it offers refuses, although its one block holds them.
  method AllRefused(layout: Layout, poolSize: nat, request: nat) returns (h: MemHeap, p: Option<nat>)
    requires Sound(layout) && poolSize >= 2 * layout.header && poolSize % layout.align == 0 && layout.min % layout.align == 0
    requires Rounded(layout, request) == poolSize - 2 * layout.header
    ensures fresh(h) && h.Valid() && p == None
    ensures h.blocks == [Block(0, poolSize - layout.header, false)] && Fits(layout, h.blocks[0], Rounded(layout, request))
  {
    hide Rounded, MemHeap.Valid;
    h := new MemHeap(layout, poolSize);
    p := h.Alloc(request);
  }

  // Such a heap: 96 bytes between two headers of 16.
  method RefusedExample() returns (p: Option<nat>)
    ensures p == None
  {
    var layout := Layout(16, 16, 8);
    assert AlignUp(96, 8) == 96;
    var h;
    h, p := AllRefused(layout, 128, 96);
  }

  // An allocation takes at least the bytes asked for from what is available.
  lemma {:induction false} CarvedRooms(l: Layout, bs: seq<Block>, end: nat, i: nat, r: nat)
    requires Valid(l, bs, end) && i < |bs| && Fits(l, bs[i], r)
    ensures FreeRooms(l, Carved(l, bs, i, r)) <= FreeRooms(l, bs) - r
  {
    hide Split;
    if Room(l, bs[i]) >= r + l.header + l.min {
      SplitRooms(l, bs, i, bs[i].start + l.header + r);
    } else {
      MarkedRooms(l, bs, i, true);
    }
  }

  // Why Alloc's first test matters: it refuses a request that some free block could hold if and only if
  // the request is exactly what is available, all of it in that one block.
  lemma {:induction false} RefusedThoughItFits(l: Layout, bs: seq<Block>, end: nat, r: nat)
    requires Valid(l, bs, end) && !NothingFits(l, bs, r)
    ensures r >= FreeRooms(l, bs) <==> r == FreeRooms(l, bs)
  {
    var i :| 0 <= i < |bs| && !(bs[i].used || Room(l, bs[i]) < r);
    RoomsBound(l, bs, i);
  }

  lemma {:induction false} DifferenceOnGrid(x: nat, y: nat, a: nat)
    requires a > 0 && x % a == 0 && y % a == 0 && y <= x
    ensures (x - y) % a == 0
  {
    var q := x / a - y / a;
    assert x == x / a * a && y == y / a * a;
    assert q * a == x - y;
    Multiples(q, a);
    MultipleIs(if q >= 0 then q else 0, a);
  }
}
