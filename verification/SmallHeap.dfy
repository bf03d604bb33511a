/** The heap itself: headers at offsets, linked both ways, with `lfree` kept at the lowest free block. */
module SmallHeaps {
  import opened Arithmetic
  import opened Memory
  import opened Options
  import opened SmallHeapModel

  // struct rt_small_mem_item
  datatype Item = Item(used: bool, next: nat, prev: nat)

  // Every header lies on a multiple of the alignment.
  ghost predicate OnGrid(l: Layout, bs: seq<Block>)
    requires l.align > 0
  {
    forall i :: 0 <= i < |bs| ==> bs[i].start % l.align == 0 && bs[i].next % l.align == 0
  }

  function HeaderOf(bs: seq<Block>, i: nat): Item
    requires i < |bs|
  {
    Item(bs[i].used, bs[i].next, if i == 0 then 0 else bs[i - 1].start)
  }

  // The headers say what the blocks are. The sentinel's `prev` and stale headers do not matter.
  ghost predicate Linked(items: map<nat, Item>, bs: seq<Block>, end: nat) {
    && (forall i :: 0 <= i < |bs| ==> bs[i].start in items && items[bs[i].start] == HeaderOf(bs, i))
    && end in items && items[end].used && items[end].next == end
  }

  // The block whose user data starts at p, or how many blocks there are.
  function Owner(l: Layout, bs: seq<Block>, p: nat): nat {
    if bs == [] || bs[0].start + l.header == p then 0 else 1 + Owner(l, bs[1..], p)
  }

  predicate Live(l: Layout, bs: seq<Block>, p: nat) {
    Owner(l, bs, p) < |bs| && bs[Owner(l, bs, p)].used
  }

  lemma {:induction false} OwnerIs(l: Layout, bs: seq<Block>, p: nat)
    ensures Owner(l, bs, p) <= |bs|
    ensures Owner(l, bs, p) < |bs| ==> bs[Owner(l, bs, p)].start + l.header == p
  {
    if bs != [] && bs[0].start + l.header != p { OwnerIs(l, bs[1..], p); }
  }

  lemma {:induction false} SplitOnGrid(l: Layout, bs: seq<Block>, i: nat, cut: nat)
    requires l.align > 0 && OnGrid(l, bs) && i < |bs| && cut % l.align == 0
    ensures OnGrid(l, Split(bs, i, cut))
  {
    hide Split;
    SplitAt(bs, i, cut);
  }

  lemma {:induction false} JoinedOnGrid(l: Layout, bs: seq<Block>, i: nat)
    requires l.align > 0 && OnGrid(l, bs) && i + 1 < |bs|
    ensures OnGrid(l, Joined(bs, i))
  {
    hide Joined;
    JoinedAt(bs, i);
  }

  lemma {:induction false} LinkedAt(items: map<nat, Item>, bs: seq<Block>, end: nat, k: nat)
    requires Linked(items, bs, end)
    ensures k < |bs| ==> bs[k].start in items && items[bs[k].start] == HeaderOf(bs, k)
    ensures end in items && items[end].used && items[end].next == end
  {
  }

  // Where block j lies as seen from block i.
  lemma {:induction false} Order(l: Layout, bs: seq<Block>, end: nat, i: nat, j: nat)
    requires Sound(l) && Tiles(l, bs, end) && i < |bs| && j < |bs|
    ensures j < i ==> bs[j].start < bs[j].next <= bs[i].start
    ensures i < j ==> bs[i].start < bs[i].next <= bs[j].start
    ensures bs[i].start < bs[i].next <= end
    ensures bs[i].next == Start(bs, end, i + 1)
    ensures i + 1 < j ==> bs[i].next < bs[j].start
    ensures bs[j].start < bs[j].next <= end
    ensures bs[0].start == 0
  {
    Below(l, bs, end, i);
    Below(l, bs, end, j);
    if j < i { Increasing(l, bs, end, j, i); }
    if i < j { Increasing(l, bs, end, i, j); }
    if i + 1 < j { Increasing(l, bs, end, i + 1, j); }
  }

  // The headers after two blocks have been joined.
  function JoinLinks(items: map<nat, Item>, mem: nat, nn: nat): map<nat, Item>
    requires mem in items
  {
    var items1 := items[mem := items[mem].(next := nn)];
    if nn in items1 then items1[nn := items1[nn].(prev := mem)] else items1
  }

  lemma {:induction false} JoinHeader(l: Layout, items: map<nat, Item>, bs: seq<Block>, end: nat, i: nat, k: nat)
    requires Sound(l) && Tiles(l, bs, end) && Linked(items, bs, end) && i + 1 < |bs| && !bs[i].used && k < |bs| - 1
    ensures bs[i].start in items && |Joined(bs, i)| == |bs| - 1
    ensures var r := Joined(bs, i); var items1 := JoinLinks(items, bs[i].start, bs[i + 1].next);
      r[k].start in items1 && items1[r[k].start] == HeaderOf(r, k)
  {
    hide Tiles, Linked, Joined;
    JoinedPoint(bs, i, k);
    if k > 0 { JoinedPoint(bs, i, k - 1); }
    var j := if k <= i then k else k + 1;
    Order(l, bs, end, i, j);
    Order(l, bs, end, i + 1, j);
    LinkedAt(items, bs, end, i);
    LinkedAt(items, bs, end, j);
  }

  // The sentinel keeps its mark and its own `next`.
  lemma {:induction false} JoinEnd(l: Layout, items: map<nat, Item>, bs: seq<Block>, end: nat, i: nat)
    requires Sound(l) && Tiles(l, bs, end) && Linked(items, bs, end) && i + 1 < |bs|
    ensures bs[i].start in items
    ensures var items1 := JoinLinks(items, bs[i].start, bs[i + 1].next);
      end in items1 && items1[end].used && items1[end].next == end
  {
    hide Tiles, Linked;
    Order(l, bs, end, i, i + 1);
    LinkedAt(items, bs, end, i);
  }

  lemma {:induction false} CutEnd(l: Layout, items: map<nat, Item>, bs: seq<Block>, end: nat, i: nat, cut: nat)
    requires Sound(l) && Tiles(l, bs, end) && Linked(items, bs, end) && i < |bs| && bs[i].start < cut < bs[i].next
    ensures bs[i].start in items
    ensures var items1 := CutLinks(items, bs[i].start, cut, end);
      end in items1 && items1[end].used && items1[end].next == end
  {
    hide Tiles, Linked;
    Order(l, bs, end, i, i);
    LinkedAt(items, bs, end, i);
  }

  lemma {:induction false} JoinLinked(l: Layout, items: map<nat, Item>, bs: seq<Block>, end: nat, i: nat)
    requires Sound(l) && Tiles(l, bs, end) && Linked(items, bs, end) && i + 1 < |bs| && !bs[i].used
    ensures bs[i].start in items && bs[i + 1].next in items
    ensures Linked(JoinLinks(items, bs[i].start, bs[i + 1].next), Joined(bs, i), end)
  {
    hide Tiles, Joined, JoinLinks;
    JoinedPoint(bs, i, i);
    Order(l, bs, end, i, i + 1);
    Order(l, bs, end, i + 1, i);
    LinkedAt(items, bs, end, i);
    LinkedAt(items, bs, end, if i + 2 < |bs| then i + 2 else i);
    JoinEnd(l, items, bs, end, i);
    forall k | 0 <= k < |bs| - 1
      ensures var r := Joined(bs, i); var items1 := JoinLinks(items, bs[i].start, bs[i + 1].next);
        r[k].start in items1 && items1[r[k].start] == HeaderOf(r, k)
    {
      JoinHeader(l, items, bs, end, i, k);
    }
  }

  // The headers after block i has been cut.
  function SplitLinks(items: map<nat, Item>, mem: nat, cut: nat, end: nat): map<nat, Item>
    requires mem in items
  {
    var next := items[mem].next;
    var items1 := items[cut := Item(false, next, mem)];
    var items2 := items1[mem := items1[mem].(next := cut)];
    if next != end && next in items2 then items2[next := items2[next].(prev := cut)] else items2
  }

  // The headers after block i has been cut and its first part marked used.
  function CutLinks(items: map<nat, Item>, mem: nat, cut: nat, end: nat): map<nat, Item>
    requires mem in items
  {
    var items1 := SplitLinks(items, mem, cut, end);
    items1[mem := items1[mem].(used := true)]
  }

  lemma {:induction false} SplitHeader(l: Layout, items: map<nat, Item>, bs: seq<Block>, end: nat, i: nat, cut: nat, k: nat)
    requires Sound(l) && Tiles(l, bs, end) && Linked(items, bs, end) && i < |bs| && k <= |bs|
    requires bs[i].start < cut < bs[i].next
    ensures bs[i].start in items && |Split(bs, i, cut)| == |bs| + 1
    ensures var r := Split(bs, i, cut); var items1 := CutLinks(items, bs[i].start, cut, end);
      r[k].start in items1 && items1[r[k].start] == HeaderOf(r, k)
  {
    hide Tiles, Linked, Split;
    SplitPoint(bs, i, cut, k);
    if k > 0 { SplitPoint(bs, i, cut, k - 1); }
    var j := if k <= i then k else k - 1;
    Order(l, bs, end, i, j);
    LinkedAt(items, bs, end, i);
    LinkedAt(items, bs, end, j);
  }

  lemma {:induction false} SplitLinked(l: Layout, items: map<nat, Item>, bs: seq<Block>, end: nat, i: nat, cut: nat)
    requires Sound(l) && Tiles(l, bs, end) && Linked(items, bs, end) && i < |bs|
    requires bs[i].start < cut < bs[i].next
    ensures bs[i].start in items && (bs[i].next != end ==> bs[i].next in items)
    ensures Linked(CutLinks(items, bs[i].start, cut, end), Split(bs, i, cut), end)
  {
    hide Tiles, Split, CutLinks;
    SplitPoint(bs, i, cut, i);
    Order(l, bs, end, i, i);
    LinkedAt(items, bs, end, i);
    LinkedAt(items, bs, end, i + 1);
    CutEnd(l, items, bs, end, i, cut);
    forall k | 0 <= k <= |bs|
      ensures var r := Split(bs, i, cut); var items1 := CutLinks(items, bs[i].start, cut, end);
        r[k].start in items1 && items1[r[k].start] == HeaderOf(r, k)
    {
      SplitHeader(l, items, bs, end, i, cut, k);
    }
  }

  lemma {:induction false} MarkLinked(l: Layout, items: map<nat, Item>, bs: seq<Block>, end: nat, i: nat, used: bool)
    requires Sound(l) && Tiles(l, bs, end) && Linked(items, bs, end) && i < |bs|
    ensures bs[i].start in items
    ensures Linked(items[bs[i].start := items[bs[i].start].(used := used)], bs[i := bs[i].(used := used)], end)
  {
    hide Tiles;
    Order(l, bs, end, i, i);
    var r := bs[i := bs[i].(used := used)];
    var items1 := items[bs[i].start := items[bs[i].start].(used := used)];
    forall k | 0 <= k < |r| ensures r[k].start in items1 && items1[r[k].start] == HeaderOf(r, k) {
      Order(l, bs, end, i, k);
      LinkedAt(items, bs, end, k);
    }
  }

  // Where `lfree` must point after two free blocks are joined: the join moves it only if it pointed at the
  // second of them.
  lemma {:induction false} JoinLowest(l: Layout, bs: seq<Block>, end: nat, i: nat)
    requires Sound(l) && Tiles(l, bs, end) && i + 1 < |bs| && !bs[i].used && !bs[i + 1].used
    ensures Lowest(Joined(bs, i), end) == if Lowest(bs, end) == bs[i + 1].start then bs[i].start else Lowest(bs, end)
  {
    hide Joined, Tiles;
    JoinedAt(bs, i);
    var f := FirstFree(bs);
    FirstFreeIs(bs, f);
    FirstFreeIs(Joined(bs, i), f);
    assert f <= i;
    Order(l, bs, end, i + 1, f);
  }

  // A block that becomes free is the lowest if it lies below the one that was.
  lemma {:induction false} FreeLowest(l: Layout, bs: seq<Block>, end: nat, i: nat)
    requires Sound(l) && Tiles(l, bs, end) && i < |bs| && bs[i].used
    ensures var r := bs[i := bs[i].(used := false)];
      Lowest(r, end) == if bs[i].start < Lowest(bs, end) then bs[i].start else Lowest(bs, end)
  {
    hide Tiles;
    var f := FirstFree(bs);
    var r := bs[i := bs[i].(used := false)];
    FirstFreeIs(bs, f);
    FirstFreeIs(r, if i < f then i else f);
    Order(l, bs, end, i, if f < |bs| then f else i);
  }

  lemma {:induction false} CutLowest(l: Layout, bs: seq<Block>, end: nat, i: nat, cut: nat)
    requires Sound(l) && Tiles(l, bs, end) && i < |bs| && bs[i].used && bs[i].start < cut < bs[i].next
    ensures Lowest(Split(bs, i, cut), end) == if cut < Lowest(bs, end) then cut else Lowest(bs, end)
  {
    hide Tiles, Split;
    SplitAt(bs, i, cut);
    var f := FirstFree(bs);
    FirstFreeIs(bs, f);
    FirstFreeIs(Split(bs, i, cut), if i < f then i + 1 else f);
    Order(l, bs, end, i, if f < |bs| then f else i);
  }

  // A used block other than the one an operation works on stays just as it is.
  lemma {:induction false} JoinedSurvivors(bs: seq<Block>, i: nat, b: Block)
    requires i + 1 < |bs| && !bs[i].used && !bs[i + 1].used && b in bs && b.used
    ensures b in Joined(bs, i)
  {
    var k :| 0 <= k < |bs| && bs[k] == b;
    JoinedPoint(bs, i, if k < i then k else k - 1);
  }

  lemma {:induction false} PluggedSurvivors(bs: seq<Block>, i: nat, b: Block)
    requires i < |bs| && !bs[i].used && b in bs && b.used
    ensures b in Plugged(bs, i)
  {
    hide Joined;
    var bs1 := if i + 1 < |bs| && !bs[i + 1].used then Joined(bs, i) else bs;
    if i + 1 < |bs| && !bs[i + 1].used {
      JoinedSurvivors(bs, i, b);
      JoinedPoint(bs, i, i);
    }
    if i > 0 && !bs1[i - 1].used { JoinedSurvivors(bs1, i - 1, b); }
  }

  lemma {:induction false} SplitSurvivors(bs: seq<Block>, i: nat, cut: nat, b: Block)
    requires i < |bs| && b in bs && b != bs[i]
    ensures b in Split(bs, i, cut)
  {
    var k :| 0 <= k < |bs| && bs[k] == b;
    SplitPoint(bs, i, cut, if k < i then k else k + 1);
  }

  lemma {:induction false} CarvedSurvivors(l: Layout, bs: seq<Block>, i: nat, size: nat, b: Block)
    requires i < |bs| && !bs[i].used && b in bs && b.used
    ensures b in Carved(l, bs, i, size)
  {
    if Room(l, bs[i]) >= size + l.header + l.min {
      SplitSurvivors(bs, i, bs[i].start + l.header + size, b);
    } else {
      var k :| 0 <= k < |bs| && bs[k] == b;
      assert bs[i := bs[i].(used := true)][k] == b;
    }
  }

  lemma {:induction false} ReleasedSurvivors(bs: seq<Block>, i: nat, b: Block)
    requires i < |bs| && b in bs && b.used && b != bs[i]
    ensures b in Released(bs, i)
  {
    var k :| 0 <= k < |bs| && bs[k] == b;
    var bs1 := bs[i := bs[i].(used := false)];
    assert bs1[k] == b;
    PluggedSurvivors(bs1, i, b);
  }

  lemma {:induction false} ShrunkSurvivors(l: Layout, bs: seq<Block>, i: nat, size: nat, b: Block)
    requires i < |bs| && b in bs && b.used && b != bs[i]
    ensures b in Shrunk(l, bs, i, size)
  {
    hide Split, Plugged;
    var cut := bs[i].start + l.header + size;
    SplitSurvivors(bs, i, cut, b);
    SplitPoint(bs, i, cut, i + 1);
    PluggedSurvivors(Split(bs, i, cut), i + 1, b);
  }

  predicate NothingFits(l: Layout, bs: seq<Block>, size: nat) {
    forall i :: 0 <= i < |bs| ==> bs[i].used || Room(l, bs[i]) < size
  }

  lemma {:induction false} SomethingFits(l: Layout, bs: seq<Block>, r: nat, i: nat)
    requires i < |bs| && Fits(l, bs[i], r)
    ensures !NothingFits(l, bs, r)
  {
  }

  lemma {:induction false} NoneFits(l: Layout, bs: seq<Block>, r: nat)
    requires forall i :: 0 <= i < |bs| ==> !Fits(l, bs[i], r)
    ensures NothingFits(l, bs, r)
  {
  }

  // No block that is free and large enough lies below the one whose data is at p.
  ghost predicate LowestFit(l: Layout, bs: seq<Block>, p: nat, size: nat) {
    forall b <- bs :: !b.used && Room(l, b) >= size ==> p <= b.start + l.header
  }

  // The request after rounding: aligned and not below the smallest block.
  function Rounded(l: Layout, size: nat): nat
    requires l.align > 0
  {
    if AlignUp(size, l.align) < l.min then l.min else AlignUp(size, l.align)
  }

  class SmallMem {
    const layout: Layout
    const minSize: nat // MIN_SIZE; layout.min is the same, aligned
    const size: nat // mem_size_aligned
    var items: map<nat, Item>
    var lfree: nat
    var used: int
    var max: int
    var bytes: seq<bv8> // user data by offset
    ghost var blocks: seq<Block>

    function End(): nat { size + layout.header }

    ghost predicate Shape()
      reads this`items, this`lfree, this`blocks
    {
      && Sound(layout) && layout.min % layout.align == 0 && End() % layout.align == 0
      && Tiles(layout, blocks, End()) && OnGrid(layout, blocks)
      && Linked(items, blocks, End()) && lfree == Lowest(blocks, End())
    }

    ghost predicate Valid()
      reads this
    {
      && Shape() && Merged(blocks)
      && used == Spans(blocks) && used <= max
      && |bytes| == End()
    }

    // rt_smem_init, after the address arithmetic: one free block and the sentinel.
    constructor (layout: Layout, minSize: nat, size: nat)
      requires Sound(layout) && layout.min == AlignUp(minSize, layout.align) && size % layout.align == 0
      ensures Valid() && blocks == [Block(0, size + layout.header, false)] && used == 0 && max == 0
      ensures this.layout == layout && this.minSize == minSize && this.size == size
    {
      this.layout := layout;
      this.minSize := minSize;
      this.size := size;
      var end := size + layout.header;
      items := map[0 := Item(false, end, 0), end := Item(true, end, end)];
      lfree := 0;
      used := 0;
      max := 0;
      bytes := seq(end, i => 0);
      blocks := [Block(0, end, false)];
      new;
      AlignedUp(minSize, layout.align);
      SumOnGrid(size, layout.header, layout.align);
      assert 0 % layout.align == 0;
    }

    // The two halves of plug_holes.
    method PlugForward(mem: nat, ghost i: nat)
      requires Shape() && i < |blocks| && blocks[i].start == mem && !blocks[i].used
      modifies this`items, this`lfree, this`blocks
      ensures Shape()
      ensures blocks == old(if i + 1 < |blocks| && !blocks[i + 1].used then Joined(blocks, i) else blocks)
    {
      hide Tiles, Linked, Joined, Lowest, OnGrid, HeaderOf;
      ghost var l, end := layout, End();
      Order(l, blocks, end, i, i);
      LinkedAt(items, blocks, end, i);
      LinkedAt(items, blocks, end, i + 1);
      HeaderIs(blocks, i);
      if i + 1 < |blocks| {
        Order(l, blocks, end, i + 1, i + 1);
        HeaderIs(blocks, i + 1);
      }
      var nmem := items[mem].next;
      if mem != nmem && !items[nmem].used && nmem != End() {
        JoinLinked(l, items, blocks, end, i);
        JoinedTiles(l, blocks, end, i);
        JoinedOnGrid(l, blocks, i);
        JoinLowest(l, blocks, end, i);
        if lfree == nmem {
          lfree := mem;
        }
        var nn := items[nmem].next;
        items := items[mem := items[mem].(next := nn)];
        items := items[nn := items[nn].(prev := mem)];
        blocks := Joined(blocks, i);
      }
    }

    method PlugBackward(mem: nat, ghost i: nat)
      requires Shape() && i < |blocks| && blocks[i].start == mem && !blocks[i].used
      modifies this`items, this`lfree, this`blocks
      ensures Shape()
      ensures blocks == old(if i > 0 && !blocks[i - 1].used then Joined(blocks, i - 1) else blocks)
    {
      hide Tiles, Linked, Joined, Lowest, OnGrid, HeaderOf;
      ghost var l, end := layout, End();
      Order(l, blocks, end, i, i);
      LinkedAt(items, blocks, end, i);
      HeaderIs(blocks, i);
      var pmem := items[mem].prev;
      if i > 0 {
        Order(l, blocks, end, i - 1, i);
        LinkedAt(items, blocks, end, i - 1);
        HeaderIs(blocks, i - 1);
      }
      if pmem != mem && !items[pmem].used {
        JoinLinked(l, items, blocks, end, i - 1);
        JoinedTiles(l, blocks, end, i - 1);
        JoinedOnGrid(l, blocks, i - 1);
        JoinLowest(l, blocks, end, i - 1);
        if lfree == mem {
          lfree := pmem;
        }
        var next := items[mem].next;
        items := items[pmem := items[pmem].(next := next)];
        items := items[next := items[next].(prev := pmem)];
        blocks := Joined(blocks, i - 1);
      }
    }

    method PlugHoles(mem: nat, ghost i: nat)
      requires Shape() && i < |blocks| && blocks[i].start == mem && !blocks[i].used
      modifies this`items, this`lfree, this`blocks
      ensures Shape()
      ensures blocks == Plugged(old(blocks), i)
    {
      hide Tiles, Linked, Joined, Lowest, OnGrid;
      if i + 1 < |blocks| { JoinedPoint(blocks, i, i); }
      PlugForward(mem, i);
      PlugBackward(mem, i);
    }

    // NULL exactly when the size is zero or no free block can hold the rounded request; otherwise the
    // first block that can is taken.
    method Alloc(request: nat) returns (p: Option<nat>)
      requires Valid()
      modifies this`items, this`lfree, this`blocks, this`used, this`max
      ensures Valid()
      ensures p == None <==> request == 0 || NothingFits(layout, old(blocks), Rounded(layout, request))
      ensures p == None ==> unchanged(this)
      ensures var r := Rounded(layout, request); var i := FirstFit(layout, old(blocks), r, 0); p.Some? ==>
        && i < |old(blocks)| && p.value == old(blocks)[i].start + layout.header
        && blocks == Carved(layout, old(blocks), i, r)
        && max == if used > old(max) then used else old(max)
      ensures p.Some? ==> var r := Rounded(layout, request);
        && RoomIs(layout, blocks, p.value, r, r + layout.header + layout.min)
        && var b := blocks[Owner(layout, blocks, p.value)]; used == old(used) + (b.next - b.start)
      ensures p.Some? ==> LowestFit(layout, old(blocks), p.value, Rounded(layout, request))
      ensures OthersSurvive(layout, old(blocks), bytes, blocks, bytes, None)
    {
      hide Tiles, Linked, Merged, Carved, Spans, OnGrid, HeaderOf, Lowest, AlignUp, Owner, OthersSurvive, FirstFit;
      ghost var l, end, bs, r := layout, End(), blocks, Rounded(layout, request);
      NothingMoved(l, bs, bytes, end, 0);
      p := Place(request);
      FirstIsLowest(l, bs, end, r);
      if p.Some? {
        FirstFitFits(l, bs, r);
        AllocEffect(l, bs, bytes, end, FirstFit(l, bs, r, 0), r);
      }
    }

    // The search of rt_smem_alloc.
    method Place(request: nat) returns (p: Option<nat>)
      requires Valid()
      modifies this`items, this`lfree, this`blocks, this`used, this`max
      ensures Valid()
      ensures p == None <==> request == 0 || NothingFits(layout, old(blocks), Rounded(layout, request))
      ensures p == None ==> unchanged(this)
      ensures var r := Rounded(layout, request); var i := FirstFit(layout, old(blocks), r, 0); p.Some? ==>
        && i < |old(blocks)| && p.value == old(blocks)[i].start + layout.header
        && blocks == Carved(layout, old(blocks), i, r)
        && max == if used > old(max) then used else old(max)
    {
      hide NothingFits;
      if request == 0 {
        return None;
      }
      ghost var l, end, bs := layout, End(), blocks;
      var r := AlignUp(request, layout.align);
      AlignedUp(request, layout.align);
      if r < layout.min {
        r := layout.min;
      }
      ghost var f := FirstFit(l, bs, r, 0);
      SearchRange(l, bs, end, r);
      if r > size {
        NoneFits(l, bs, r);
        return None;
      }
      hide Tiles, Linked, Merged, Carved, Spans, OnGrid, HeaderOf, Lowest;
      LowestIs(bs, end);
      var ptr := lfree;
      ghost var k := FirstFree(bs);
      while ptr <= size - r
        invariant k <= |bs| && ptr == Start(bs, end, k)
        invariant forall j :: 0 <= j < k ==> !Fits(l, bs[j], r)
        invariant unchanged(this)
        decreases |bs| - k
      {
        LinkedAt(items, bs, end, k);
        HeaderIs(bs, k);
        Order(l, bs, end, k, k);
        var item := items[ptr];
        if !item.used && item.next >= ptr + layout.header + r {
          SomethingFits(l, bs, r, k);
          FirstFitIs(l, bs, r, 0, k);
          Take(ptr, r, k);
          return Some(ptr + layout.header);
        }
        ptr := item.next;
        k := k + 1;
      }
      forall j | 0 <= j < |bs| ensures !Fits(l, bs[j], r) {
        if k <= j {
          Order(l, bs, end, k, j);
          Order(l, bs, end, j, j);
        }
      }
      NoneFits(l, bs, r);
      p := None;
    }

    // The body of the search loop once a block is found.
    method Take(ptr: nat, r: nat, ghost k: nat)
      requires Valid() && k < |blocks| && ptr == blocks[k].start && Fits(layout, blocks[k], r) && r % layout.align == 0
      modifies this`items, this`lfree, this`blocks, this`used, this`max
      ensures Valid()
      ensures blocks == Carved(layout, old(blocks), k, r)
      ensures max == if used > old(max) then used else old(max)
    {
      hide Tiles, Linked, Merged, Spans, OnGrid, HeaderOf, Lowest, Split;
      ghost var l, end, bs := layout, End(), blocks;
      LinkedAt(items, bs, end, k);
      HeaderIs(bs, k);
      Order(l, bs, end, k, k);
      CarvedValid(l, bs, end, k, r);
      CarvedOnGrid(l, bs, end, k, r);
      var next := items[ptr].next;
      ghost var cut := ptr + l.header + r;
      if next - (ptr + layout.header) >= r + layout.header + layout.min {
        SplitLinked(l, items, bs, end, k, cut);
        SplitPoint(bs, k, cut, k);
        var ptr2 := ptr + layout.header + r;
        items := items[ptr2 := Item(false, next, ptr)];
        items := items[ptr := items[ptr].(next := ptr2)];
        if next != End() {
          items := items[next := items[next].(prev := ptr2)];
        }
        used := used + (r + layout.header);
      } else {
        MarkLinked(l, items, bs, end, k, true);
        used := used + (next - ptr);
      }
      if max < used {
        max := used;
      }
      items := items[ptr := items[ptr].(used := true)];
      blocks := Carved(l, bs, k, r);
      CarvedLowest(l, bs, end, k, r);
      if ptr == lfree {
        SeekLowest(k);
      }
    }

    // The loop that moves `lfree` on when the lowest free block was taken.
    method SeekLowest(ghost k: nat)
      requires Sound(layout) && Tiles(layout, blocks, End()) && Linked(items, blocks, End())
      requires k < |blocks| && lfree == blocks[k].start && forall j :: 0 <= j < k ==> blocks[j].used
      modifies this`lfree
      ensures lfree == Lowest(blocks, End())
    {
      hide Tiles, Linked, HeaderOf;
      ghost var m := k;
      LinkedAt(items, blocks, End(), m);
      Order(layout, blocks, End(), m, m);
      HeaderIs(blocks, m);
      while items[lfree].used && lfree != End()
        invariant m <= |blocks| && lfree == Start(blocks, End(), m) && lfree in items
        invariant forall j :: 0 <= j < m ==> blocks[j].used
        invariant m < |blocks| ==> lfree < End() && items[lfree] == HeaderOf(blocks, m)
        decreases |blocks| - m
      {
        Order(layout, blocks, End(), m, m);
        HeaderIs(blocks, m);
        lfree := items[lfree].next;
        m := m + 1;
        LinkedAt(items, blocks, End(), m);
        if m < |blocks| {
          Order(layout, blocks, End(), m, m);
          HeaderIs(blocks, m);
        }
      }
      if m < |blocks| { HeaderIs(blocks, m); }
      FirstFreeIs(blocks, m);
    }

    // rt_smem_free
    method Free(rmem: Option<nat>)
      requires Valid() && (rmem.Some? ==> Live(layout, blocks, rmem.value))
      modifies this`items, this`lfree, this`blocks, this`used
      ensures Valid()
      ensures rmem == None ==> unchanged(this)
      ensures rmem.Some? ==> blocks == Released(old(blocks), Owner(layout, old(blocks), rmem.value))
      ensures rmem.Some? ==>
        && OthersSurvive(layout, old(blocks), bytes, blocks, bytes, rmem)
        && var b := old(blocks)[Owner(layout, old(blocks), rmem.value)]; used == old(used) - (b.next - b.start)
    {
      hide Tiles, Linked, Spans, OnGrid, HeaderOf, Lowest, Joined;
      if rmem == None {
        return;
      }
      var p := rmem.value;
      ghost var l, end, bs := layout, End(), blocks;
      ghost var i := Owner(l, bs, p);
      OwnerIs(l, bs, p);
      var mem := p - layout.header;
      LinkedAt(items, bs, end, i);
      HeaderIs(bs, i);
      MarkLinked(l, items, bs, end, i, false);
      FreeLowest(l, bs, end, i);
      Order(l, bs, end, i, i);
      ReleasedValid(l, bs, end, i);
      MarkedTiles(l, bs, end, i, false);
      items := items[mem := items[mem].(used := false)];
      if mem < lfree {
        lfree := mem;
      }
      used := used - (items[mem].next - mem);
      blocks := bs[i := bs[i].(used := false)];
      PlugHoles(mem, i);
      FreedKeeps(l, bs, bytes, end, i);
    }

    // Whatever is asked for, freeing what was given restores the blocks, `lfree` and `used`.
    method AllocAndFree(request: nat)
      requires Valid()
      modifies this`items, this`lfree, this`blocks, this`used, this`max
      ensures Valid()
      ensures blocks == old(blocks) && lfree == old(lfree) && used == old(used)
    {
      hide Tiles, Linked, Spans, OnGrid, HeaderOf, Lowest, Carved, Released, NothingFits, Merged, Owner, Rounded;
      ghost var l, end, bs := layout, End(), blocks;
      ghost var r := Rounded(l, request);
      ghost var i := FirstFit(l, bs, r, 0);
      FirstFitFits(l, bs, r);
      var p := Alloc(request);
      if p.Some? {
        CarvedValid(l, bs, end, i, r);
        OwnerOf(l, blocks, end, blocks[i]);
        ApartStarts(l, blocks, end, Owner(l, blocks, p.value), i);
        ReleaseInvertsCarve(l, bs, end, i, r);
      }
      Free(p);
    }

    // The part of rt_smem_realloc that cuts a block in place.
    method Shrink(mem: nat, newsize: nat, ghost i: nat)
      requires Valid() && i < |blocks| && blocks[i].used && blocks[i].start == mem
      requires newsize > 0 && newsize % layout.align == 0 && newsize + layout.header <= Room(layout, blocks[i])
      modifies this`items, this`lfree, this`blocks, this`used
      ensures Valid()
      ensures blocks == Shrunk(layout, old(blocks), i, newsize)
    {
      hide Tiles, Linked, Spans, OnGrid, HeaderOf, Lowest, Joined, Split;
      ghost var l, end, bs := layout, End(), blocks;
      LinkedAt(items, bs, end, i);
      HeaderIs(bs, i);
      Order(l, bs, end, i, i);
      ShrunkValid(l, bs, end, i, newsize);
      var ptr2 := mem + layout.header + newsize;
      CutOnGrid(l, bs, i, newsize);
      SplitOnGrid(l, bs, i, ptr2);
      SplitLinked(l, items, bs, end, i, ptr2);
      SplitTiles(l, bs, end, i, ptr2);
      SplitPoint(bs, i, ptr2, i + 1);
      CutLowest(l, bs, end, i, ptr2);
      var next := items[mem].next;
      used := used - (next - mem - layout.header - newsize);
      items := items[ptr2 := Item(false, next, mem)];
      items := items[mem := items[mem].(next := ptr2)];
      if next != End() {
        items := items[next := items[next].(prev := ptr2)];
      }
      assert items[mem := items[mem].(used := true)] == items;
      if ptr2 < lfree {
        lfree := ptr2;
      }
      blocks := Split(bs, i, ptr2);
      PlugHoles(ptr2, i + 1);
    }

    // The part that moves the data to a new block.
    method Move(rmem: nat, newsize: nat) returns (p: Option<nat>)
      requires Valid() && Live(layout, blocks, rmem)
      requires newsize > 0 && newsize % layout.align == 0
      modifies this
      ensures Valid()
      ensures p == None ==> unchanged(this)
      ensures p.Some? ==> Given(layout, blocks, p.value, newsize)
      ensures p.Some? ==> Carried(layout, old(blocks), old(bytes), rmem, bytes, p.value, newsize)
      ensures OthersSurvive(layout, old(blocks), old(bytes), blocks, bytes, Some(rmem))
      ensures p == None <==> NothingFits(layout, old(blocks), Rounded(layout, newsize))
      ensures p.Some? ==> var r := Rounded(layout, newsize); RoomIs(layout, blocks, p.value, r, r + layout.header + layout.min)
    {
      hide Shape, Tiles, Spans, Carved, FirstFit, LowestFit, Live, Room, Owner, Merged, AlignUp, Given, RoomIs, OthersSurvive, Carried, NothingFits;
      ShapeParts();
      ghost var l, end, bs := layout, End(), blocks;
      RoundedUp(l, newsize);
      ghost var r := Rounded(l, newsize);
      FirstFitFits(l, bs, r);
      p := Alloc(newsize);
      if p.Some? {
        Relocate(rmem, p.value, newsize, bs, FirstFit(l, bs, r, 0), r);
      } else {
        NothingMoved(l, bs, bytes, end, rmem);
      }
    }

    // Copying to the block just allocated, number f of the blocks `bs` there were, and freeing the old one.
    method Relocate(rmem: nat, p: nat, newsize: nat, ghost bs: seq<Block>, ghost f: nat, ghost r: nat)
      requires Valid() && SmallHeapModel.Valid(layout, bs, End()) && Live(layout, bs, rmem)
      requires f < |bs| && Fits(layout, bs[f], r) && newsize <= r && p == bs[f].start + layout.header
      requires blocks == Carved(layout, bs, f, r)
      modifies this
      ensures Valid() && max == old(max)
      ensures Given(layout, blocks, p, newsize)
      ensures Carried(layout, bs, old(bytes), rmem, bytes, p, newsize)
      ensures OthersSurvive(layout, bs, old(bytes), blocks, bytes, Some(rmem))
      ensures RoomIs(layout, blocks, p, r, r + layout.header + layout.min)
    {
      hide Shape, Tiles, Spans, HeaderOf, Carved, Released, Owner, Merged, Given, RoomIs, OthersSurvive, Carried, CopiedTo;
      ghost var l, end, was := layout, End(), bytes;
      ghost var b := bs[Owner(l, bs, rmem)];
      OwnerIs(l, bs, rmem);
      AllocGives(l, bs, end, f, r, b);
      ShapeParts();
      ghost var i := Owner(l, blocks, rmem);
      LinkedAt(items, blocks, end, i);
      HeaderIs(blocks, i);
      var room := items[rmem - layout.header].next - rmem;
      var n := if room < newsize then room else newsize;
      bytes := MemCopy(bytes, p, rmem, n);
      Moved(l, bs, was, end, f, r, b, bytes, newsize, n);
      Free(Some(rmem));
    }

    lemma {:induction false} ShapeParts()
      requires Shape()
      ensures Sound(layout) && Tiles(layout, blocks, End()) && Linked(items, blocks, End())
      ensures End() % layout.align == 0
    {
    }

    // The first min(old, new) bytes of the block are in the result; every other block that was in use is in
    // use still, at its place and with its bytes; and NULL for a size that is not zero leaves everything as
    // it was.
    method Realloc(rmem: Option<nat>, request: nat) returns (p: Option<nat>)
      requires Valid() && (rmem.Some? ==> Live(layout, blocks, rmem.value))
      modifies this
      ensures Valid()
      ensures p == None && request != 0 ==> unchanged(this)
      ensures request == 0 ==> p == None && bytes == old(bytes)
      ensures request == 0 && rmem.Some? ==> blocks == Released(old(blocks), Owner(layout, old(blocks), rmem.value))
      ensures request == 0 && rmem == None ==> blocks == old(blocks)
      ensures p.Some? ==> Given(layout, blocks, p.value, AlignUp(request, layout.align))
      ensures p.Some? && rmem.Some? ==>
        Carried(layout, old(blocks), old(bytes), rmem.value, bytes, p.value, AlignUp(request, layout.align))
      ensures OthersSurvive(layout, old(blocks), old(bytes), blocks, bytes, rmem)
      ensures request != 0 ==>
        var n := AlignUp(request, layout.align);
        var room := if rmem == None then 0 else Room(layout, old(blocks)[Owner(layout, old(blocks), rmem.value)]);
        var stays := rmem.Some? && n <= size && (room == n || n + layout.header + minSize < room);
        && (stays ==> p == rmem && RoomIs(layout, blocks, p.value, n, n + 1))
        && (!stays ==> (p == None <==> n > size || NothingFits(layout, old(blocks), Rounded(layout, n))))
        && (!stays && p.Some? ==> RoomIs(layout, blocks, p.value, Rounded(layout, n), Rounded(layout, n) + layout.header + layout.min))
    {
      hide Tiles, Linked, Spans, OnGrid, HeaderOf, Lowest, Joined, Split, Carved, Released, Shrunk, FirstFit, Owner, Merged, AlignUp;
      ghost var l, end, bs, was := layout, End(), blocks, bytes;
      AlignedUp(request, layout.align);
      AlignedUp(0, layout.align);
      var newsize := AlignUp(request, layout.align);
      NothingMoved(l, bs, was, end, 0);
      if rmem.Some? { NothingMoved(l, bs, was, end, rmem.value); }
      if newsize > size {
        return None;
      }
      if newsize == 0 {
        if rmem.Some? {
          OwnerIs(l, bs, rmem.value);
          Free(rmem);
          FreedKeeps(l, bs, was, end, Owner(l, bs, rmem.value));
        }
        return None;
      }
      if rmem == None {
        AlignedUp(newsize, layout.align);
        ghost var r := Rounded(l, newsize);
        p := Alloc(newsize);
        if p.Some? { NewKeeps(l, bs, was, end, FirstFit(l, bs, r, 0), r); }
        return;
      }
      ghost var i := Owner(l, bs, rmem.value);
      OwnerIs(l, bs, rmem.value);
      LinkedAt(items, bs, end, i);
      HeaderIs(bs, i);
      Order(l, bs, end, i, i);
      var mem := rmem.value - layout.header;
      var room := items[mem].next - mem - layout.header;
      if room == newsize {
        return rmem;
      }
      if newsize + layout.header + minSize < room {
        Shrink(mem, newsize, i);
        ShrunkKeeps(l, bs, was, end, i, newsize);
        return rmem;
      }
      p := Move(rmem.value, newsize);
    }
  }

  // p is the data of a block in use with room for `size` bytes.
  ghost predicate Given(l: Layout, bs: seq<Block>, p: nat, size: nat) {
    Live(l, bs, p) && Room(l, bs[Owner(l, bs, p)]) >= size
  }

  // p is the data of a block in use whose room is in that range.
  ghost predicate RoomIs(l: Layout, bs: seq<Block>, p: nat, low: int, high: int) {
    Live(l, bs, p) && low <= Room(l, bs[Owner(l, bs, p)]) < high
  }

  // The first bytes at p are those that were at rmem, as many as both blocks hold.
  ghost predicate Carried(l: Layout, bs: seq<Block>, was: seq<bv8>, rmem: nat, now: seq<bv8>, p: nat, size: nat) {
    && Live(l, bs, rmem)
    && var n := Least(Room(l, bs[Owner(l, bs, rmem)]), size);
      n >= 0 && p + n <= |now| && rmem + n <= |was| && now[p..p + n] == was[rmem..rmem + n]
  }

  // A block in use is in use still and holds the bytes it held.
  ghost predicate Survives(l: Layout, was: seq<bv8>, bs1: seq<Block>, now: seq<bv8>, b: Block) {
    && b in bs1 && b.start + l.header <= b.next <= |was| && |now| == |was|
    && now[b.start + l.header..b.next] == was[b.start + l.header..b.next]
  }

  ghost predicate OthersSurvive(l: Layout, bs: seq<Block>, was: seq<bv8>, bs1: seq<Block>, now: seq<bv8>, p: Option<nat>) {
    forall b :: b in bs && b.used && p != Some(b.start + l.header) ==> Survives(l, was, bs1, now, b)
  }

  lemma {:induction false} OwnerFinds(l: Layout, bs: seq<Block>, p: nat, k: nat)
    requires k < |bs| && bs[k].start + l.header == p
    ensures Owner(l, bs, p) <= k
  {
    if bs[0].start + l.header != p { OwnerFinds(l, bs[1..], p, k - 1); }
  }

  lemma {:induction false} OwnerOf(l: Layout, bs: seq<Block>, end: nat, b: Block)
    requires Sound(l) && Tiles(l, bs, end) && b in bs
    ensures var k := Owner(l, bs, b.start + l.header); k < |bs| && bs[k] == b
  {
    hide Tiles, Owner;
    var k :| 0 <= k < |bs| && bs[k] == b;
    var p := b.start + l.header;
    OwnerFinds(l, bs, p, k);
    OwnerIs(l, bs, p);
    Order(l, bs, end, k, Owner(l, bs, p));
  }

  // Different blocks do not overlap.
  lemma {:induction false} ApartBlocks(l: Layout, bs: seq<Block>, end: nat, x: Block, y: Block)
    requires Sound(l) && Tiles(l, bs, end) && x in bs && y in bs
    ensures x.start + l.header <= x.next <= end && y.start + l.header <= y.next <= end
    ensures x != y ==> x.next <= y.start || y.next <= x.start
  {
    hide Tiles;
    var i :| 0 <= i < |bs| && bs[i] == x;
    var j :| 0 <= j < |bs| && bs[j] == y;
    Order(l, bs, end, i, j);
    Below(l, bs, end, i);
    Below(l, bs, end, j);
  }

  lemma {:induction false} ApartStarts(l: Layout, bs: seq<Block>, end: nat, i: nat, j: nat)
    requires Sound(l) && Tiles(l, bs, end) && i < |bs| && j < |bs|
    ensures bs[i] == bs[j] ==> i == j
  {
    Order(l, bs, end, i, j);
  }

  // The block an allocation gives lies apart from the blocks in use before it.
  lemma {:induction false} AllocGives(l: Layout, bs: seq<Block>, end: nat, f: nat, r: nat, b: Block)
    requires Valid(l, bs, end) && f < |bs| && Fits(l, bs[f], r) && b in bs && b.used
    ensures f < |Carved(l, bs, f, r)| && b in Carved(l, bs, f, r) && b.start + l.header <= b.next <= end
    ensures Live(l, Carved(l, bs, f, r), b.start + l.header)
    ensures Carved(l, bs, f, r)[Owner(l, Carved(l, bs, f, r), b.start + l.header)] == b
    ensures var g := Carved(l, bs, f, r)[f];
      && g.used && g.start == bs[f].start && Room(l, g) >= r && g.next <= end
      && b != g && (b.next <= g.start || g.next <= b.start)
  {
    hide Tiles, Carved, Spans, Merged;
    CarvedValid(l, bs, end, f, r);
    CarvedSurvivors(l, bs, f, r, b);
    var bs1 := Carved(l, bs, f, r);
    OwnerOf(l, bs1, end, b);
    var k :| 0 <= k < |bs| && bs[k] == b;
    Order(l, bs, end, k, f);
    ApartBlocks(l, bs1, end, b, bs1[f]);
  }

  lemma {:induction false} RoundedUp(l: Layout, size: nat)
    requires Sound(l)
    ensures size <= Rounded(l, size)
  {
    AlignedUp(size, l.align);
  }

  // The rounded request is the smallest block, or the next multiple of the alignment.
  lemma {:induction false} RoundedIs(l: Layout, size: nat)
    requires Sound(l)
    ensures size <= Rounded(l, size) && l.min <= Rounded(l, size)
    ensures Rounded(l, size) == l.min || (Rounded(l, size) < size + l.align && Rounded(l, size) % l.align == 0)
  {
    AlignedUp(size, l.align);
  }

  lemma {:induction false} FirstFitFits(l: Layout, bs: seq<Block>, size: nat)
    ensures var f := FirstFit(l, bs, size, 0); f < |bs| ==> Fits(l, bs[f], size)
  {
  }

  lemma {:induction false} MoveCarries(l: Layout, bs: seq<Block>, was: seq<bv8>, b: Block, now: seq<bv8>, p: nat, size: nat, n: nat)
    requires Live(l, bs, b.start + l.header) && bs[Owner(l, bs, b.start + l.header)] == b
    requires n == Least(Room(l, b), size) && p + n <= |now| && b.next <= |was|
    requires now[p..p + n] == was[b.start + l.header..b.start + l.header + n]
    ensures Carried(l, bs, was, b.start + l.header, now, p, size)
  {
  }

  lemma {:induction false} MoveGives(l: Layout, bs: seq<Block>, end: nat, f: nat, r: nat, b: Block, size: nat)
    requires size <= r && Valid(l, bs, end) && f < |bs| && Fits(l, bs[f], r) && b in bs && b.used
    ensures var bs1 := Carved(l, bs, f, r); var k := Owner(l, bs1, b.start + l.header);
      && f < |bs1| && k < |bs1| && bs1[k].used && Given(l, Released(bs1, k), bs1[f].start + l.header, size)
      && RoomIs(l, Released(bs1, k), bs1[f].start + l.header, r, r + l.header + l.min)
  {
    hide Tiles, Carved, Spans, Merged, Released, Owner;
    AllocGives(l, bs, end, f, r, b);
    CarvedValid(l, bs, end, f, r);
    var bs1 := Carved(l, bs, f, r);
    var k := Owner(l, bs1, b.start + l.header);
    ReleasedValid(l, bs1, end, k);
    ReleasedSurvivors(bs1, k, bs1[f]);
    OwnerOf(l, Released(bs1, k), end, bs1[f]);
  }

  lemma {:induction false} MoveKeepsOne(l: Layout, bs: seq<Block>, was: seq<bv8>, end: nat, f: nat, r: nat, b: Block,
      now: seq<bv8>, n: nat, x: Block)
    requires Valid(l, bs, end) && f < |bs| && Fits(l, bs[f], r) && b in bs && b.used && n <= r
    requires |was| == end && |now| == end
    requires var p := bs[f].start + l.header; p + n <= end && now[..p] == was[..p] && now[p + n..] == was[p + n..]
    requires x in bs && x.used && x.start != b.start
    ensures var bs1 := Carved(l, bs, f, r); var k := Owner(l, bs1, b.start + l.header);
      k < |bs1| && Survives(l, was, Released(bs1, k), now, x)
  {
    hide Tiles, Carved, Spans, Merged, Released, Owner;
    AllocGives(l, bs, end, f, r, b);
    AllocGives(l, bs, end, f, r, x);
    var bs1 := Carved(l, bs, f, r);
    var p := bs[f].start + l.header;
    ReleasedSurvivors(bs1, Owner(l, bs1, b.start + l.header), x);
    SameOutside(was, now, p, p + n, x.start + l.header, x.next);
  }

  // Writing inside the new block and freeing the old one disturbs no other block in use.
  lemma {:induction false} MoveKeeps(l: Layout, bs: seq<Block>, was: seq<bv8>, end: nat, f: nat, r: nat, b: Block, now: seq<bv8>, n: nat)
    requires Valid(l, bs, end) && f < |bs| && Fits(l, bs[f], r) && b in bs && b.used && n <= r
    requires |was| == end && |now| == end
    requires var p := bs[f].start + l.header; p + n <= end && now[..p] == was[..p] && now[p + n..] == was[p + n..]
    ensures var bs1 := Carved(l, bs, f, r); var k := Owner(l, bs1, b.start + l.header);
      k < |bs1| && OthersSurvive(l, bs, was, Released(bs1, k), now, Some(b.start + l.header))
  {
    hide Tiles, Carved, Spans, Merged, Released, Owner, Survives;
    AllocGives(l, bs, end, f, r, b);
    var bs1 := Carved(l, bs, f, r);
    var k := Owner(l, bs1, b.start + l.header);
    forall x | x in bs && x.used && x.start != b.start ensures Survives(l, was, Released(bs1, k), now, x) {
      MoveKeepsOne(l, bs, was, end, f, r, b, now, n, x);
    }
  }

  // All that a move is to achieve.
  lemma {:induction false} Moved(l: Layout, bs: seq<Block>, was: seq<bv8>, end: nat, f: nat, r: nat, b: Block,
      now: seq<bv8>, size: nat, n: nat)
    requires Valid(l, bs, end) && f < |bs| && Fits(l, bs[f], r) && b in bs && b.used && size <= r
    requires Live(l, bs, b.start + l.header) && bs[Owner(l, bs, b.start + l.header)] == b && n == Least(Room(l, b), size)
    requires |was| == end && CopiedTo(was, now, bs[f].start + l.header, b.start + l.header, n)
    ensures var bs1 := Carved(l, bs, f, r); var k := Owner(l, bs1, b.start + l.header);
      k < |bs1| && f < |bs1| && bs1[f].start == bs[f].start
    ensures var bs1 := Carved(l, bs, f, r); var bs2 := Released(bs1, Owner(l, bs1, b.start + l.header));
      && Given(l, bs2, bs[f].start + l.header, size)
      && RoomIs(l, bs2, bs[f].start + l.header, r, r + l.header + l.min)
      && Carried(l, bs, was, b.start + l.header, now, bs[f].start + l.header, size)
      && OthersSurvive(l, bs, was, bs2, now, Some(b.start + l.header))
  {
    hide Tiles, Carved, Released, Given, RoomIs, OthersSurvive, Carried, Owner, Merged, Spans;
    AllocGives(l, bs, end, f, r, b);
    MoveGives(l, bs, end, f, r, b, size);
    MoveKeeps(l, bs, was, end, f, r, b, now, n);
    MoveCarries(l, bs, was, b, now, bs[f].start + l.header, size, n);
  }

  lemma {:induction false} FreedKeeps(l: Layout, bs: seq<Block>, was: seq<bv8>, end: nat, i: nat)
    requires Valid(l, bs, end) && i < |bs| && bs[i].used && |was| == end
    ensures OthersSurvive(l, bs, was, Released(bs, i), was, Some(bs[i].start + l.header))
  {
    hide Tiles, Released, Merged;
    forall x | x in bs && x.used && x.start != bs[i].start ensures Survives(l, was, Released(bs, i), was, x) {
      ApartBlocks(l, bs, end, x, x);
      ReleasedSurvivors(bs, i, x);
    }
  }

  lemma {:induction false} NewKeeps(l: Layout, bs: seq<Block>, was: seq<bv8>, end: nat, f: nat, r: nat)
    requires Valid(l, bs, end) && f < |bs| && Fits(l, bs[f], r) && |was| == end
    ensures OthersSurvive(l, bs, was, Carved(l, bs, f, r), was, None)
    ensures Given(l, Carved(l, bs, f, r), bs[f].start + l.header, r)
  {
    hide Tiles, Carved, Merged, Spans;
    CarvedValid(l, bs, end, f, r);
    OwnerOf(l, Carved(l, bs, f, r), end, Carved(l, bs, f, r)[f]);
    forall x | x in bs && x.used ensures Survives(l, was, Carved(l, bs, f, r), was, x) {
      ApartBlocks(l, bs, end, x, x);
      CarvedSurvivors(l, bs, f, r, x);
    }
  }

  // The block an allocation gives, and what else it changes.
  lemma {:induction false} AllocEffect(l: Layout, bs: seq<Block>, was: seq<bv8>, end: nat, f: nat, r: nat)
    requires Valid(l, bs, end) && f < |bs| && Fits(l, bs[f], r) && |was| == end
    ensures var bs1, p := Carved(l, bs, f, r), bs[f].start + l.header;
      && RoomIs(l, bs1, p, r, r + l.header + l.min) && OthersSurvive(l, bs, was, bs1, was, None)
      && var b := bs1[Owner(l, bs1, p)]; Spans(bs1) == Spans(bs) + (b.next - b.start)
  {
    hide Tiles, Carved, Merged, Spans, OthersSurvive, Owner;
    CarvedValid(l, bs, end, f, r);
    OwnerOf(l, Carved(l, bs, f, r), end, Carved(l, bs, f, r)[f]);
    NewKeeps(l, bs, was, end, f, r);
  }

  // The first block that fits has the lowest address of those that fit.
  lemma {:induction false} FirstIsLowest(l: Layout, bs: seq<Block>, end: nat, r: nat)
    requires Sound(l) && Tiles(l, bs, end)
    ensures var f := FirstFit(l, bs, r, 0);
      f < |bs| ==> forall b :: b in bs && Fits(l, b, r) ==> bs[f].start <= b.start
  {
    hide Tiles;
    var f := FirstFit(l, bs, r, 0);
    if f < |bs| {
      forall b | b in bs && Fits(l, b, r) ensures bs[f].start <= b.start {
        var k :| 0 <= k < |bs| && bs[k] == b;
        Order(l, bs, end, f, k);
      }
    }
  }

  lemma {:induction false} ShrunkKeeps(l: Layout, bs: seq<Block>, was: seq<bv8>, end: nat, i: nat, size: nat)
    requires Valid(l, bs, end) && i < |bs| && bs[i].used && |was| == end && size + l.header <= Room(l, bs[i])
    ensures OthersSurvive(l, bs, was, Shrunk(l, bs, i, size), was, Some(bs[i].start + l.header))
    ensures Given(l, Shrunk(l, bs, i, size), bs[i].start + l.header, size)
    ensures RoomIs(l, Shrunk(l, bs, i, size), bs[i].start + l.header, size, size + 1)
  {
    hide Tiles, Shrunk, Merged, Spans;
    ShrunkValid(l, bs, end, i, size);
    ShrunkHas(l, bs, i, size);
    OwnerOf(l, Shrunk(l, bs, i, size), end, Block(bs[i].start, bs[i].start + l.header + size, true));
    forall x | x in bs && x.used && x.start != bs[i].start ensures Survives(l, was, Shrunk(l, bs, i, size), was, x) {
      ApartBlocks(l, bs, end, x, x);
      ShrunkSurvivors(l, bs, i, size, x);
    }
  }

  lemma {:induction false} ShrunkHas(l: Layout, bs: seq<Block>, i: nat, size: nat)
    requires i < |bs|
    ensures Block(bs[i].start, bs[i].start + l.header + size, true) in Shrunk(l, bs, i, size)
  {
    hide Split, Plugged;
    var cut := bs[i].start + l.header + size;
    SplitPoint(bs, i, cut, i);
    SplitPoint(bs, i, cut, i + 1);
    PluggedSurvivors(Split(bs, i, cut), i + 1, Block(bs[i].start, cut, true));
  }

  lemma {:induction false} NothingMoved(l: Layout, bs: seq<Block>, was: seq<bv8>, end: nat, rmem: nat)
    requires Sound(l) && Tiles(l, bs, end) && |was| == end
    ensures OthersSurvive(l, bs, was, bs, was, Some(rmem)) && OthersSurvive(l, bs, was, bs, was, None)
  {
    hide Tiles;
    forall x | x in bs ensures Survives(l, was, bs, was, x) { ApartBlocks(l, bs, end, x, x); }
  }

  lemma {:induction false} MarkedTiles(l: Layout, bs: seq<Block>, end: nat, i: nat, used: bool)
    requires Sound(l) && Tiles(l, bs, end) && i < |bs|
    ensures Tiles(l, bs[i := bs[i].(used := used)], end)
    ensures OnGrid(l, bs) ==> OnGrid(l, bs[i := bs[i].(used := used)])
  {
  }

  lemma {:induction false} LowestIs(bs: seq<Block>, end: nat)
    ensures FirstFree(bs) <= |bs| && Lowest(bs, end) == Start(bs, end, FirstFree(bs))
    ensures forall j :: 0 <= j < FirstFree(bs) ==> bs[j].used
  {
    FirstFreeIs(bs, FirstFree(bs));
  }

  lemma {:induction false} FirstFitIs(l: Layout, bs: seq<Block>, size: nat, i: nat, k: nat)
    requires i <= k < |bs| && Fits(l, bs[k], size) && forall j :: i <= j < k ==> !Fits(l, bs[j], size)
    ensures FirstFit(l, bs, size, i) == k
    decreases k - i
  {
    if i < k { FirstFitIs(l, bs, size, i + 1, k); }
  }

  lemma {:induction false} CutOnGrid(l: Layout, bs: seq<Block>, i: nat, size: nat)
    requires Sound(l) && OnGrid(l, bs) && i < |bs| && size % l.align == 0
    ensures (bs[i].start + l.header + size) % l.align == 0
  {
    SumOnGrid(bs[i].start, l.header, l.align);
    SumOnGrid(bs[i].start + l.header, size, l.align);
  }

  lemma {:induction false} CarvedOnGrid(l: Layout, bs: seq<Block>, end: nat, i: nat, size: nat)
    requires Sound(l) && OnGrid(l, bs) && i < |bs| && size % l.align == 0
    ensures OnGrid(l, Carved(l, bs, i, size))
  {
    SumOnGrid(bs[i].start, l.header, l.align);
    SumOnGrid(bs[i].start + l.header, size, l.align);
    if Room(l, bs[i]) >= size + l.header + l.min {
      SplitOnGrid(l, bs, i, bs[i].start + l.header + size);
    }
  }

  // Unless the lowest free block is the one taken, it stays the lowest.
  lemma {:induction false} CarvedLowest(l: Layout, bs: seq<Block>, end: nat, i: nat, size: nat)
    requires Sound(l) && Tiles(l, bs, end) && i < |bs| && !bs[i].used
    ensures Lowest(bs, end) != bs[i].start ==> Lowest(Carved(l, bs, i, size), end) == Lowest(bs, end)
    ensures Lowest(bs, end) == bs[i].start ==>
      i < |Carved(l, bs, i, size)| && Carved(l, bs, i, size)[i].start == bs[i].start
      && forall j :: 0 <= j < i ==> Carved(l, bs, i, size)[j].used
  {
    hide Tiles, Split;
    var f := FirstFree(bs);
    FirstFreeIs(bs, f);
    Order(l, bs, end, i, f);
    if Room(l, bs[i]) >= size + l.header + l.min { SplitAt(bs, i, bs[i].start + l.header + size); }
    if f < i { FirstFreeIs(Carved(l, bs, i, size), f); }
  }

  lemma {:induction false} HeaderIs(bs: seq<Block>, i: nat)
    requires i < |bs|
    ensures HeaderOf(bs, i) == Item(bs[i].used, bs[i].next, if i == 0 then 0 else bs[i - 1].start)
  {
  }
}
