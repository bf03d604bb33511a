/** The small-memory heap (src/mem.c) as the list of its blocks in address order. Offsets count from the
    start of the heap; `header` is SIZEOF_STRUCT_MEM, `min` MIN_SIZE_ALIGNED. */
module SmallHeapModel {
  // A block runs from its header at `start` to the header of the next block.
  datatype Block = Block(start: nat, next: nat, used: bool)

  datatype Layout = Layout(header: nat, min: nat, align: nat)

  ghost predicate Sound(l: Layout) {
    0 < l.header && 0 < l.min && 0 < l.align && l.header % l.align == 0
  }

  // The bytes a block offers its user.
  function Room(l: Layout, b: Block): int { b.next - b.start - l.header }

  // The blocks follow each other without a gap from offset 0 to the sentinel.
  ghost predicate Tiles(l: Layout, bs: seq<Block>, end: nat) {
    && bs != [] && bs[0].start == 0 && bs[|bs| - 1].next == end
    && (forall i :: 0 <= i < |bs| - 1 ==> bs[i].next == bs[i + 1].start)
    && (forall i :: 0 <= i < |bs| ==> Room(l, bs[i]) >= 0)
  }

  ghost predicate Merged(bs: seq<Block>) {
    forall i :: 0 <= i < |bs| - 1 ==> bs[i].used || bs[i + 1].used
  }

  ghost predicate Valid(l: Layout, bs: seq<Block>, end: nat) {
    Sound(l) && Tiles(l, bs, end) && Merged(bs)
  }

  lemma {:induction false} Increasing(l: Layout, bs: seq<Block>, end: nat, i: nat, j: nat)
    requires Sound(l) && Tiles(l, bs, end) && i < j < |bs|
    ensures bs[i].start < bs[i].next <= bs[j].start
    decreases j
  {
    if j > i + 1 { Increasing(l, bs, end, i, j - 1); }
  }

  lemma {:induction false} Below(l: Layout, bs: seq<Block>, end: nat, i: nat)
    requires Sound(l) && Tiles(l, bs, end) && i < |bs|
    ensures bs[i].start + l.header <= bs[i].next <= end
  {
    if i < |bs| - 1 { Increasing(l, bs, end, i, |bs| - 1); }
  }

  // What used blocks take, headers included.
  function Spans(bs: seq<Block>): int {
    if bs == [] then 0 else (if bs[0].used then bs[0].next - bs[0].start else 0) + Spans(bs[1..])
  }

  lemma {:induction false} SpansSplit(a: seq<Block>, b: seq<Block>)
    ensures Spans(a + b) == Spans(a) + Spans(b)
  {
    if a == [] {
      assert a + b == b;
    } else {
      SpansSplit(a[1..], b);
      assert (a + b)[1..] == a[1..] + b;
    }
  }

  // Replacing one block by others.
  function Splice(bs: seq<Block>, i: nat, j: nat, mid: seq<Block>): seq<Block>
    requires i <= j <= |bs|
  {
    bs[..i] + mid + bs[j..]
  }

  lemma {:induction false} SpliceSpans(bs: seq<Block>, i: nat, j: nat, mid: seq<Block>)
    requires i <= j <= |bs|
    ensures Spans(Splice(bs, i, j, mid)) == Spans(bs) - Spans(bs[i..j]) + Spans(mid)
  {
    SpansSplit(bs[..i] + mid, bs[j..]);
    SpansSplit(bs[..i], mid);
    SpansSplit(bs[..i] + bs[i..j], bs[j..]);
    SpansSplit(bs[..i], bs[i..j]);
    assert bs[..j] == bs[..i] + bs[i..j];
    assert bs == bs[..j] + bs[j..];
  }

  // The number of the first free block, or how many blocks there are.
  function FirstFree(bs: seq<Block>): nat {
    if bs == [] || !bs[0].used then 0 else 1 + FirstFree(bs[1..])
  }

  lemma {:induction false} FirstFreeIs(bs: seq<Block>, f: nat)
    ensures FirstFree(bs) == f <==> f <= |bs| && (forall i :: 0 <= i < f ==> bs[i].used) && (f < |bs| ==> !bs[f].used)
  {
    if bs != [] && bs[0].used {
      if f > 0 { FirstFreeIs(bs[1..], f - 1); }
      assert forall i :: 0 < i < |bs| ==> bs[i] == bs[1..][i - 1];
    }
  }

  function Start(bs: seq<Block>, end: nat, i: nat): nat
    requires i <= |bs|
  {
    if i < |bs| then bs[i].start else end
  }

  // The offset `lfree` keeps: the lowest free block, or the sentinel.
  function Lowest(bs: seq<Block>, end: nat): nat {
    FirstFreeIs(bs, FirstFree(bs));
    Start(bs, end, FirstFree(bs))
  }

  predicate Fits(l: Layout, b: Block, size: nat) {
    !b.used && Room(l, b) >= size
  }

  // The first block from i on that is free and large enough.
  function FirstFit(l: Layout, bs: seq<Block>, size: nat, i: nat): (r: nat)
    requires i <= |bs|
    ensures i <= r <= |bs| && (r < |bs| ==> Fits(l, bs[r], size))
    ensures forall j :: i <= j < r ==> !Fits(l, bs[j], size)
    decreases |bs| - i
  {
    if i == |bs| || Fits(l, bs[i], size) then i else FirstFit(l, bs, size, i + 1)
  }

  // Block i is used up to `cut` and free after it.
  function Split(bs: seq<Block>, i: nat, cut: nat): seq<Block>
    requires i < |bs|
  {
    Splice(bs, i, i + 1, [Block(bs[i].start, cut, true), Block(cut, bs[i].next, false)])
  }

  // Block i is taken for `size` bytes; a remainder that can hold a header and `min` bytes is split off.
  function Carved(l: Layout, bs: seq<Block>, i: nat, size: nat): seq<Block>
    requires i < |bs|
  {
    if Room(l, bs[i]) >= size + l.header + l.min
    then Split(bs, i, bs[i].start + l.header + size)
    else bs[i := bs[i].(used := true)]
  }

  // Blocks i and i + 1 become one free block.
  function Joined(bs: seq<Block>, i: nat): seq<Block>
    requires i + 1 < |bs|
  {
    Splice(bs, i, i + 2, [Block(bs[i].start, bs[i + 1].next, false)])
  }

  // plug_holes: the free block i is joined with a free block after it and with a free block before it.
  function Plugged(bs: seq<Block>, i: nat): seq<Block>
    requires i < |bs|
  {
    var bs1 := if i + 1 < |bs| && !bs[i + 1].used then Joined(bs, i) else bs;
    if i > 0 && !bs1[i - 1].used then Joined(bs1, i - 1) else bs1
  }

  function Released(bs: seq<Block>, i: nat): seq<Block>
    requires i < |bs|
  {
    Plugged(bs[i := bs[i].(used := false)], i)
  }

  // The end of the used block i is given back.
  function Shrunk(l: Layout, bs: seq<Block>, i: nat, size: nat): seq<Block>
    requires i < |bs|
  {
    Plugged(Split(bs, i, bs[i].start + l.header + size), i + 1)
  }

  // Free neighbours are allowed only next to block i.
  ghost predicate MergedBut(bs: seq<Block>, i: int) {
    forall k :: 0 <= k < |bs| - 1 && k != i && k + 1 != i ==> bs[k].used || bs[k + 1].used
  }

  lemma {:induction false} JoinedAt(bs: seq<Block>, i: nat)
    requires i + 1 < |bs|
    ensures |Joined(bs, i)| == |bs| - 1 && Joined(bs, i)[i] == Block(bs[i].start, bs[i + 1].next, false)
    ensures forall k :: 0 <= k < i ==> Joined(bs, i)[k] == bs[k]
    ensures forall k :: i < k < |bs| - 1 ==> Joined(bs, i)[k] == bs[k + 1]
  {
  }

  lemma {:induction false} SplitAt(bs: seq<Block>, i: nat, cut: nat)
    requires i < |bs|
    ensures |Split(bs, i, cut)| == |bs| + 1
    ensures Split(bs, i, cut)[i] == Block(bs[i].start, cut, true) && Split(bs, i, cut)[i + 1] == Block(cut, bs[i].next, false)
    ensures forall k :: 0 <= k < i ==> Split(bs, i, cut)[k] == bs[k]
    ensures forall k :: i + 1 < k <= |bs| ==> Split(bs, i, cut)[k] == bs[k - 1]
  {
  }

  lemma {:induction false} JoinedPoint(bs: seq<Block>, i: nat, k: nat)
    requires i + 1 < |bs| && k < |bs| - 1
    ensures |Joined(bs, i)| == |bs| - 1
    ensures Joined(bs, i)[k] == if k < i then bs[k] else if k == i then Block(bs[i].start, bs[i + 1].next, false) else bs[k + 1]
  {
  }

  lemma {:induction false} SplitPoint(bs: seq<Block>, i: nat, cut: nat, k: nat)
    requires i < |bs| && k <= |bs|
    ensures |Split(bs, i, cut)| == |bs| + 1
    ensures Split(bs, i, cut)[k] ==
      if k < i then bs[k] else if k == i then Block(bs[i].start, cut, true)
      else if k == i + 1 then Block(cut, bs[i].next, false) else bs[k - 1]
  {
  }

  lemma {:induction false} JoinedTiles(l: Layout, bs: seq<Block>, end: nat, i: nat)
    requires Sound(l) && Tiles(l, bs, end) && i + 1 < |bs|
    ensures Tiles(l, Joined(bs, i), end)
  {
    hide Joined;
    JoinedAt(bs, i);
  }

  lemma {:induction false} SplitTiles(l: Layout, bs: seq<Block>, end: nat, i: nat, cut: nat)
    requires Sound(l) && Tiles(l, bs, end) && i < |bs|
    requires bs[i].start + l.header <= cut && cut + l.header <= bs[i].next
    ensures Tiles(l, Split(bs, i, cut), end)
  {
    hide Split;
    SplitAt(bs, i, cut);
  }

  lemma {:induction false} SplitSpans(bs: seq<Block>, i: nat, cut: nat)
    requires i < |bs|
    ensures Spans(Split(bs, i, cut)) == Spans(bs) - Spans([bs[i]]) + (cut - bs[i].start)
  {
    var parts := [Block(bs[i].start, cut, true), Block(cut, bs[i].next, false)];
    SpliceSpans(bs, i, i + 1, parts);
    assert bs[i..i + 1] == [bs[i]];
    SpansSplit([parts[0]], [parts[1]]);
    assert [parts[0]] + [parts[1]] == parts;
  }

  lemma {:induction false} PluggedValid(l: Layout, bs: seq<Block>, end: nat, i: nat)
    requires Sound(l) && Tiles(l, bs, end) && i < |bs| && !bs[i].used && MergedBut(bs, i)
    ensures Valid(l, Plugged(bs, i), end)
  {
    hide Joined;
    var bs1 := if i + 1 < |bs| && !bs[i + 1].used then Joined(bs, i) else bs;
    if i + 1 < |bs| && !bs[i + 1].used {
      JoinedTiles(l, bs, end, i);
      JoinedAt(bs, i);
      assert forall k :: 0 <= k < |bs1| - 1 && k + 1 != i ==> bs1[k].used || bs1[k + 1].used;
    }
    if i > 0 && !bs1[i - 1].used {
      JoinedTiles(l, bs1, end, i - 1);
      JoinedAt(bs1, i - 1);
    }
  }

  lemma {:induction false} JoinedSpans(bs: seq<Block>, i: nat)
    requires i + 1 < |bs| && !bs[i].used && !bs[i + 1].used
    ensures Spans(Joined(bs, i)) == Spans(bs)
  {
    SpliceSpans(bs, i, i + 2, [Block(bs[i].start, bs[i + 1].next, false)]);
    SpansSplit([bs[i]], [bs[i + 1]]);
    assert bs[i..i + 2] == [bs[i]] + [bs[i + 1]];
  }

  lemma {:induction false} PluggedSpans(bs: seq<Block>, i: nat)
    requires i < |bs| && !bs[i].used
    ensures Spans(Plugged(bs, i)) == Spans(bs)
  {
    var bs1 := if i + 1 < |bs| && !bs[i + 1].used then Joined(bs, i) else bs;
    if i + 1 < |bs| && !bs[i + 1].used {
      JoinedSpans(bs, i);
      JoinedAt(bs, i);
    }
    if i > 0 && !bs1[i - 1].used { JoinedSpans(bs1, i - 1); }
  }

  lemma {:induction false} UpdateSpans(bs: seq<Block>, i: nat, b: Block)
    requires i < |bs|
    ensures Spans(bs[i := b]) == Spans(bs) - Spans([bs[i]]) + Spans([b])
  {
    SpliceSpans(bs, i, i + 1, [b]);
    assert Splice(bs, i, i + 1, [b]) == bs[i := b];
    assert bs[i..i + 1] == [bs[i]];
  }

  // Allocation keeps the tiling, leaves no two free neighbours and adds the span of the block it gives.
  lemma {:induction false} CarvedValid(l: Layout, bs: seq<Block>, end: nat, i: nat, size: nat)
    requires Valid(l, bs, end) && i < |bs| && Fits(l, bs[i], size)
    ensures Valid(l, Carved(l, bs, i, size), end)
    ensures var r := Carved(l, bs, i, size); i < |r| && r[i].used && r[i].start == bs[i].start
    ensures var r := Carved(l, bs, i, size); i < |r| && size <= Room(l, r[i]) < size + l.header + l.min
    ensures var r := Carved(l, bs, i, size); Spans(r) == Spans(bs) + (r[i].next - r[i].start)
  {
    hide Split;
    var cut := bs[i].start + l.header + size;
    if Room(l, bs[i]) >= size + l.header + l.min {
      SplitAt(bs, i, cut);
      SplitTiles(l, bs, end, i, cut);
      SplitSpans(bs, i, cut);
    } else {
      UpdateSpans(bs, i, bs[i].(used := true));
    }
  }

  lemma {:induction false} ReleasedValid(l: Layout, bs: seq<Block>, end: nat, i: nat)
    requires Valid(l, bs, end) && i < |bs| && bs[i].used
    ensures Valid(l, Released(bs, i), end)
    ensures Spans(Released(bs, i)) == Spans(bs) - (bs[i].next - bs[i].start)
  {
    var bs1 := bs[i := bs[i].(used := false)];
    UpdateSpans(bs, i, bs[i].(used := false));
    PluggedValid(l, bs1, end, i);
    PluggedSpans(bs1, i);
  }

  lemma {:induction false} ShrunkValid(l: Layout, bs: seq<Block>, end: nat, i: nat, size: nat)
    requires Valid(l, bs, end) && i < |bs| && bs[i].used && size + l.header <= Room(l, bs[i])
    ensures Valid(l, Shrunk(l, bs, i, size), end)
    ensures Spans(Shrunk(l, bs, i, size)) == Spans(bs) - (Room(l, bs[i]) - size)
  {
    hide Split, Plugged;
    var cut := bs[i].start + l.header + size;
    SplitAt(bs, i, cut);
    SplitTiles(l, bs, end, i, cut);
    SplitSpans(bs, i, cut);
    PluggedValid(l, Split(bs, i, cut), end, i + 1);
    PluggedSpans(Split(bs, i, cut), i + 1);
  }

  // First fit is complete: nothing fits if and only if the search from the lowest free block that stops at
  // the last offset where the request could lie finds nothing.
  lemma {:induction false} SearchRange(l: Layout, bs: seq<Block>, end: nat, size: nat)
    requires Valid(l, bs, end)
    ensures forall i :: 0 <= i < |bs| && Fits(l, bs[i], size) ==>
      FirstFree(bs) <= i && bs[i].start + l.header + size <= end
  {
    FirstFreeIs(bs, FirstFree(bs));
    forall i | 0 <= i < |bs| && Fits(l, bs[i], size)
      ensures FirstFree(bs) <= i && bs[i].start + l.header + size <= end
    {
      Below(l, bs, end, i);
    }
  }

  // Freeing the block just allocated gives back the very same blocks.
  lemma {:induction false} ReleaseInvertsCarve(l: Layout, bs: seq<Block>, end: nat, i: nat, size: nat)
    requires Valid(l, bs, end) && i < |bs| && Fits(l, bs[i], size)
    ensures i < |Carved(l, bs, i, size)| && Released(Carved(l, bs, i, size), i) == bs
  {
    CarvedValid(l, bs, end, i, size);
    var r := Carved(l, bs, i, size);
    var r1 := r[i := r[i].(used := false)];
    if Room(l, bs[i]) >= size + l.header + l.min {
      assert Joined(r1, i) == bs;
    } else {
      assert r1 == bs;
    }
  }
}
