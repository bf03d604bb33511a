/** The page list of the slab allocator (src/slab.c): runs of free pages in address order. */
module PageRuns {
  import opened Lists

  datatype Run = Run(start: nat, len: nat) {
    function End(): nat { start + len }
  }

  // Runs are not empty, are in order, and leave a gap between them: no two could be one.
  ghost predicate Coalesced(runs: seq<Run>) {
    && (forall i :: 0 <= i < |runs| ==> runs[i].len > 0)
    && (forall i :: 0 <= i < |runs| - 1 ==> runs[i].End() < runs[i + 1].start)
  }

  ghost predicate IsFree(runs: seq<Run>, p: nat) {
    exists i :: 0 <= i < |runs| && Covers(runs[i], p)
  }

  predicate Covers(r: Run, p: nat) { r.start <= p < r.End() }

  ghost predicate AllFree(runs: seq<Run>, a: nat, n: nat) {
    forall p: nat :: a <= p < a + n ==> IsFree(runs, p)
  }

  ghost predicate NoneFree(runs: seq<Run>, a: nat, n: nat) {
    forall p: nat :: a <= p < a + n ==> !IsFree(runs, p)
  }

  lemma {:induction false} InOrder(runs: seq<Run>, i: nat, j: nat)
    requires Coalesced(runs) && i < j < |runs|
    ensures runs[i].start < runs[i].End() < runs[j].start
    decreases j
  {
    if i + 1 < j { InOrder(runs, i, j - 1); }
  }

  // Where the first run lies that holds n pages.
  function FirstFit(runs: seq<Run>, n: nat, i: nat): (r: nat)
    requires i <= |runs|
    ensures i <= r <= |runs| && (r < |runs| ==> runs[r].len >= n)
    ensures forall j :: i <= j < r ==> runs[j].len < n
    decreases |runs| - i
  {
    if i == |runs| || runs[i].len >= n then i else FirstFit(runs, n, i + 1)
  }

  // n pages are taken from the front of run i.
  function Cut(runs: seq<Run>, i: nat, n: nat): seq<Run>
    requires i < |runs| && n <= runs[i].len
  {
    if runs[i].len > n then runs[i := Run(runs[i].start + n, runs[i].len - n)] else Delete(runs, i)
  }

  // The number of runs that start before page a.
  function Position(runs: seq<Run>, a: nat): nat {
    if runs == [] || runs[0].start >= a then 0 else 1 + Position(runs[1..], a)
  }

  // n pages from a on are given back between runs i - 1 and i, and joined with those they touch.
  function Put(runs: seq<Run>, i: nat, a: nat, n: nat): seq<Run>
    requires i <= |runs|
  {
    var left := i > 0 && runs[i - 1].End() == a;
    var right := i < |runs| && runs[i].start == a + n;
    var start := if left then runs[i - 1].start else a;
    var end := if right then runs[i].End() else a + n;
    runs[..if left then i - 1 else i] + [Run(start, end - start)] + runs[if right then i + 1 else i..]
  }

  lemma {:induction false} CutAt(runs: seq<Run>, i: nat, n: nat, k: nat)
    requires i < |runs| && n <= runs[i].len
    ensures |Cut(runs, i, n)| == if runs[i].len > n then |runs| else |runs| - 1
    ensures k < |Cut(runs, i, n)| && runs[i].len == n ==> Cut(runs, i, n)[k] == runs[if k < i then k else k + 1]
    ensures k < |Cut(runs, i, n)| && runs[i].len > n ==>
      Cut(runs, i, n)[k] == if k == i then Run(runs[i].start + n, runs[i].len - n) else runs[k]
  {
  }

  lemma {:induction false} CutCoalesced(runs: seq<Run>, i: nat, n: nat)
    requires Coalesced(runs) && i < |runs| && 0 < n <= runs[i].len
    ensures Coalesced(Cut(runs, i, n))
  {
    hide Cut;
    if i > 0 && i + 1 < |runs| { InOrder(runs, i - 1, i + 1); }
    var r := Cut(runs, i, n);
    forall k | 0 <= k < |r| ensures r[k].len > 0 && (k + 1 < |r| ==> r[k].End() < r[k + 1].start) {
      CutAt(runs, i, n, k);
      CutAt(runs, i, n, k + 1);
    }
  }

  lemma {:induction false} CutRuns(runs: seq<Run>, i: nat, n: nat)
    requires Coalesced(runs) && i < |runs| && 0 < n <= runs[i].len
    ensures Coalesced(Cut(runs, i, n))
    ensures AllFree(runs, runs[i].start, n)
  {
    CutCoalesced(runs, i, n);
    forall p: nat | runs[i].start <= p < runs[i].start + n ensures IsFree(runs, p) { assert Covers(runs[i], p); }
  }

  lemma {:induction false} CutFrees(runs: seq<Run>, i: nat, n: nat, p: nat)
    requires Coalesced(runs) && i < |runs| && 0 < n <= runs[i].len
    ensures IsFree(Cut(runs, i, n), p) <==> IsFree(runs, p) && !(runs[i].start <= p < runs[i].start + n)
  {
    var r := Cut(runs, i, n);
    if IsFree(r, p) {
      var k :| 0 <= k < |r| && Covers(r[k], p);
      var j := if runs[i].len > n || k < i then k else k + 1;
      assert Covers(runs[j], p);
      if j < i { InOrder(runs, j, i); }
      if i < j { InOrder(runs, i, j); }
    }
    if IsFree(runs, p) && !(runs[i].start <= p < runs[i].start + n) {
      var k :| 0 <= k < |runs| && Covers(runs[k], p);
      assert Covers(r[if runs[i].len > n || k < i then k else k - 1], p);
    }
  }

  // Position i is where pages a to a + n belong.
  ghost predicate Between(runs: seq<Run>, i: nat, a: nat, n: nat) {
    && i <= |runs|
    && (i > 0 ==> runs[i - 1].End() <= a)
    && (i < |runs| ==> a + n <= runs[i].start)
  }

  // The run that holds the pages given back, and where it lies.
  function PutRun(runs: seq<Run>, i: nat, a: nat, n: nat): Run
    requires i <= |runs|
  {
    var left := i > 0 && runs[i - 1].End() == a;
    var right := i < |runs| && runs[i].start == a + n;
    var start := if left then runs[i - 1].start else a;
    Run(start, (if right && runs[i].End() > start then runs[i].End() else a + n) - start)
  }

  function PutFrom(runs: seq<Run>, i: nat, a: nat): nat
    requires i <= |runs|
  {
    if i > 0 && runs[i - 1].End() == a then i - 1 else i
  }

  function PutTo(runs: seq<Run>, i: nat, a: nat, n: nat): nat
    requires i <= |runs|
  {
    if i < |runs| && runs[i].start == a + n then i + 1 else i
  }

  lemma {:induction false} PutAt(runs: seq<Run>, i: nat, a: nat, n: nat, k: nat)
    requires Coalesced(runs) && n > 0 && Between(runs, i, a, n)
    ensures |Put(runs, i, a, n)| == |runs| + 1 - (PutTo(runs, i, a, n) - PutFrom(runs, i, a))
    ensures k < |Put(runs, i, a, n)| && k < PutFrom(runs, i, a) ==> Put(runs, i, a, n)[k] == runs[k]
    ensures k < |Put(runs, i, a, n)| && k == PutFrom(runs, i, a) ==> Put(runs, i, a, n)[k] == PutRun(runs, i, a, n)
    ensures k < |Put(runs, i, a, n)| && k > PutFrom(runs, i, a) ==>
      Put(runs, i, a, n)[k] == runs[k - PutFrom(runs, i, a) - 1 + PutTo(runs, i, a, n)]
  {
  }

  lemma {:induction false} PutRunIs(runs: seq<Run>, i: nat, a: nat, n: nat)
    requires Coalesced(runs) && n > 0 && Between(runs, i, a, n)
    ensures var r := PutRun(runs, i, a, n); var from := PutFrom(runs, i, a); var to := PutTo(runs, i, a, n);
      && r.len > 0 && r.start <= a && a + n <= r.End()
      && (from > 0 ==> runs[from - 1].End() < r.start) && (to < |runs| ==> r.End() < runs[to].start)
      && from <= to <= |runs|
      && (forall k :: from <= k < to ==> r.start <= runs[k].start && runs[k].End() <= r.End())
      && (forall p: nat :: Covers(r, p) ==> a <= p < a + n || (from < i && Covers(runs[i - 1], p)) || (i < to && Covers(runs[i], p)))
  {
    if i > 0 && i < |runs| { InOrder(runs, i - 1, i); }
  }

  lemma {:induction false} PutRuns(runs: seq<Run>, i: nat, a: nat, n: nat)
    requires Coalesced(runs) && n > 0 && Between(runs, i, a, n)
    ensures Coalesced(Put(runs, i, a, n))
  {
    hide Put, PutRun, PutFrom, PutTo;
    PutRunIs(runs, i, a, n);
    var r := Put(runs, i, a, n);
    forall k | 0 <= k < |r| ensures r[k].len > 0 && (k + 1 < |r| ==> r[k].End() < r[k + 1].start) {
      PutAt(runs, i, a, n, k);
      PutAt(runs, i, a, n, k + 1);
    }
  }

  lemma {:induction false} PutFrees(runs: seq<Run>, i: nat, a: nat, n: nat, p: nat)
    requires Coalesced(runs) && n > 0 && Between(runs, i, a, n)
    ensures IsFree(Put(runs, i, a, n), p) <==> IsFree(runs, p) || a <= p < a + n
  {
    hide Put, PutRun, PutFrom, PutTo, Coalesced;
    PutRunIs(runs, i, a, n);
    var r := Put(runs, i, a, n);
    var from, to := PutFrom(runs, i, a), PutTo(runs, i, a, n);
    PutAt(runs, i, a, n, from);
    if IsFree(r, p) && !(a <= p < a + n) {
      var k :| 0 <= k < |r| && Covers(r[k], p);
      PutAt(runs, i, a, n, k);
      if k < from { assert Covers(runs[k], p); }
      if k > from { assert Covers(runs[k - from - 1 + to], p); }
    }
    if a <= p < a + n { assert Covers(r[from], p); }
    if IsFree(runs, p) {
      var k :| 0 <= k < |runs| && Covers(runs[k], p);
      var j := if k < from then k else if k < to then from else k - to + from + 1;
      PutAt(runs, i, a, n, j);
      assert Covers(r[j], p);
    }
  }

  lemma {:induction false} CoverFree(runs: seq<Run>, k: nat, p: nat)
    requires k < |runs|
    ensures Covers(runs[k], p) ==> IsFree(runs, p)
  {
  }

  lemma {:induction false} PositionIs(runs: seq<Run>, a: nat, i: nat)
    requires Coalesced(runs) && i <= |runs|
    requires i > 0 ==> runs[i - 1].start < a
    requires i < |runs| ==> a <= runs[i].start
    ensures Position(runs, a) == i
  {
    if runs != [] && runs[0].start < a {
      if i == 0 { assert false; }
      var rest := runs[1..];
      assert forall k :: 0 <= k < |rest| ==> rest[k] == runs[k + 1];
      PositionIs(rest, a, i - 1);
    } else if i > 1 {
      InOrder(runs, 0, i - 1);
    }
  }

  // A sequence of n free pages lies in one run, so the search for a run is the search for such pages.
  lemma {:induction false} FreePagesInOneRun(runs: seq<Run>, a: nat, n: nat) returns (i: nat)
    requires Coalesced(runs) && AllFree(runs, a, n) && n > 0
    ensures i < |runs| && runs[i].start <= a && a + n <= runs[i].End()
  {
    assert IsFree(runs, a);
    i :| 0 <= i < |runs| && Covers(runs[i], a);
    if runs[i].End() < a + n {
      var p := runs[i].End();
      assert IsFree(runs, p);
      var j :| 0 <= j < |runs| && Covers(runs[j], p);
      if j < i { InOrder(runs, j, i); }
      if i < j { InOrder(runs, i, j); }
      assert false;
    }
  }

  // The runs are determined by which pages are free.
  lemma {:induction false} SameFreeSameRuns(r1: seq<Run>, r2: seq<Run>)
    requires Coalesced(r1) && Coalesced(r2) && forall p: nat :: IsFree(r1, p) <==> IsFree(r2, p)
    ensures r1 == r2
  {
    if r1 != [] {
      FirstPage(r1);
      assert IsFree(r2, r1[0].start);
      FirstPage(r2);
      SameFirst(r1, r2);
      SameFirst(r2, r1);
      TailFree(r1);
      TailFree(r2);
      SameFreeSameRuns(r1[1..], r2[1..]);
    } else if r2 != [] {
      FirstPage(r2);
    }
  }

  lemma {:induction false} FirstPage(r: seq<Run>)
    requires Coalesced(r) && r != []
    ensures IsFree(r, r[0].start)
    ensures forall p: nat :: IsFree(r, p) ==> r[0].start <= p
    ensures !IsFree(r, r[0].End())
  {
    assert Covers(r[0], r[0].start);
    forall p: nat | IsFree(r, p) ensures r[0].start <= p && p != r[0].End() {
      var k :| 0 <= k < |r| && Covers(r[k], p);
      if k > 0 { InOrder(r, 0, k); }
    }
  }

  lemma {:induction false} SameFirst(r1: seq<Run>, r2: seq<Run>)
    requires Coalesced(r1) && Coalesced(r2) && r1 != [] && r2 != [] && forall p: nat :: IsFree(r1, p) <==> IsFree(r2, p)
    ensures r1[0].start == r2[0].start && r1[0].len <= r2[0].len
  {
    FirstPage(r1);
    FirstPage(r2);
    assert IsFree(r2, r1[0].start) && IsFree(r1, r2[0].start);
    if r2[0].End() < r1[0].End() { assert Covers(r1[0], r2[0].End()); }
  }

  lemma {:induction false} TailFree(r: seq<Run>)
    requires Coalesced(r) && r != []
    ensures Coalesced(r[1..])
    ensures forall p: nat :: IsFree(r[1..], p) <==> IsFree(r, p) && !Covers(r[0], p)
  {
    forall p: nat ensures IsFree(r[1..], p) <==> IsFree(r, p) && !Covers(r[0], p) {
      if IsFree(r[1..], p) {
        var k :| 0 <= k < |r[1..]| && Covers(r[1..][k], p);
        assert Covers(r[k + 1], p);
        InOrder(r, 0, k + 1);
      }
      if IsFree(r, p) && !Covers(r[0], p) {
        var k :| 0 <= k < |r| && Covers(r[k], p);
        assert Covers(r[1..][k - 1], p);
      }
    }
  }

  // Giving the pages just taken back gives the very same list.
  lemma {:induction false} PutInvertsCut(runs: seq<Run>, i: nat, n: nat, j: nat)
    requires Coalesced(runs) && i < |runs| && 0 < n <= runs[i].len
    requires Between(Cut(runs, i, n), j, runs[i].start, n)
    ensures Put(Cut(runs, i, n), j, runs[i].start, n) == runs
  {
    hide Cut, Put;
    var cut := Cut(runs, i, n);
    CutRuns(runs, i, n);
    PutRuns(cut, j, runs[i].start, n);
    forall p: nat ensures IsFree(Put(cut, j, runs[i].start, n), p) <==> IsFree(runs, p) {
      CutFrees(runs, i, n, p);
      PutFrees(cut, j, runs[i].start, n, p);
      if runs[i].start <= p < runs[i].start + n { assert Covers(runs[i], p); }
    }
    SameFreeSameRuns(Put(cut, j, runs[i].start, n), runs);
  }
}
