/** The ready index of the schedulers (src/scheduler_up.c, src/scheduler_mp.c): one list of ready
    threads for each priority, and a bitmap that says which lists are not empty. With more than 32
    priorities the bitmap has two levels: a byte for each group of eight priorities, and one word with
    a bit for each byte that is not zero. `max` is RT_THREAD_PRIORITY_MAX. */
module ReadyTables {
  import opened BitScan
  import opened Lists

  type ThreadId = nat

  // A thread's priority with the masks that rt_thread_startup and rt_thread_control derive from it.
  datatype Rank = Rank(priority: nat, number: nat, numberMask: Word, highMask: Word)

  function RankOf(max: nat, p: nat): Rank {
    if max > 32 then Rank(p, p / 8, Mask(p / 8), Mask(p % 8)) else Rank(p, 0, Mask(p), ZERO)
  }

  datatype Table = Table(queues: seq<seq<ThreadId>>, group: Word, high: seq<Word>)

  function Empty(max: nat): Table {
    Table(seq(max, i => []), ZERO, seq(32, i => ZERO))
  }

  predicate Shaped(max: nat, t: Table) {
    0 < max <= 256 && |t.queues| == max && |t.high| == 32
  }

  // The bit for priority p: in one word, or in byte p / 8 of the table.
  predicate Marked(max: nat, t: Table, p: nat)
    requires Shaped(max, t)
  {
    if max > 32 then p < 256 && Bit(t.high[p / 8], p % 8) else Bit(t.group, p)
  }

  predicate Waiting(max: nat, t: Table, p: nat)
    requires Shaped(max, t)
  {
    p < max && t.queues[p] != []
  }

  // A byte of the table has no bit above the eighth.
  ghost predicate IsByte(w: Word) {
    forall k: nat :: Bit(w, k) ==> k < 8
  }

  // The index agrees with the lists.
  ghost predicate Agrees(max: nat, t: Table) {
    && Shaped(max, t)
    && (forall p: nat :: Marked(max, t, p) <==> Waiting(max, t, p))
    && (max > 32 ==> forall n: nat :: n < 32 ==> IsByte(t.high[n]) && (Bit(t.group, n) <==> t.high[n] != ZERO))
  }

  // rt_list_insert_after or _before the head of the list of the thread's priority, then the masks.
  function Inserted(max: nat, t: Table, r: Rank, thread: ThreadId, last: bool): Table
    requires Shaped(max, t) && r.priority < max && r.number < 32
  {
    var q := t.queues[r.priority];
    t.(queues := t.queues[r.priority := if last then q + [thread] else [thread] + q],
       high := if max > 32 then t.high[r.number := Or(t.high[r.number], r.highMask)] else t.high,
       group := Or(t.group, r.numberMask))
  }

  // rt_list_remove, then the masks if the list of the thread's priority is empty.
  function Removed(max: nat, t: Table, r: Rank, thread: ThreadId): Table
    requires Shaped(max, t) && r.priority < max && r.number < 32
  {
    var q := Without(t.queues[r.priority], thread);
    var queues := t.queues[r.priority := q];
    if q != [] then t.(queues := queues)
    else if max > 32 then
      var byte := AndNot(t.high[r.number], r.highMask);
      Table(queues, if byte == ZERO then AndNot(t.group, r.numberMask) else t.group, t.high[r.number := byte])
    else t.(queues := queues, group := AndNot(t.group, r.numberMask))
  }

  lemma {:induction false} EmptyAgrees(max: nat)
    requires 0 < max <= 256
    ensures Agrees(max, Empty(max))
  {
    hide Bit;
    forall k: nat ensures !Bit(ZERO, k) { ZeroHasNoBit(k); }
  }

  lemma {:induction false} InsertKeeps(max: nat, t: Table, p: nat, thread: ThreadId, last: bool)
    requires Agrees(max, t) && p < max
    ensures Agrees(max, Inserted(max, t, RankOf(max, p), thread, last))
  {
    hide Bit, Mask, Or;
    var t1 := Inserted(max, t, RankOf(max, p), thread, last);
    forall q: nat ensures Marked(max, t1, q) <==> Waiting(max, t1, q) {
      assert Marked(max, t, q) <==> Waiting(max, t, q);
      if max <= 32 {
        UpdateBit(t.group, p, q);
      } else if q < 256 {
        UpdateBit(t.high[p / 8], p % 8, q % 8);
      }
    }
    if max > 32 {
      forall n: nat | n < 32 ensures IsByte(t1.high[n]) && (Bit(t1.group, n) <==> t1.high[n] != ZERO) {
        assert IsByte(t.high[n]);
        UpdateBit(t.group, p / 8, n);
        forall k: nat | Bit(t1.high[n], k) ensures k < 8 { UpdateBit(t.high[n], p % 8, k); }
        UpdateBit(t.high[n], p % 8, p % 8);
        ZeroHasNoBit(p % 8);
      }
    }
  }

  lemma {:induction false} RemoveKeeps(max: nat, t: Table, p: nat, thread: ThreadId)
    requires Agrees(max, t) && p < max
    ensures Agrees(max, Removed(max, t, RankOf(max, p), thread))
  {
    hide Bit, Mask, AndNot;
    var t1 := Removed(max, t, RankOf(max, p), thread);
    assert Without([], thread) == [];
    forall q: nat ensures Marked(max, t1, q) <==> Waiting(max, t1, q) {
      assert Marked(max, t, q) <==> Waiting(max, t, q);
      assert Marked(max, t, p) <==> Waiting(max, t, p);
      if max <= 32 {
        UpdateBit(t.group, p, q);
      } else if q < 256 {
        UpdateBit(t.high[p / 8], p % 8, q % 8);
      }
    }
    if max > 32 {
      forall n: nat | n < 32 ensures IsByte(t1.high[n]) && (Bit(t1.group, n) <==> t1.high[n] != ZERO) {
        assert IsByte(t.high[n]);
        UpdateBit(t.group, p / 8, n);
        forall k: nat | Bit(t1.high[n], k) ensures k < 8 { UpdateBit(t.high[n], p % 8, k); }
        NothingToClear(p % 8);
      }
    }
  }

  lemma {:induction false} NothingToClear(k: nat)
    ensures AndNot(ZERO, Mask(k)) == ZERO
  {
    hide Mask;
  }

  // _scheduler_get_highest_priority_thread: the priority it finds, through either `__rt_ffs`.
  function Highest(max: nat, t: Table): int
    requires Shaped(max, t)
  {
    var number := Ffs(t.group) - 1;
    if max > 32 then if 0 <= number < 32 then number * 8 + Ffs(t.high[number]) - 1 else number
    else number
  }

  lemma {:induction false} HighestIsLeast(max: nat, t: Table)
    requires Agrees(max, t)
    ensures t.group == ZERO <==> forall p: nat :: !Waiting(max, t, p)
    ensures t.group == ZERO ==> Highest(max, t) == -1
    ensures t.group != ZERO ==> Highest(max, t) >= 0 && Waiting(max, t, Highest(max, t))
    ensures forall p: nat :: Waiting(max, t, p) ==> Highest(max, t) <= p
  {
    hide Bit, Ffs;
    var h := Highest(max, t);
    FfsFindsLowest(t.group);
    if t.group != ZERO {
      var n := Ffs(t.group) - 1;
      BitBelow(t.group, n);
      if max > 32 {
        FfsFindsLowest(t.high[n]);
        assert IsByte(t.high[n]);
        var k := Ffs(t.high[n]) - 1;
        assert h / 8 == n && h % 8 == k;
      }
      assert Marked(max, t, h);
    }
    forall p: nat | Waiting(max, t, p) ensures t.group != ZERO && h <= p {
      assert Marked(max, t, p);
      if max > 32 {
        FfsFindsLowest(t.high[p / 8]);
        assert Bit(t.group, p / 8);
      }
    }
  }

  lemma {:induction false} BitBelow(w: Word, k: nat)
    requires Bit(w, k)
    ensures k < 32
  {
  }
}
