/** The multi-processor scheduler (src/scheduler_mp.c) with at most 32 priorities: a ready table shared by
    all processors, one more for each processor, and the thread each processor runs. Everything here
    happens with the lock of all processors held, so each operation is one step. */
module MpModel {
  import opened Arithmetic
  import opened BitScan
  import opened Lists
  import opened ReadyTables

  type CpuId = nat

  datatype Stat = Suspended | Ready | Running

  // `bind` is a processor, or their number for a thread that may run on any of them.
  datatype Thread = Thread(stat: Stat, yielding: bool, priority: nat, bind: nat, oncpu: OnCpu)

  datatype OnCpu = Detached | On(cpu: CpuId)

  // tables[c] is the table of processor c; the last one is shared.
  datatype State = State(max: nat, tables: seq<Table>, threads: map<ThreadId, Thread>, current: seq<ThreadId>)
  {
    function Cpus(): nat { |current| }
  }

  predicate ReadyAt(threads: map<ThreadId, Thread>, t: ThreadId, b: nat, p: nat) {
    t in threads && threads[t].stat == Ready && threads[t].bind == b && threads[t].priority == p
  }

  ghost predicate Holds(threads: map<ThreadId, Thread>, out: set<ThreadId>, b: nat, p: nat, q: seq<ThreadId>) {
    NoDuplicates(q) && forall t: ThreadId :: t in q <==> t !in out && ReadyAt(threads, t, b, p)
  }

  ghost predicate TableHolds(max: nat, threads: map<ThreadId, Thread>, out: set<ThreadId>, b: nat, t: Table) {
    Agrees(max, t) && forall p: nat :: p < max ==> Holds(threads, out, b, p, t.queues[p])
  }

  // A thread is in the table it is bound to, on the list of its priority, if and only if it is ready;
  // so it is on at most one list. The threads in `out` are between lists.
  ghost predicate ListedBut(s: State, out: set<ThreadId>) {
    forall b: nat :: b < |s.tables| ==> TableHolds(s.max, s.threads, out, b, s.tables[b])
  }

  ghost predicate Bounded(s: State) {
    && 0 < s.max <= 32
    && |s.tables| == s.Cpus() + 1
    && (forall t: ThreadId :: t in s.threads ==> s.threads[t].priority < s.max && s.threads[t].bind <= s.Cpus())
  }

  predicate ThreadPlaced(current: seq<ThreadId>, t: ThreadId, x: Thread) {
    && (x.oncpu.On? ==> x.oncpu.cpu < |current| && current[x.oncpu.cpu] == t)
    && (x.stat == Running ==> x.oncpu.On?)
    && (x.stat == Ready ==> x.oncpu.Detached?)
  }

  // Each processor runs one thread, and a thread is on the processor that runs it and no other.
  ghost predicate Placed(s: State) {
    && (forall c: CpuId :: c < s.Cpus() ==> s.current[c] in s.threads && s.threads[s.current[c]].oncpu == On(c))
    && (forall t: ThreadId :: t in s.threads ==> ThreadPlaced(s.current, t, s.threads[t]))
  }

  ghost predicate Valid(s: State) {
    Bounded(s) && ListedBut(s, {}) && Placed(s)
  }

  function WithThread(s: State, t: ThreadId, x: Thread): State {
    s.(threads := s.threads[t := x])
  }

  // rt_schedule_insert_thread: a thread still on a processor is not put on a list.
  ghost function AfterInsert(s: State, t: ThreadId): State
    requires Bounded(s) && t in s.threads
    requires forall b: nat :: b < |s.tables| ==> Shaped(s.max, s.tables[b])
  {
    var x := s.threads[t];
    if x.oncpu != Detached then WithThread(s, t, x.(stat := Running))
    else
      WithThread(s, t, x.(stat := Ready)).(tables :=
        s.tables[x.bind := Inserted(s.max, s.tables[x.bind], RankOf(s.max, x.priority), t, x.yielding)])
  }

  // rt_schedule_remove_thread.
  ghost function AfterRemove(s: State, t: ThreadId): State
    requires Bounded(s) && t in s.threads
    requires forall b: nat :: b < |s.tables| ==> Shaped(s.max, s.tables[b])
  {
    var x := s.threads[t];
    s.(tables := s.tables[x.bind := Removed(s.max, s.tables[x.bind], RankOf(s.max, x.priority), t)])
  }

  lemma {:induction false} ListedShapes(s: State, out: set<ThreadId>)
    requires ListedBut(s, out)
    ensures forall b: nat :: b < |s.tables| ==> Shaped(s.max, s.tables[b])
  {
    forall b: nat | b < |s.tables| ensures Shaped(s.max, s.tables[b]) {
      assert TableHolds(s.max, s.threads, out, b, s.tables[b]);
    }
  }

  // The table thread t goes into.
  lemma {:induction false} InsertTable(max: nat, threads: map<ThreadId, Thread>, t: ThreadId, table: Table)
    requires max <= 32 && t in threads && threads[t].priority < max
    requires TableHolds(max, threads, {t}, threads[t].bind, table)
    ensures var x := threads[t];
      TableHolds(max, threads[t := x.(stat := Ready)], {}, x.bind, Inserted(max, table, RankOf(max, x.priority), t, x.yielding))
  {
    hide NoDuplicates, Agrees;
    AgreesIsShaped(max, table);
    var x := threads[t];
    var threads1 := threads[t := x.(stat := Ready)];
    var table1 := Inserted(max, table, RankOf(max, x.priority), t, x.yielding);
    InsertKeeps(max, table, x.priority, t, x.yielding);
    assert Holds(threads, {t}, x.bind, x.priority, table.queues[x.priority]);
    EndMembers(table.queues[x.priority], t, x.yielding);
    forall p: nat | p < max ensures Holds(threads1, {}, x.bind, p, table1.queues[p]) {
      assert Holds(threads, {t}, x.bind, p, table.queues[p]);
    }
  }

  // Any other table.
  lemma {:induction false} OtherTable(max: nat, threads: map<ThreadId, Thread>, t: ThreadId, x: Thread, b: nat, table: Table)
    requires t in threads && TableHolds(max, threads, {t}, b, table)
    ensures TableHolds(max, threads[t := x], {t}, b, table)
    ensures x.bind != b || x.stat != Ready ==> TableHolds(max, threads[t := x], {}, b, table)
  {
    hide NoDuplicates, Agrees;
    AgreesIsShaped(max, table);
    forall p: nat | p < max
      ensures Holds(threads[t := x], {t}, b, p, table.queues[p])
      ensures x.bind != b || x.stat != Ready ==> Holds(threads[t := x], {}, b, p, table.queues[p])
    {
      assert Holds(threads, {t}, b, p, table.queues[p]);
    }
  }

  lemma {:induction false} AgreesIsShaped(max: nat, table: Table)
    requires Agrees(max, table)
    ensures Shaped(max, table)
  {
  }

  lemma {:induction false} InsertLists(s: State, t: ThreadId)
    requires Bounded(s) && t in s.threads && s.threads[t].oncpu == Detached && ListedBut(s, {t})
    ensures forall b: nat :: b < |s.tables| ==> Shaped(s.max, s.tables[b])
    ensures ListedBut(AfterInsert(s, t), {})
  {
    hide TableHolds, Inserted, RankOf;
    ListedShapes(s, {t});
    var x := s.threads[t];
    var s1 := AfterInsert(s, t);
    forall b: nat | b < |s1.tables| ensures TableHolds(s1.max, s1.threads, {}, b, s1.tables[b]) {
      assert TableHolds(s.max, s.threads, {t}, b, s.tables[b]);
      if b == x.bind {
        InsertTable(s.max, s.threads, t, s.tables[b]);
      } else {
        OtherTable(s.max, s.threads, t, x.(stat := Ready), b, s.tables[b]);
      }
    }
  }

  lemma {:induction false} RemoveUnlists(s: State, t: ThreadId)
    requires Bounded(s) && t in s.threads && ListedBut(s, {})
    ensures forall b: nat :: b < |s.tables| ==> Shaped(s.max, s.tables[b])
    ensures ListedBut(AfterRemove(s, t), {t})
  {
    hide NoDuplicates, Agrees;
    ListedShapes(s, {});
    var x := s.threads[t];
    var s1 := AfterRemove(s, t);
    assert TableHolds(s.max, s.threads, {}, x.bind, s.tables[x.bind]);
    RemoveKeeps(s.max, s.tables[x.bind], x.priority, t);
    assert Holds(s.threads, {}, x.bind, x.priority, s.tables[x.bind].queues[x.priority]);
    WithoutMembers(s.tables[x.bind].queues[x.priority], t);
    forall b: nat | b < |s1.tables| ensures TableHolds(s1.max, s1.threads, {t}, b, s1.tables[b]) {
      assert TableHolds(s.max, s.threads, {}, b, s.tables[b]);
      forall p: nat | p < s.max ensures Holds(s1.threads, {t}, b, p, s1.tables[b].queues[p]) {
        assert Holds(s.threads, {}, b, p, s.tables[b].queues[p]);
      }
    }
  }

  // A thread on no list may change in any way, and is listed again once it is not ready.
  lemma {:induction false} OffList(s: State, t: ThreadId, x: Thread)
    requires t in s.threads && ListedBut(s, {t})
    ensures ListedBut(WithThread(s, t, x), {t})
    ensures x.stat != Ready ==> ListedBut(WithThread(s, t, x), {})
  {
    hide TableHolds;
    forall b: nat | b < |s.tables|
      ensures TableHolds(s.max, s.threads[t := x], {t}, b, s.tables[b])
      ensures x.stat != Ready ==> TableHolds(s.max, s.threads[t := x], {}, b, s.tables[b])
    {
      assert TableHolds(s.max, s.threads, {t}, b, s.tables[b]);
      OtherTable(s.max, s.threads, t, x, b, s.tables[b]);
    }
  }

  // A change that leaves a thread where it is leaves every thread placed.
  lemma {:induction false} StillPlaced(s: State, r: State, t: ThreadId, x: Thread)
    requires Placed(s) && r.current == s.current && r.threads == s.threads[t := x]
    requires ThreadPlaced(s.current, t, x) && (t in s.threads ==> x.oncpu == s.threads[t].oncpu)
    ensures Placed(r)
  {
  }

  lemma {:induction false} NotReadyIsOff(s: State, t: ThreadId)
    requires ListedBut(s, {}) && t in s.threads && s.threads[t].stat != Ready
    ensures ListedBut(s, {t})
  {
    hide NoDuplicates, Agrees;
    ListedShapes(s, {});
    forall b: nat | b < |s.tables| ensures TableHolds(s.max, s.threads, {t}, b, s.tables[b]) {
      assert TableHolds(s.max, s.threads, {}, b, s.tables[b]);
      forall p: nat | p < s.max ensures Holds(s.threads, {t}, b, p, s.tables[b].queues[p]) {
        assert Holds(s.threads, {}, b, p, s.tables[b].queues[p]);
      }
    }
  }

  // The yield mark and the processor of a thread are no part of the lists.
  lemma {:induction false} SameLists(s: State, t: ThreadId, x: Thread, out: set<ThreadId>)
    requires t in s.threads && ListedBut(s, out)
    requires var y := s.threads[t]; x.stat == y.stat && x.priority == y.priority && x.bind == y.bind
    ensures ListedBut(WithThread(s, t, x), out)
  {
    hide NoDuplicates, Agrees;
    ListedShapes(s, out);
    var threads := s.threads[t := x];
    forall b: nat | b < |s.tables| ensures TableHolds(s.max, threads, out, b, s.tables[b]) {
      assert TableHolds(s.max, s.threads, out, b, s.tables[b]);
      forall p: nat | p < s.max ensures Holds(threads, out, b, p, s.tables[b].queues[p]) {
        assert Holds(s.threads, out, b, p, s.tables[b].queues[p]);
      }
    }
  }

  // A priority as the unsigned word the code compares: no ready thread gives the largest word.
  function Unsigned(h: int): int {
    if h < 0 then h + 0x1_0000_0000 else h
  }

  predicate SomethingReady(s: State, c: CpuId)
    requires |s.tables| == s.Cpus() + 1 && c < s.Cpus()
  {
    s.tables[s.Cpus()].group != ZERO || s.tables[c].group != ZERO
  }

  // _scheduler_get_highest_priority_thread: the table it takes the thread from.
  ghost function PickTable(s: State, c: CpuId): nat
    requires Valid(s) && c < s.Cpus()
  {
    ListedShapes(s, {});
    var shared := Unsigned(Highest(s.max, s.tables[s.Cpus()]));
    var local := Unsigned(Highest(s.max, s.tables[c]));
    if shared < local then s.Cpus() else c
  }

  // A processor may run the threads bound to it and those bound to none.
  predicate MayRun(s: State, c: CpuId, t: ThreadId)
    requires t in s.threads
  {
    s.threads[t].bind == c || s.threads[t].bind == s.Cpus()
  }

  lemma {:induction false} ReadyIsMarked(s: State, t: ThreadId)
    requires Valid(s) && t in s.threads && s.threads[t].stat == Ready
    ensures Shaped(s.max, s.tables[s.threads[t].bind])
    ensures Waiting(s.max, s.tables[s.threads[t].bind], s.threads[t].priority)
    ensures t in s.tables[s.threads[t].bind].queues[s.threads[t].priority]
  {
    hide Agrees, NoDuplicates;
    ListedShapes(s, {});
    var x := s.threads[t];
    assert TableHolds(s.max, s.threads, {}, x.bind, s.tables[x.bind]);
    assert Holds(s.threads, {}, x.bind, x.priority, s.tables[x.bind].queues[x.priority]);
    assert ReadyAt(s.threads, t, x.bind, x.priority);
  }

  lemma {:induction false} HeadIsReady(s: State, b: nat, p: nat)
    requires Valid(s) && b < |s.tables| && Shaped(s.max, s.tables[b]) && Waiting(s.max, s.tables[b], p)
    ensures var t := s.tables[b].queues[p][0]; ReadyAt(s.threads, t, b, p) && s.threads[t].oncpu == Detached
  {
    hide Agrees, NoDuplicates;
    assert TableHolds(s.max, s.threads, {}, b, s.tables[b]);
    assert Holds(s.threads, {}, b, p, s.tables[b].queues[p]);
    assert s.tables[b].queues[p][0] in s.tables[b].queues[p];
  }

  // The thread picked is ready, may run on this processor, and no such thread outranks it.
  lemma {:induction false} PickIsLeast(s: State, c: CpuId)
    requires Valid(s) && c < s.Cpus() && SomethingReady(s, c)
    ensures PickTable(s, c) in {c, s.Cpus()}
    ensures var b := PickTable(s, c); b < |s.tables| && Shaped(s.max, s.tables[b]) && s.tables[b].group != ZERO
    ensures var b := PickTable(s, c); var h := Highest(s.max, s.tables[b]);
      h >= 0 && Waiting(s.max, s.tables[b], h) && ReadyAt(s.threads, s.tables[b].queues[h][0], b, h)
    ensures var h := Highest(s.max, s.tables[PickTable(s, c)]);
      forall t: ThreadId :: t in s.threads && s.threads[t].stat == Ready && MayRun(s, c, t) ==> h <= s.threads[t].priority
  {
    hide Agrees, NoDuplicates, Highest, ListedBut;
    ListedShapes(s, {});
    var n := s.Cpus();
    var b := PickTable(s, c);
    AgreesAt(s, n);
    AgreesAt(s, c);
    HighestIsLeast(s.max, s.tables[n]);
    HighestIsLeast(s.max, s.tables[c]);
    var h := Highest(s.max, s.tables[b]);
    HeadIsReady(s, b, h);
    forall t: ThreadId | t in s.threads && s.threads[t].stat == Ready && MayRun(s, c, t) ensures h <= s.threads[t].priority {
      ReadyIsMarked(s, t);
      assert Waiting(s.max, s.tables[s.threads[t].bind], s.threads[t].priority);
    }
  }

  lemma {:induction false} AgreesAt(s: State, b: nat)
    requires ListedBut(s, {}) && b < |s.tables|
    ensures Agrees(s.max, s.tables[b])
  {
    assert TableHolds(s.max, s.threads, {}, b, s.tables[b]);
  }

  // Whether the thread on processor c stays there when the best ready priority is h.
  predicate Stays(s: State, c: CpuId, h: int)
    requires c < s.Cpus() && s.current[c] in s.threads
  {
    var x := s.threads[s.current[c]];
    && x.stat == Running && MayRun(s, c, s.current[c])
    && (x.priority < h || (x.priority == h && !x.yielding))
  }

  // The thread on processor c leaves it; a running one goes to its list, and loses its yield mark after.
  ghost function TakenOff(s: State, c: CpuId): State
    requires Valid(s) && c < s.Cpus()
  {
    ListedShapes(s, {});
    var cur := s.current[c];
    var s1 := WithThread(s, cur, s.threads[cur].(oncpu := Detached));
    if s.threads[cur].stat != Running then s1
    else
      var s2 := AfterInsert(s1, cur);
      WithThread(s2, cur, s2.threads[cur].(yielding := false))
  }

  // `to` is taken from its list onto processor c.
  ghost function PutOn(s: State, c: CpuId, to: ThreadId): State
    requires Bounded(s) && ListedBut(s, {}) && c < s.Cpus() && to in s.threads
  {
    ListedShapes(s, {});
    var s1 := WithThread(s, to, s.threads[to].(oncpu := On(c)));
    assert Bounded(s1);
    var s2 := AfterRemove(s1, to);
    WithThread(s2, to, s2.threads[to].(stat := Running)).(current := s.current[c := to])
  }

  // What rt_schedule and rt_scheduler_do_irq_switch do on processor c once they may switch.
  ghost function AfterSchedule(s: State, c: CpuId): State
    requires Valid(s) && c < s.Cpus()
  {
    if !SomethingReady(s, c) then s
    else
      PickIsLeast(s, c);
      var b := PickTable(s, c);
      var h := Highest(s.max, s.tables[b]);
      var cur := s.current[c];
      if Stays(s, c, h) then WithThread(s, cur, s.threads[cur].(yielding := false))
      else
        var to := s.tables[b].queues[h][0];
        TakenOffLists(s, c);
        PutOn(TakenOff(s, c), c, to)
  }

  lemma {:induction false} TakenOffLists(s: State, c: CpuId)
    requires Valid(s) && c < s.Cpus()
    ensures Bounded(TakenOff(s, c)) && ListedBut(TakenOff(s, c), {})
    ensures TakenOff(s, c).current == s.current && TakenOff(s, c).max == s.max
    ensures var cur := s.current[c]; var x := s.threads[cur];
      TakenOff(s, c).threads == s.threads[cur :=
        if x.stat == Running then x.(oncpu := Detached, stat := Ready, yielding := false) else x.(oncpu := Detached)]
  {
    hide ListedBut;
    var cur := s.current[c];
    var x := s.threads[cur].(oncpu := Detached);
    NotReadyIsOff(s, cur);
    SameLists(s, cur, x, {});
    SameLists(s, cur, x, {cur});
    ListedShapes(s, {});
    var s1 := WithThread(s, cur, x);
    if x.stat == Running {
      InsertLists(s1, cur);
      var s2 := AfterInsert(s1, cur);
      SameLists(s2, cur, s2.threads[cur].(yielding := false), {});
    }
  }

  lemma {:induction false} PutOnLists(s: State, c: CpuId, to: ThreadId)
    requires Bounded(s) && ListedBut(s, {}) && c < s.Cpus() && to in s.threads
    ensures Bounded(PutOn(s, c, to)) && ListedBut(PutOn(s, c, to), {})
    ensures PutOn(s, c, to).current == s.current[c := to] && PutOn(s, c, to).max == s.max
    ensures PutOn(s, c, to).threads == s.threads[to := s.threads[to].(oncpu := On(c), stat := Running)]
  {
    hide ListedBut;
    var s1 := WithThread(s, to, s.threads[to].(oncpu := On(c)));
    SameLists(s, to, s1.threads[to], {});
    ListedShapes(s, {});
    RemoveUnlists(s1, to);
    var s2 := AfterRemove(s1, to);
    OffList(s2, to, s2.threads[to].(stat := Running));
    CurrentApart(WithThread(s2, to, s2.threads[to].(stat := Running)), s.current[c := to]);
  }

  lemma {:induction false} CurrentApart(s: State, current: seq<ThreadId>)
    requires ListedBut(s, {})
    ensures ListedBut(s.(current := current), {})
  {
  }

  // No ready thread that processor c may run outranks the thread on it.
  ghost predicate NoneOutranks(s: State, c: CpuId)
    requires c < s.Cpus() && s.current[c] in s.threads
  {
    forall t: ThreadId :: t in s.threads && s.threads[t].stat == Ready && MayRun(s, c, t) ==>
      && s.threads[s.current[c]].stat == Running && MayRun(s, c, s.current[c])
      && s.threads[s.current[c]].priority <= s.threads[t].priority
  }

  // The threads after processor c goes from the one it runs to `to`.
  function SwitchedThreads(s: State, c: CpuId, to: ThreadId): map<ThreadId, Thread>
    requires c < s.Cpus() && s.current[c] in s.threads && to in s.threads
  {
    var cur := s.current[c];
    var x := s.threads[cur];
    s.threads[cur := if x.stat == Running then x.(oncpu := Detached, stat := Ready, yielding := false)
                     else x.(oncpu := Detached)]
             [to := s.threads[to].(oncpu := On(c), stat := Running)]
  }

  lemma {:induction false} SwitchedPlaced(s: State, c: CpuId, to: ThreadId, r: State)
    requires Placed(s) && c < s.Cpus() && to in s.threads && s.threads[to].oncpu == Detached
    requires r.threads == SwitchedThreads(s, c, to) && r.current == s.current[c := to]
    ensures Placed(r)
  {
    var cur := s.current[c];
    assert cur != to && r.threads[to].oncpu == On(c) && r.threads[cur].oncpu == Detached;
    forall t: ThreadId | t in r.threads && t != to && t != cur ensures r.threads[t] == s.threads[t] { }
  }

  lemma {:induction false} SwitchedOutranks(s: State, c: CpuId, to: ThreadId, r: State, h: int)
    requires c < s.Cpus() && s.current[c] in s.threads && to in s.threads && s.current[c] != to
    requires r.threads == SwitchedThreads(s, c, to) && r.current == s.current[c := to]
    requires !Stays(s, c, h) && MayRun(s, c, to) && s.threads[to].priority == h
    requires forall t: ThreadId :: t in s.threads && s.threads[t].stat == Ready && MayRun(s, c, t) ==> h <= s.threads[t].priority
    ensures NoneOutranks(r, c)
  {
    forall t: ThreadId | t in r.threads && r.threads[t].stat == Ready && MayRun(r, c, t) ensures h <= r.threads[t].priority {
      if t != s.current[c] { assert s.threads[t] == r.threads[t]; }
    }
  }

  // When the thread on processor c does not stay, the best ready one takes its place.
  lemma {:induction false} ScheduleSwitches(s: State, c: CpuId, to: ThreadId)
    requires Valid(s) && c < s.Cpus() && SomethingReady(s, c)
    requires Shaped(s.max, s.tables[PickTable(s, c)])
    requires var b := PickTable(s, c); var h := Highest(s.max, s.tables[b]);
      h >= 0 && Waiting(s.max, s.tables[b], h) && to == s.tables[b].queues[h][0] && !Stays(s, c, h)
    ensures var r := AfterSchedule(s, c);
      && Bounded(r) && ListedBut(r, {})
      && to in s.threads && s.threads[to].oncpu == Detached
      && r.threads == SwitchedThreads(s, c, to) && r.current == s.current[c := to] && r.max == s.max
    ensures Bounded(TakenOff(s, c)) && ListedBut(TakenOff(s, c), {}) && TakenOff(s, c).Cpus() == s.Cpus()
    ensures to in TakenOff(s, c).threads && AfterSchedule(s, c) == PutOn(TakenOff(s, c), c, to)
  {
    hide ListedBut, TakenOff, PutOn, Highest, PickTable;
    PickIsLeast(s, c);
    var b := PickTable(s, c);
    var h := Highest(s.max, s.tables[b]);
    HeadIsReady(s, b, h);
    TakenOffLists(s, c);
    PutOnLists(TakenOff(s, c), c, to);
  }

  lemma {:induction false} MarkPlaced(s: State, t: ThreadId, yielding: bool)
    requires Placed(s) && t in s.threads
    ensures Placed(WithThread(s, t, s.threads[t].(yielding := yielding)))
  {
  }

  lemma {:induction false} YieldMark(s: State, t: ThreadId, yielding: bool)
    requires Valid(s) && t in s.threads
    ensures Valid(WithThread(s, t, s.threads[t].(yielding := yielding)))
  {
    hide ListedBut, Placed, ThreadPlaced;
    var x := s.threads[t].(yielding := yielding);
    SameLists(s, t, x, {});
    MarkPlaced(s, t, yielding);
  }

  lemma {:induction false} ScheduleStays(s: State, c: CpuId, h: int)
    requires Valid(s) && c < s.Cpus() && SomethingReady(s, c) && Stays(s, c, h)
    requires Shaped(s.max, s.tables[PickTable(s, c)]) && h == Highest(s.max, s.tables[PickTable(s, c)])
    ensures var r := AfterSchedule(s, c);
      && r.current == s.current && r.threads.Keys == s.threads.Keys
      && Valid(r) && NoneOutranks(r, c)
  {
    hide ListedBut, TakenOff, PutOn, Highest, PickTable;
    PickIsLeast(s, c);
    var cur := s.current[c];
    var r := WithThread(s, cur, s.threads[cur].(yielding := false));
    YieldMark(s, cur, false);
    hide Placed, Bounded;
    assert AfterSchedule(s, c) == r;
    forall t: ThreadId | t in s.threads && r.threads[t].stat == Ready && MayRun(r, c, t) ensures h <= r.threads[t].priority {
      assert t != cur;
    }
  }

  // Scheduling keeps the lists, the bitmaps and the placement right on every processor, and leaves no
  // ready thread that outranks the one now on processor c; the other processors keep theirs.
  lemma {:induction false} ScheduleKeeps(s: State, c: CpuId)
    requires Valid(s) && c < s.Cpus()
    ensures Valid(AfterSchedule(s, c)) && NoneOutranks(AfterSchedule(s, c), c)
    ensures var s1 := AfterSchedule(s, c); s1.Cpus() == s.Cpus() && s1.threads.Keys == s.threads.Keys
    ensures forall d: CpuId :: d < s.Cpus() && d != c ==> AfterSchedule(s, c).current[d] == s.current[d]
    ensures var to := AfterSchedule(s, c).current[c]; to == s.current[c] || s.threads[to].oncpu == Detached
  {
    hide ListedBut, Highest, PickTable, AfterSchedule, NoneOutranks;
    if SomethingReady(s, c) {
      PickIsLeast(s, c);
      var b := PickTable(s, c);
      var h := Highest(s.max, s.tables[b]);
      if Stays(s, c, h) {
        ScheduleStays(s, c, h);
      } else {
        var to := s.tables[b].queues[h][0];
        ScheduleSwitches(s, c, to);
        SwitchedPlaced(s, c, to, AfterSchedule(s, c));
        SwitchedOutranks(s, c, to, AfterSchedule(s, c), h);
      }
    } else {
      NothingReady(s, c);
    }
  }

  lemma {:induction false} NothingReady(s: State, c: CpuId)
    requires Valid(s) && c < s.Cpus() && !SomethingReady(s, c)
    ensures NoneOutranks(s, c) && AfterSchedule(s, c) == s
    ensures forall t: ThreadId :: t in s.threads && s.threads[t].stat == Ready ==> !MayRun(s, c, t)
  {
    hide Agrees, NoDuplicates, ListedBut;
    AgreesAt(s, s.Cpus());
    AgreesAt(s, c);
    HighestIsLeast(s.max, s.tables[s.Cpus()]);
    HighestIsLeast(s.max, s.tables[c]);
    forall t: ThreadId | t in s.threads && s.threads[t].stat == Ready ensures !MayRun(s, c, t) {
      ReadyIsMarked(s, t);
    }
  }

  // The list of priority p in table b.
  function List(s: State, b: nat, p: nat): seq<ThreadId> {
    if b < |s.tables| && p < |s.tables[b].queues| then s.tables[b].queues[p] else []
  }

  // Scheduling leaves the thread on processor c there exactly if it runs, may run there, and every ready thread
  // that may run there is less urgent, or as urgent while this one has not been told to yield.
  lemma {:induction false} StaysIff(s: State, c: CpuId)
    requires Valid(s) && c < s.Cpus()
    ensures s.current[c] in s.threads
    ensures AfterSchedule(s, c).Cpus() == s.Cpus()
    ensures var x := s.threads[s.current[c]];
      AfterSchedule(s, c).current[c] == s.current[c] <==>
        forall t: ThreadId :: t in s.threads && s.threads[t].stat == Ready && MayRun(s, c, t) ==>
          && x.stat == Running && MayRun(s, c, s.current[c])
          && (x.priority < s.threads[t].priority || (x.priority == s.threads[t].priority && !x.yielding))
  {
    hide ListedBut, Highest, PickTable, TakenOff, PutOn;
    if SomethingReady(s, c) {
      PickIsLeast(s, c);
      var b := PickTable(s, c);
      var h := Highest(s.max, s.tables[b]);
      var to := s.tables[b].queues[h][0];
      if !Stays(s, c, h) {
        ScheduleSwitches(s, c, to);
        assert s.threads[to].stat == Ready && MayRun(s, c, to);
      }
    } else {
      NothingReady(s, c);
    }
  }

  // If another thread takes its place, that one heads the list of its priority in the processor's own table, or,
  // if that list is empty, in the shared one.
  lemma {:induction false} HeadTakesOver(s: State, c: CpuId)
    requires Valid(s) && c < s.Cpus()
    ensures AfterSchedule(s, c).Cpus() == s.Cpus()
    ensures var to := AfterSchedule(s, c).current[c]; to != s.current[c] ==>
      && to in s.threads && s.threads[to].stat == Ready && MayRun(s, c, to)
      && var p := s.threads[to].priority;
        if List(s, c, p) != [] then to == List(s, c, p)[0]
        else List(s, s.Cpus(), p) != [] && to == List(s, s.Cpus(), p)[0]
  {
    hide ListedBut, Highest, TakenOff, PutOn, Agrees;
    if SomethingReady(s, c) {
      PickIsLeast(s, c);
      var b := PickTable(s, c);
      var h := Highest(s.max, s.tables[b]);
      if !Stays(s, c, h) {
        var to := s.tables[b].queues[h][0];
        ScheduleSwitches(s, c, to);
        AgreesAt(s, c);
        HighestIsLeast(s.max, s.tables[c]);
        ListedShapes(s, {});
        if b != c {
          assert !Waiting(s.max, s.tables[c], h);
        }
      }
    } else {
      NothingReady(s, c);
    }
  }

  // The threads and the lists after a switch on processor c; without one only a yield mark may go.
  lemma {:induction false} ScheduleEffect(s: State, c: CpuId)
    requires Valid(s) && c < s.Cpus()
    ensures s.current[c] in s.threads && AfterSchedule(s, c).Cpus() == s.Cpus()
    ensures var r, cur := AfterSchedule(s, c), s.current[c]; r.current[c] == cur ==>
      && r.tables == s.tables && r.current == s.current
      && (r.threads == s.threads || r.threads == s.threads[cur := s.threads[cur].(yielding := false)])
    ensures var r, cur, to := AfterSchedule(s, c), s.current[c], AfterSchedule(s, c).current[c]; to != cur ==>
      && var x := s.threads[cur];
      && r.current == s.current[c := to] && to in s.threads
      && r.threads == s.threads
        [cur := if x.stat == Running then x.(oncpu := Detached, stat := Ready, yielding := false) else x.(oncpu := Detached)]
        [to := s.threads[to].(oncpu := On(c), stat := Running)]
  {
    hide ListedBut, Highest, PickTable, TakenOff, PutOn;
    if SomethingReady(s, c) {
      PickIsLeast(s, c);
      var b := PickTable(s, c);
      var h := Highest(s.max, s.tables[b]);
      if !Stays(s, c, h) {
        ScheduleSwitches(s, c, s.tables[b].queues[h][0]);
      }
    } else {
      NothingReady(s, c);
    }
  }

  // The lists after a switch from a running thread: it goes back in front, behind the others if it yields, and
  // the one that takes over is gone.
  lemma {:induction false} SwitchedLists(s: State, c: CpuId, b: nat, p: nat)
    requires Valid(s) && c < s.Cpus() && s.current[c] in s.threads && AfterSchedule(s, c).Cpus() == s.Cpus()
    ensures var r, cur, to := AfterSchedule(s, c), s.current[c], AfterSchedule(s, c).current[c]; to != cur ==>
      var x := s.threads[cur];
      var q := if x.stat == Running && b == x.bind && p == x.priority && b < |s.tables|
        then (if x.yielding then List(s, b, p) + [cur] else [cur] + List(s, b, p)) else List(s, b, p);
      List(r, b, p) == Without(q, to)
  {
    hide ListedBut, Highest, PickTable, TakenOff, PutOn, Agrees;
    if SomethingReady(s, c) {
      PickIsLeast(s, c);
      var k := PickTable(s, c);
      var h := Highest(s.max, s.tables[k]);
      if !Stays(s, c, h) {
        var to := s.tables[k].queues[h][0];
        ScheduleSwitches(s, c, to);
        TakenOffList(s, c, b, p);
        PutOnList(TakenOff(s, c), c, to, b, p);
        TakenOffLists(s, c);
      }
    } else {
      NothingReady(s, c);
    }
  }

  lemma {:induction false} TakenOffList(s: State, c: CpuId, b: nat, p: nat)
    requires Valid(s) && c < s.Cpus() && s.current[c] in s.threads
    ensures var cur := s.current[c]; var x := s.threads[cur];
      List(TakenOff(s, c), b, p) ==
        if x.stat == Running && b == x.bind && p == x.priority && b < |s.tables|
        then (if x.yielding then List(s, b, p) + [cur] else [cur] + List(s, b, p)) else List(s, b, p)
  {
    hide ListedBut, Agrees;
    ListedShapes(s, {});
  }

  lemma {:induction false} PutOnList(s: State, c: CpuId, to: ThreadId, b: nat, p: nat)
    requires Bounded(s) && ListedBut(s, {}) && c < s.Cpus() && to in s.threads
    ensures List(PutOn(s, c, to), b, p) == Without(List(s, b, p), to)
  {
    hide Agrees, NoDuplicates;
    ListedShapes(s, {});
    var x := s.threads[to];
    if b < |s.tables| && p < |s.tables[b].queues| && (b != x.bind || p != x.priority) {
      assert TableHolds(s.max, s.threads, {}, b, s.tables[b]);
      AgreesIsShaped(s.max, s.tables[b]);
      assert Holds(s.threads, {}, b, p, s.tables[b].queues[p]);
      WithoutAbsent(s.tables[b].queues[p], to);
    }
  }

  // rt_thread_yield on processor c marks the thread there and calls the scheduler.
  ghost function Marked(s: State, c: CpuId): State
    requires c < s.Cpus() && s.current[c] in s.threads
  {
    WithThread(s, s.current[c], s.threads[s.current[c]].(yielding := true))
  }

  lemma {:induction false} MarkKeeps(s: State, c: CpuId)
    requires Valid(s) && c < s.Cpus()
    ensures Valid(Marked(s, c))
  {
    YieldMark(s, s.current[c], true);
  }

  // The thread on processor c shares priority p and table b with the best threads that are ready.
  ghost predicate Sharing(s: State, c: CpuId, b: nat, p: nat) {
    && Valid(s) && c < s.Cpus() && SomethingReady(s, c)
    && b == PickTable(s, c) && b < |s.tables| && Shaped(s.max, s.tables[b]) && Highest(s.max, s.tables[b]) == p
    && s.threads[s.current[c]].stat == Running
    && s.threads[s.current[c]].bind == b && s.threads[s.current[c]].priority == p
  }

  // The threads that share: the one that runs and those that wait, in order.
  ghost function Ring(s: State, c: CpuId, b: nat, p: nat): seq<ThreadId>
    requires c < s.Cpus() && b < |s.tables| && p < |s.tables[b].queues|
  {
    [s.current[c]] + s.tables[b].queues[p]
  }

  lemma {:induction false} HighestIs(max: nat, t: Table, p: nat)
    requires Agrees(max, t) && Waiting(max, t, p)
    requires forall q: nat :: Waiting(max, t, q) ==> p <= q
    ensures Highest(max, t) == p && t.group != ZERO
  {
    hide Highest;
    HighestIsLeast(max, t);
    assert Waiting(max, t, Highest(max, t));
  }

  // What a yield does to the tables.
  lemma {:induction false} YieldTables(s: State, c: CpuId, b: nat, p: nat)
    requires Sharing(s, c, b, p)
    ensures Valid(Marked(s, c))
    ensures Waiting(s.max, s.tables[b], p)
    ensures var q := s.tables[b].queues[p]; var r := AfterSchedule(Marked(s, c), c);
      && |r.tables| == |s.tables| && r.max == s.max && q[0] in s.threads
      && r.current == s.current[c := q[0]] && r.threads == SwitchedThreads(Marked(s, c), c, q[0])
      && (forall a: nat :: a < |s.tables| && a != b ==> r.tables[a] == s.tables[a])
      && r.tables[b].queues == s.tables[b].queues[p := q[1..] + [s.current[c]]]
  {
    hide ListedBut, Highest, Agrees, Stays, AfterSchedule, TakenOff, PutOn;
    MarkKeeps(s, c);
    var m := Marked(s, c);
    assert PickTable(m, c) == PickTable(s, c);
    PickIsLeast(s, c);
    var q := s.tables[b].queues[p];
    HeadIsReady(m, b, p);
    YieldLeaves(s, c, b, p);
    ScheduleSwitches(m, c, q[0]);
    ListedShapes(m, {});
    TakenOffLists(m, c);
    TakenOffTables(m, c, b, p);
    ListedShapes(TakenOff(m, c), {});
    PutOnTables(TakenOff(m, c), c, b, p, q[0]);
    assert Without(q + [s.current[c]], q[0]) == q[1..] + [s.current[c]] by {
      assert (q + [s.current[c]])[1..] == q[1..] + [s.current[c]];
    }
  }

  lemma {:induction false} YieldLeaves(s: State, c: CpuId, b: nat, p: nat)
    requires Sharing(s, c, b, p)
    ensures !Stays(Marked(s, c), c, p)
  {
  }

  lemma {:induction false} TakenOffTables(s: State, c: CpuId, b: nat, p: nat)
    requires Valid(s) && c < s.Cpus() && b < |s.tables| && Shaped(s.max, s.tables[b])
    requires var x := s.threads[s.current[c]]; x.stat == Running && x.yielding && x.bind == b && x.priority == p
    ensures var r := TakenOff(s, c);
      && |r.tables| == |s.tables|
      && (forall a: nat :: a < |s.tables| && a != b ==> r.tables[a] == s.tables[a])
      && r.tables[b].queues == s.tables[b].queues[p := s.tables[b].queues[p] + [s.current[c]]]
  {
  }

  lemma {:induction false} PutOnTables(s: State, c: CpuId, b: nat, p: nat, to: ThreadId)
    requires Bounded(s) && ListedBut(s, {}) && c < s.Cpus() && to in s.threads
    requires s.threads[to].bind == b && s.threads[to].priority == p && Shaped(s.max, s.tables[b])
    ensures var r := PutOn(s, c, to);
      && |r.tables| == |s.tables|
      && (forall a: nat :: a < |s.tables| && a != b ==> r.tables[a] == s.tables[a])
      && r.tables[b].queues == s.tables[b].queues[p := Without(s.tables[b].queues[p], to)]
  {
    hide ListedBut;
    ListedShapes(s, {});
  }

  // A yield turns the ring by one: the first waiting thread runs and the yielding one waits last.
  lemma {:induction false} YieldRotates(s: State, c: CpuId, b: nat, p: nat)
    requires Sharing(s, c, b, p)
    ensures Valid(Marked(s, c))
    ensures Sharing(AfterSchedule(Marked(s, c), c), c, b, p)
    ensures var ring := Ring(s, c, b, p); Ring(AfterSchedule(Marked(s, c), c), c, b, p) == ring[1..] + [ring[0]]
  {
    hide AfterSchedule, PickTable, Highest, Agrees, ListedBut;
    YieldTables(s, c, b, p);
    var q := s.tables[b].queues[p];
    var r := AfterSchedule(Marked(s, c), c);
    assert [q[0]] + (q[1..] + [s.current[c]]) == q + [s.current[c]];
    MarkKeeps(s, c);
    ScheduleKeeps(Marked(s, c), c);
    PickIsLeast(s, c);
    HeadIsReady(s, b, p);
    SamePick(s, r, c, b, p, q[1..] + [s.current[c]]);
  }

  // Refilling the best list leaves it the best.
  lemma {:induction false} SamePick(s: State, r: State, c: CpuId, b: nat, p: nat, q: seq<ThreadId>)
    requires Valid(s) && Valid(r) && c < s.Cpus() && SomethingReady(s, c) && r.Cpus() == s.Cpus() && r.max == s.max
    requires b == PickTable(s, c) && b < |s.tables| && Shaped(s.max, s.tables[b]) && Highest(s.max, s.tables[b]) == p
    requires forall a: nat :: a < |s.tables| && a != b ==> r.tables[a] == s.tables[a]
    requires p < s.max && q != [] && r.tables[b].queues == s.tables[b].queues[p := q]
    ensures SomethingReady(r, c) && PickTable(r, c) == b && Shaped(r.max, r.tables[b]) && Highest(r.max, r.tables[b]) == p
  {
    hide Agrees, ListedBut, Highest;
    AgreesAt(s, b);
    AgreesAt(r, b);
    ListedShapes(r, {});
    ListedShapes(s, {});
    PickIsLeast(s, c);
    HighestIsLeast(s.max, s.tables[b]);
    forall k: nat | Waiting(r.max, r.tables[b], k) ensures p <= k {
      if k != p { assert Waiting(s.max, s.tables[b], k); }
    }
    HighestIs(r.max, r.tables[b], p);
  }

  ghost function Yields(s: State, c: CpuId, n: nat): (r: State)
    requires Valid(s) && c < s.Cpus()
    ensures Valid(r) && r.Cpus() == s.Cpus()
  {
    if n == 0 then s
    else
      var s1 := Yields(s, c, n - 1);
      MarkKeeps(s1, c);
      ScheduleKeeps(Marked(s1, c), c);
      AfterSchedule(Marked(s1, c), c)
  }

  // Round robin: while the threads of one ring do nothing but yield, each of them runs in its turn.
  lemma {:induction false} RoundRobin(s: State, c: CpuId, b: nat, p: nat, n: nat)
    requires Sharing(s, c, b, p)
    ensures Sharing(Yields(s, c, n), c, b, p)
    ensures var ring := Ring(s, c, b, p); var k := n % |ring|;
      && Ring(Yields(s, c, n), c, b, p) == ring[k..] + ring[..k]
      && Yields(s, c, n).current[c] == ring[k]
  {
    hide Sharing, AfterSchedule, Marked, Valid;
    SharingBounds(s, c, b, p);
    var ring := Ring(s, c, b, p);
    NextTurn(1, |ring|);
    if n == 0 {
      assert ring[0..] + ring[..0] == ring;
    } else {
      RoundRobin(s, c, b, p, n - 1);
      var s1 := Yields(s, c, n - 1);
      YieldRotates(s1, c, b, p);
      var k := (n - 1) % |ring|;
      Turn(ring, k);
      NextTurn(n, |ring|);
      SharingBounds(s1, c, b, p);
    }
    SharingBounds(Yields(s, c, n), c, b, p);
    assert Ring(Yields(s, c, n), c, b, p)[0] == Yields(s, c, n).current[c];
  }

  // The other table processor c takes threads from.
  function Other(s: State, c: CpuId, b: nat): nat { if b == c then s.Cpus() else c }

  // A thread that competes with the one on processor c at priority p.
  ghost predicate Contends(s: State, c: CpuId, p: nat, t: ThreadId)
    requires c < s.Cpus()
  {
    t in s.threads && MayRun(s, c, t) && s.threads[t].priority == p && (s.threads[t].stat == Ready || t == s.current[c])
  }

  ghost predicate RunsAfter(s: State, c: CpuId, t: ThreadId, n: nat)
    requires Valid(s) && c < s.Cpus()
  {
    Yields(s, c, n).current[c] == t
  }

  ghost predicate GetsTurn(s: State, c: CpuId, t: ThreadId)
    requires Valid(s) && c < s.Cpus()
  {
    exists n: nat :: RunsAfter(s, c, t, n)
  }

  // Yields on processor c leave all tables alone but the one the ring is in.
  lemma {:induction false} OthersWait(s: State, c: CpuId, b: nat, p: nat, n: nat)
    requires Sharing(s, c, b, p)
    ensures var r := Yields(s, c, n);
      |r.tables| == |s.tables| && forall a: nat :: a < |s.tables| && a != b ==> r.tables[a] == s.tables[a]
  {
    hide AfterSchedule, Marked, Sharing, Valid;
    SharingBounds(s, c, b, p);
    if n > 0 {
      OthersWait(s, c, b, p, n - 1);
      RoundRobin(s, c, b, p, n - 1);
      OneYield(Yields(s, c, n - 1), c, b, p);
    }
  }

  lemma {:induction false} OneYield(s: State, c: CpuId, b: nat, p: nat)
    requires Sharing(s, c, b, p)
    ensures Valid(Marked(s, c)) && c < Marked(s, c).Cpus()
    ensures var r := AfterSchedule(Marked(s, c), c);
      |r.tables| == |s.tables| && forall a: nat :: a < |s.tables| && a != b ==> r.tables[a] == s.tables[a]
  {
    hide AfterSchedule, Valid, PickTable;
    YieldTables(s, c, b, p);
  }

  lemma {:induction false} RingMembers(s: State, c: CpuId, b: nat, p: nat, t: ThreadId)
    requires Sharing(s, c, b, p)
    ensures p < |s.tables[b].queues| && p < s.max
    ensures t in Ring(s, c, b, p) <==> Contends(s, c, p, t) && s.threads[t].bind == b
  {
    hide Agrees, Highest;
    SharingBounds(s, c, b, p);
    PickIsLeast(s, c);
    assert TableHolds(s.max, s.threads, {}, b, s.tables[b]);
    AgreesIsShaped(s.max, s.tables[b]);
    assert Holds(s.threads, {}, b, p, s.tables[b].queues[p]);
  }

  // Every thread that competes with the one on processor c gets its turn if and only if none of them waits in
  // the other table: on a tie processor c always takes the thread from its own table.
  lemma {:induction false} AllTurnsIff(s: State, c: CpuId, b: nat, p: nat)
    requires Sharing(s, c, b, p)
    ensures Other(s, c, b) < |s.tables| && p < |s.tables[Other(s, c, b)].queues|
    ensures (forall t: ThreadId :: Contends(s, c, p, t) ==> GetsTurn(s, c, t)) <==> s.tables[Other(s, c, b)].queues[p] == []
  {
    hide Agrees, Highest, Sharing, Yields;
    var o := Other(s, c, b);
    OtherList(s, c, b, p);
    if s.tables[o].queues[p] == [] {
      forall t: ThreadId | Contends(s, c, p, t) ensures GetsTurn(s, c, t) {
        OtherMembers(s, c, b, p, t);
        RingTurns(s, c, b, p, t);
      }
    } else {
      var t := s.tables[o].queues[p][0];
      OtherMembers(s, c, b, p, t);
      forall n: nat ensures !RunsAfter(s, c, t, n) { NoTurn(s, c, b, p, t, n); }
    }
  }

  lemma {:induction false} OtherList(s: State, c: CpuId, b: nat, p: nat)
    requires Sharing(s, c, b, p)
    ensures Valid(s) && c < s.Cpus() && Other(s, c, b) < |s.tables| && Other(s, c, b) != b
    ensures p < |s.tables[Other(s, c, b)].queues|
  {
    hide Agrees, Highest;
    PickIsLeast(s, c);
    ListedShapes(s, {});
  }

  lemma {:induction false} OtherMembers(s: State, c: CpuId, b: nat, p: nat, t: ThreadId)
    requires Sharing(s, c, b, p)
    ensures Other(s, c, b) < |s.tables| && p < |s.tables[Other(s, c, b)].queues|
    ensures t in s.tables[Other(s, c, b)].queues[p] <==> Contends(s, c, p, t) && s.threads[t].bind != b
  {
    hide Agrees, Highest;
    OtherList(s, c, b, p);
    PickIsLeast(s, c);
    var o := Other(s, c, b);
    assert TableHolds(s.max, s.threads, {}, o, s.tables[o]);
    AgreesIsShaped(s.max, s.tables[o]);
    assert Holds(s.threads, {}, o, p, s.tables[o].queues[p]);
  }

  lemma {:induction false} RingTurns(s: State, c: CpuId, b: nat, p: nat, t: ThreadId)
    requires Sharing(s, c, b, p) && Contends(s, c, p, t) && s.threads[t].bind == b
    ensures Valid(s) && GetsTurn(s, c, t)
  {
    hide Sharing, Yields, Valid, Contends, Ring, GetsTurn;
    RingMembers(s, c, b, p, t);
    SharingBounds(s, c, b, p);
    var ring := Ring(s, c, b, p);
    var k :| 0 <= k < |ring| && ring[k] == t;
    DivisionUnique(k, |ring|, 0, k);
    RoundRobin(s, c, b, p, k);
    TurnAt(s, c, t, k);
  }

  lemma {:induction false} TurnAt(s: State, c: CpuId, t: ThreadId, n: nat)
    requires Valid(s) && c < s.Cpus() && Yields(s, c, n).current[c] == t
    ensures GetsTurn(s, c, t)
  {
    hide Valid, Yields;
    assert RunsAfter(s, c, t, n);
  }

  lemma {:induction false} NoTurn(s: State, c: CpuId, b: nat, p: nat, t: ThreadId, n: nat)
    requires Sharing(s, c, b, p) && Contends(s, c, p, t) && s.threads[t].bind != b
    ensures Valid(s) && !RunsAfter(s, c, t, n)
  {
    hide Sharing, Yields, Valid;
    RingMembers(s, c, b, p, t);
    SharingBounds(s, c, b, p);
    RoundRobin(s, c, b, p, n);
    var ring := Ring(s, c, b, p);
    assert ring[n % |ring|] in ring;
  }

  // Such a thread: on one processor, thread 0 runs and thread 1 waits in its own table, thread 2, bound to no
  // processor, waits in the shared one.
  lemma {:induction false} SharedStarves() returns (s: State)
    ensures Sharing(s, 0, 0, 0) && Contends(s, 0, 0, 2) && !GetsTurn(s, 0, 2)
  {
    hide Highest, Agrees, Inserted, Mask, Or, Yields, Empty;
    EmptyAgrees(1);
    AgreesIsShaped(1, Empty(1));
    InsertKeeps(1, Empty(1), 0, 1, false);
    InsertKeeps(1, Empty(1), 0, 2, false);
    var local, shared := Inserted(1, Empty(1), RankOf(1, 0), 1, false), Inserted(1, Empty(1), RankOf(1, 0), 2, false);
    OneWaits(1);
    OneWaits(2);
    s := State.State(1, [local, shared],
      map[0 := Thread(Running, false, 0, 0, On(0)), 1 := Thread(Ready, false, 0, 0, Detached), 2 := Thread(Ready, false, 0, 1, Detached)],
      [0]);
    assert TableHolds(1, s.threads, {}, 0, local) && TableHolds(1, s.threads, {}, 1, shared);
    assert ListedBut(s, {}) && Placed(s) && Bounded(s) && Valid(s);
    HighestIs(1, local, 0);
    HighestIs(1, shared, 0);
    AgreesIsShaped(1, local);
    assert PickTable(s, 0) == 0 && SomethingReady(s, 0);
    assert Sharing(s, 0, 0, 0);
    forall n: nat ensures !RunsAfter(s, 0, 2, n) { NoTurn(s, 0, 0, 0, 2, n); }
  }

  lemma {:induction false} OneWaits(t: ThreadId)
    ensures Shaped(1, Empty(1))
    ensures Inserted(1, Empty(1), RankOf(1, 0), t, false).queues == [[t]]
  {
    assert Empty(1).queues == [[]] && [t] + [] == [t];
  }

  lemma {:induction false} SharingBounds(s: State, c: CpuId, b: nat, p: nat)
    requires Sharing(s, c, b, p)
    ensures Valid(s) && c < s.Cpus() && b < |s.tables| && p < |s.tables[b].queues|
  {
    PickIsLeast(s, c);
  }

  lemma {:induction false} Turn(ring: seq<ThreadId>, k: nat)
    requires k < |ring|
    ensures var turned := ring[k..] + ring[..k]; var j := if k + 1 == |ring| then 0 else k + 1;
      turned[1..] + [turned[0]] == ring[j..] + ring[..j]
  {
  }

  // What a processor does to the scheduler's state under the lock, apart from scheduling: thread start
  // (a new thread is suspended first), rt_thread_resume, rt_thread_suspend of the thread it runs, and
  // rt_thread_control for the priority and the processor.
  datatype Operation =
    | Create(thread: ThreadId, priority: nat, bind: nat)
    | Resume(thread: ThreadId)
    | Suspend
    | ChangePriority(thread: ThreadId, priority: nat)
    | Bind(thread: ThreadId, bind: nat)
    | MarkYield

  // A ready thread changes list, any other only its fields.
  ghost function Relisted(s: State, t: ThreadId, x: Thread): State
    requires Valid(s) && t in s.threads && x.priority < s.max && x.bind <= s.Cpus()
    requires x.stat == s.threads[t].stat && x.oncpu == s.threads[t].oncpu
  {
    ListedShapes(s, {});
    if s.threads[t].stat == Ready then
      RemoveUnlists(s, t);
      OffList(AfterRemove(s, t), t, x);
      ListedShapes(WithThread(AfterRemove(s, t), t, x), {t});
      AfterInsert(WithThread(AfterRemove(s, t), t, x), t)
    else WithThread(s, t, x)
  }

  ghost function AfterOperation(s: State, c: CpuId, op: Operation): State
    requires Valid(s) && c < s.Cpus()
  {
    ListedShapes(s, {});
    match op
    case Create(t, p, b) =>
      if t in s.threads || p >= s.max || b > s.Cpus() then s
      else WithThread(s, t, Thread(Suspended, false, p, b, Detached))
    case Resume(t) =>
      if t !in s.threads || s.threads[t].stat != Suspended then s else AfterInsert(s, t)
    case Suspend =>
      var cur := s.current[c];
      if s.threads[cur].stat == Suspended then s
      else WithThread(AfterRemove(s, cur), cur, s.threads[cur].(stat := Suspended))
    case ChangePriority(t, p) =>
      if t !in s.threads || p >= s.max then s else Relisted(s, t, s.threads[t].(priority := p))
    case Bind(t, b) =>
      if t !in s.threads then s
      else Relisted(s, t, s.threads[t].(bind := if b >= s.Cpus() then s.Cpus() else b))
    case MarkYield => Marked(s, c)
  }

  function ListAfterInsert(s: State, t: ThreadId, b: nat, p: nat): seq<ThreadId>
    requires t in s.threads
  {
    var x, q := s.threads[t], List(s, b, p);
    if x.oncpu == Detached && b == x.bind && p == x.priority then (if x.yielding then q + [t] else [t] + q) else q
  }

  function ListAfterRemove(s: State, t: ThreadId, b: nat, p: nat): seq<ThreadId>
    requires t in s.threads
  {
    var x, q := s.threads[t], List(s, b, p);
    if b == x.bind && p == x.priority then Without(q, t) else q
  }

  // A thread that changes list leaves its old one and goes to the front of the new one, behind if it yields.
  function ListAfterMove(s: State, t: ThreadId, x: Thread, b: nat, p: nat): seq<ThreadId> {
    var q := Without(List(s, b, p), t);
    if x.stat == Ready && b == x.bind && p == x.priority then (if x.yielding then q + [t] else [t] + q) else q
  }

  lemma {:induction false} InsertList(s: State, t: ThreadId, b: nat, p: nat)
    requires Bounded(s) && t in s.threads
    requires forall a: nat :: a < |s.tables| ==> Shaped(s.max, s.tables[a])
    ensures List(AfterInsert(s, t), b, p) == ListAfterInsert(s, t, b, p)
  {
  }

  lemma {:induction false} RemoveList(s: State, t: ThreadId, b: nat, p: nat)
    requires Bounded(s) && t in s.threads
    requires forall a: nat :: a < |s.tables| ==> Shaped(s.max, s.tables[a])
    ensures List(AfterRemove(s, t), b, p) == ListAfterRemove(s, t, b, p)
  {
  }

  lemma {:induction false} AbsentElsewhere(s: State, t: ThreadId, b: nat, p: nat)
    requires Bounded(s) && ListedBut(s, {}) && t in s.threads
    ensures !ReadyAt(s.threads, t, b, p) ==> Without(List(s, b, p), t) == List(s, b, p)
  {
    hide Agrees, NoDuplicates;
    if b < |s.tables| && p < |s.tables[b].queues| && !ReadyAt(s.threads, t, b, p) {
      assert TableHolds(s.max, s.threads, {}, b, s.tables[b]);
      AgreesIsShaped(s.max, s.tables[b]);
      assert Holds(s.threads, {}, b, p, s.tables[b].queues[p]);
      WithoutAbsent(s.tables[b].queues[p], t);
    }
  }

  lemma {:induction false} RelistList(s: State, t: ThreadId, x: Thread, b: nat, p: nat)
    requires Valid(s) && t in s.threads && x.priority < s.max && x.bind <= s.Cpus()
    requires x.stat == s.threads[t].stat && x.oncpu == s.threads[t].oncpu
    ensures List(Relisted(s, t, x), b, p) == ListAfterMove(s, t, x, b, p)
  {
    hide ListedBut, AfterInsert, List, Without;
    ListedShapes(s, {});
    AbsentElsewhere(s, t, b, p);
    if s.threads[t].stat == Ready {
      RemoveUnlists(s, t);
      RemoveList(s, t, b, p);
      OffList(AfterRemove(s, t), t, x);
      var s1 := WithThread(AfterRemove(s, t), t, x);
      ListedShapes(s1, {t});
      InsertList(s1, t, b, p);
      SameTables(AfterRemove(s, t), s1, b, p);
    } else {
      SameTables(s, WithThread(s, t, x), b, p);
    }
  }

  lemma {:induction false} SameTables(s: State, r: State, b: nat, p: nat)
    requires r.tables == s.tables
    ensures List(r, b, p) == List(s, b, p)
  {
  }

  lemma {:induction false} RelistKeeps(s: State, t: ThreadId, x: Thread)
    requires Valid(s) && t in s.threads && x.priority < s.max && x.bind <= s.Cpus()
    requires x.stat == s.threads[t].stat && x.oncpu == s.threads[t].oncpu
    ensures Valid(Relisted(s, t, x))
    ensures Relisted(s, t, x).current == s.current && Relisted(s, t, x).threads == s.threads[t := x]
  {
    hide ListedBut;
    ListedShapes(s, {});
    StillPlaced(s, Relisted(s, t, x), t, x);
    hide Placed;
    if s.threads[t].stat == Ready {
      RemoveUnlists(s, t);
      OffList(AfterRemove(s, t), t, x);
      InsertLists(WithThread(AfterRemove(s, t), t, x), t);
    } else {
      NotReadyIsOff(s, t);
      OffList(s, t, x);
    }
  }

  lemma {:induction false} ResumeKeeps(s: State, t: ThreadId)
    requires Valid(s) && t in s.threads && s.threads[t].stat == Suspended
    requires forall b: nat :: b < |s.tables| ==> Shaped(s.max, s.tables[b])
    ensures Valid(AfterInsert(s, t)) && AfterInsert(s, t).current == s.current
  {
    hide ListedBut;
    NotReadyIsOff(s, t);
    var x := s.threads[t];
    StillPlaced(s, AfterInsert(s, t), t, x.(stat := if x.oncpu == Detached then Ready else Running));
    hide Placed;
    if s.threads[t].oncpu == Detached {
      InsertLists(s, t);
    } else {
      OffList(s, t, s.threads[t].(stat := Running));
    }
  }

  lemma {:induction false} SuspendKeeps(s: State, t: ThreadId)
    requires Valid(s) && t in s.threads && s.threads[t].stat == Running
    requires forall b: nat :: b < |s.tables| ==> Shaped(s.max, s.tables[b])
    ensures var r := WithThread(AfterRemove(s, t), t, s.threads[t].(stat := Suspended)); Valid(r) && r.current == s.current
  {
    hide ListedBut;
    var x := s.threads[t].(stat := Suspended);
    RemoveUnlists(s, t);
    StillPlaced(s, WithThread(AfterRemove(s, t), t, x), t, x);
    hide Placed;
    OffList(AfterRemove(s, t), t, x);
  }

  lemma {:induction false} CreateKeeps(s: State, t: ThreadId, x: Thread)
    requires Valid(s) && t !in s.threads && x.priority < s.max && x.bind <= s.Cpus()
    requires x.stat == Suspended && x.oncpu == Detached
    ensures Valid(WithThread(s, t, x))
  {
    hide NoDuplicates, Agrees;
    ListedShapes(s, {});
    StillPlaced(s, WithThread(s, t, x), t, x);
    var threads := s.threads[t := x];
    forall b: nat | b < |s.tables| ensures TableHolds(s.max, threads, {}, b, s.tables[b]) {
      assert TableHolds(s.max, s.threads, {}, b, s.tables[b]);
      forall p: nat | p < s.max ensures Holds(threads, {}, b, p, s.tables[b].queues[p]) {
        assert Holds(s.threads, {}, b, p, s.tables[b].queues[p]);
      }
    }
  }

  // No operation changes which thread runs where.
  lemma {:induction false} OperationKeeps(s: State, c: CpuId, op: Operation)
    requires Valid(s) && c < s.Cpus()
    ensures Valid(AfterOperation(s, c, op)) && AfterOperation(s, c, op).current == s.current
  {
    hide ListedBut, AfterRemove, AfterInsert, Relisted;
    ListedShapes(s, {});
    match op {
      case Create(t, p, b) =>
        if t !in s.threads && p < s.max && b <= s.Cpus() {
          CreateKeeps(s, t, Thread(Suspended, false, p, b, Detached));
        }
      case Resume(t) => if t in s.threads && s.threads[t].stat == Suspended { ResumeKeeps(s, t); }
      case Suspend => if s.threads[s.current[c]].stat != Suspended { SuspendKeeps(s, s.current[c]); }
      case ChangePriority(t, p) =>
        if t in s.threads && p < s.max { RelistKeeps(s, t, s.threads[t].(priority := p)); }
      case Bind(t, b) =>
        if t in s.threads {
          RelistKeeps(s, t, s.threads[t].(bind := if b >= s.Cpus() then s.Cpus() else b));
        }
      case MarkYield => MarkKeeps(s, c);
    }
  }
}
