/** The multi-processor scheduler (src/scheduler_mp.c) and the lock of all processors (src/cpu.c) with their
    fields. Each method is what one processor does in one step of SmpLock, and does to the fields what
    SmpLock says of that step. */
module SmpKernels {
  import opened BitScan
  import opened Lists
  import opened ReadyTables
  import opened MpModel
  import opened Options
  import opened SmpLock

  // Without the lists, thread t ready or not, the fields an insertion or removal reads are there.
  ghost predicate Usable(mp: MpModel.State) {
    Bounded(mp) && forall b: nat :: b < |mp.tables| ==> Shaped(mp.max, mp.tables[b])
  }

  lemma {:induction false} ListedIsUsable(mp: MpModel.State, out: set<ThreadId>)
    requires Bounded(mp) && ListedBut(mp, out)
    ensures Usable(mp)
  {
    ListedShapes(mp, out);
  }

  lemma {:induction false} SameNests(nests: map<ThreadId, Nest>, threads: map<ThreadId, MpModel.Thread>)
    requires nests.Keys == threads.Keys
    ensures (map t: ThreadId | t in threads :: if t in nests then nests[t] else FRESH) == nests
  {
  }

  lemma {:induction false} NewNest(nests: map<ThreadId, Nest>, threads: map<ThreadId, MpModel.Thread>, t1: ThreadId, x: MpModel.Thread)
    requires nests.Keys == threads.Keys && t1 !in threads
    ensures (map t: ThreadId | t in threads[t1 := x] :: if t in nests then nests[t] else FRESH) == nests[t1 := FRESH]
  {
  }

  lemma {:induction false} UnlockedIs(n: Nest)
    requires n.levels != [] && n.cpus > 0
    ensures Unlocked(n) == Nest(n.cpus - 1, if n.cpus == 1 then n.sched - 1 else n.sched, n.critical, n.preempt,
      n.levels[..|n.levels| - 1], n.levels[|n.levels| - 1], n.wait)
  {
  }

  lemma {:induction false} HolderIs(holder: Option<CpuId>, n: Nest)
    ensures HolderAfter(holder, n) == if n.cpus == 0 then None else holder
  {
  }

  // The thread on a processor is on no list.
  lemma {:induction false} CurrentUnlisted(mp: MpModel.State, c: CpuId, b: nat, p: nat)
    requires MpModel.Valid(mp) && c < mp.Cpus()
    ensures mp.current[c] in mp.threads && mp.threads[mp.current[c]].stat != Ready
    ensures Without(List(mp, b, p), mp.current[c]) == List(mp, b, p)
  {
    hide ListedBut;
    PlacedParts(mp);
    AbsentElsewhere(mp, mp.current[c], b, p);
  }

  lemma {:induction false} CpuCount(s: SmpLock.State)
    requires Inv(s)
    ensures |s.cpus| == s.mp.Cpus()
  {
  }

  lemma {:induction false} CountedNest(s: SmpLock.State, c: CpuId)
    requires Inv(s) && c < |s.cpus|
    ensures |s.cpus| == s.mp.Cpus() && s.mp.current[c] in s.nests
    ensures var n := CurrentNest(s, c); n.levels != [] || n.critical > 0 ==> n.cpus > 0
  {
    InvParts(s, c);
  }

  lemma {:induction false} LevelsCounted(n: Nest)
    requires NestOk(n) && n.levels != []
    ensures n.cpus > 0
  {
  }

  lemma {:induction false} InsertFrame(s: MpModel.State, t: ThreadId)
    requires Usable(s) && t in s.threads
    ensures AfterInsert(s, t).threads.Keys == s.threads.Keys
  {
  }

  lemma {:induction false} RemoveFrame(s: MpModel.State, t: ThreadId)
    requires Usable(s) && t in s.threads
    ensures var r := AfterRemove(s, t); r.threads == s.threads && r.current == s.current && r.max == s.max && |r.tables| == |s.tables|
  {
  }

  class Processors {
    const max: nat // RT_THREAD_PRIORITY_MAX
    const count: nat // RT_CPUS_NR
    var tables: seq<Table> // those of the processors, and the shared one
    var threads: map<ThreadId, MpModel.Thread>
    var current: seq<ThreadId>
    var nests: map<ThreadId, Nest>
    var cpus: seq<Cpu>
    var holder: Option<CpuId> // of _cpus_lock

    ghost function Mp(): MpModel.State
      reads this
    {
      MpModel.State.State(max, tables, threads, current)
    }

    ghost function St(): SmpLock.State
      reads this
    {
      SmpLock.State.State(Mp(), nests, cpus, holder)
    }

    ghost predicate Valid()
      reads this
    {
      Inv(St()) && |current| == count
    }

    // As the processors start: each runs its idle thread.
    constructor (max: nat, count: nat)
      requires 0 < max <= 32
      ensures Valid() && this.max == max && this.count == count && St() == Boot(count, max)
    {
      this.max, this.count := max, count;
      tables := seq(count + 1, i => Empty(max));
      threads := map t: ThreadId | t in Idles(count) :: MpModel.Thread(Running, false, max - 1, t, On(t));
      current := Idles(count);
      nests := map t: ThreadId | t in Idles(count) :: FRESH;
      cpus := seq(count, i => Cpu(0, false, false));
      holder := None;
      new;
      BootInv(count, max);
      assert nests == Boot(count, max).nests;
    }

    // ---------- the ready tables ----------

    // _scheduler_get_highest_priority_thread; without anything ready in a table its word is the largest.
    method HighestPriorityThread(c: CpuId) returns (to: ThreadId, highest: int)
      requires MpModel.Valid(Mp()) && c < |current| == count && SomethingReady(Mp(), c)
      ensures to in threads && threads[to].stat == Ready && threads[to].oncpu == Detached && MayRun(Mp(), c, to)
      ensures highest == threads[to].priority
      ensures forall t: ThreadId :: t in threads && threads[t].stat == Ready && MayRun(Mp(), c, t) ==>
        highest <= threads[t].priority
      ensures var b := PickTable(Mp(), c);
        && b < |tables| && Shaped(max, tables[b]) && highest == Highest(max, tables[b])
        && 0 <= highest < |tables[b].queues| && tables[b].queues[highest] != [] && to == tables[b].queues[highest][0]
    {
      hide Highest, ListedBut, Placed, Agrees;
      ListedShapes(Mp(), {});
      PickIsLeast(Mp(), c);
      var shared := Unsigned(Highest(max, tables[count]));
      var local := Unsigned(Highest(max, tables[c]));
      ghost var b := PickTable(Mp(), c);
      HeadIsReady(Mp(), b, Highest(max, tables[b]));
      if shared < local {
        highest := Highest(max, tables[count]);
        to := tables[count].queues[highest][0];
      } else {
        highest := Highest(max, tables[c]);
        to := tables[c].queues[highest][0];
      }
    }

    method InsertThread(t: ThreadId)
      requires Usable(Mp()) && t in threads
      modifies this`tables, this`threads
      ensures Mp() == AfterInsert(old(Mp()), t)
      ensures threads == old(threads)[t := old(threads)[t].(stat := if old(threads)[t].oncpu == Detached then Ready else Running)]
      ensures forall b, p: nat ::
        var x, q := old(threads)[t], List(old(Mp()), b, p);
        List(Mp(), b, p) == if x.oncpu == Detached && b == x.bind && p == x.priority then (if x.yielding then q + [t] else [t] + q) else q
    {
      forall b, p: nat ensures List(AfterInsert(Mp(), t), b, p) == ListAfterInsert(Mp(), t, b, p) { InsertList(Mp(), t, b, p); }
      var x := threads[t];
      if x.oncpu != Detached {
        threads := threads[t := x.(stat := Running)];
        return;
      }
      threads := threads[t := x.(stat := Ready)];
      var table, p := tables[x.bind], x.priority;
      var q := if x.yielding then table.queues[p] + [t] else [t] + table.queues[p];
      tables := tables[x.bind := table.(queues := table.queues[p := q], group := Or(table.group, Mask(p)))];
    }

    method RemoveThread(t: ThreadId)
      requires Usable(Mp()) && t in threads
      modifies this`tables
      ensures Mp() == AfterRemove(old(Mp()), t)
      ensures forall b, p: nat ::
        var x, q := threads[t], List(old(Mp()), b, p);
        List(Mp(), b, p) == if b == x.bind && p == x.priority then Without(q, t) else q
    {
      forall b, p: nat ensures List(AfterRemove(Mp(), t), b, p) == ListAfterRemove(Mp(), t, b, p) { RemoveList(Mp(), t, b, p); }
      var x := threads[t];
      var table, p := tables[x.bind], x.priority;
      var q := Without(table.queues[p], t);
      table := table.(queues := table.queues[p := q]);
      if q == [] {
        table := table.(group := AndNot(table.group, Mask(p)));
      }
      tables := tables[x.bind := table];
    }

    // ---------- switching ----------

    // What rt_schedule and rt_scheduler_do_irq_switch have in common: the thread to run is chosen, and the
    // one that leaves the processor goes back to its list.
    method Choose(c: CpuId) returns (to: ThreadId)
      requires MpModel.Valid(Mp()) && c < |current| == count
      modifies this`tables, this`threads
      ensures to in old(threads) && to == AfterSchedule(old(Mp()), c).current[c]
      ensures Mp().(current := current[c := to]) == AfterSchedule(old(Mp()), c)
    {
      hide ListedBut, Placed, Agrees, AfterInsert, AfterRemove, Highest;
      ghost var s := Mp();
      PlacedParts(s);
      TakenOffLists(s, c);
      var cur := current[c];
      to := cur;
      if tables[count].group != ZERO || tables[c].group != ZERO {
        var highest;
        to, highest := HighestPriorityThread(c);
        var x := threads[cur];
        if x.stat == Running && (x.bind == count || x.bind == c)
          && (x.priority < highest || (x.priority == highest && !x.yielding))
        {
          to := cur;
          threads := threads[cur := x.(yielding := false)];
          return;
        }
        assert !Stays(s, c, highest);
        TakeOff(c);
        PutOnto(c, to);
      }
    }

    // The thread on processor c leaves it.
    method TakeOff(c: CpuId)
      requires MpModel.Valid(Mp()) && c < |current| == count
      modifies this`tables, this`threads
      ensures Mp() == TakenOff(old(Mp()), c)
    {
      hide ListedBut, Placed, AfterInsert;
      ghost var s := Mp();
      PlacedParts(s);
      ListedIsUsable(s, {});
      var cur := current[c];
      threads := threads[cur := threads[cur].(oncpu := Detached)];
      if threads[cur].stat == Running {
        InsertThread(cur);
        InsertFrame(WithThread(s, cur, s.threads[cur].(oncpu := Detached)), cur);
        threads := threads[cur := threads[cur].(yielding := false)];
      }
    }

    // `to` comes onto processor c, but for the pointer to it there.
    method PutOnto(c: CpuId, to: ThreadId)
      requires Bounded(Mp()) && ListedBut(Mp(), {}) && c < |current| == count && to in threads
      modifies this`tables, this`threads
      ensures Mp().(current := current[c := to]) == PutOn(old(Mp()), c, to)
    {
      hide ListedBut, AfterRemove;
      ListedIsUsable(Mp(), {});
      threads := threads[to := threads[to].(oncpu := On(c))];
      RemoveThread(to);
      threads := threads[to := threads[to].(stat := Running)];
    }

    // rt_cpus_lock_status_restore
    method RestoreLock(c: CpuId, to: ThreadId)
      requires c < |current| && to in nests
      modifies this`current, this`holder
      ensures current == old(current)[c := to] && holder == HolderAfter(old(holder), nests[to])
    {
      current := current[c := to];
      if nests[to].cpus == 0 {
        holder := None;
      }
    }

    // rt_schedule between its lock and its unlock.
    method Schedule(c: CpuId)
      requires Valid() && c < count && CurrentNest(St(), c).wait == No
      requires CurrentNest(St(), c).levels != [] && !cpus[c].leaving
      modifies this`tables, this`threads, this`current, this`cpus, this`holder
      ensures Valid() && Wired(old(St())) && St() == Apply(old(St()), c, SmpLock.Schedule)
      ensures old(cpus[c].irqNest == 0 && CurrentNest(St(), c).sched == 1) ==> NoneOutranks(Mp(), c)
      ensures old(cpus[c].irqNest > 0) ==>
        && cpus == old(cpus)[c := Cpu(old(cpus)[c].irqNest, true, false)]
        && threads == old(threads) && tables == old(tables) && current == old(current) && holder == old(holder)
      ensures old(cpus[c].irqNest == 0) ==> cpus == old(cpus)
      ensures old(cpus[c].irqNest == 0 && CurrentNest(St(), c).sched != 1) ==> current == old(current) && threads == old(threads)
      ensures old(cpus[c].irqNest == 0 && CurrentNest(St(), c).sched == 1) ==>
        (current[c] == old(current)[c] <==>
          forall t: ThreadId :: t in old(threads) && old(threads)[t].stat == Ready && old(MayRun(Mp(), c, t)) ==>
            var x := old(threads)[old(current)[c]];
            && x.stat == Running && old(MayRun(Mp(), c, current[c]))
            && (x.priority < old(threads)[t].priority || (x.priority == old(threads)[t].priority && !x.yielding)))
      ensures var cur, to := old(current)[c], current[c]; to != cur ==>
        && current == old(current)[c := to] && to in old(threads)
        && var x := old(threads)[cur];
          threads == old(threads)
            [cur := if x.stat == Running then x.(oncpu := Detached, stat := Ready, yielding := false) else x.(oncpu := Detached)]
            [to := old(threads)[to].(oncpu := On(c), stat := Running)]
      ensures current[c] != old(current)[c] ==>
        holder == if nests[current[c]].cpus == 0 then None else old(holder)
    {
      hide MpModel.Valid, NestOk, CpuOk, AfterSchedule, Nested, NoneOutranks;
      ghost var s := St();
      ScheduleInv(s, c);
      StaysIff(s.mp, c);
      ScheduleEffect(s.mp, c);
      InvParts(s, c);
      ScheduleKeeps(s.mp, c);
      if cpus[c].irqNest > 0 {
        cpus := cpus[c := cpus[c].(switchFlag := true)];
        return;
      }
      var cur := current[c];
      if nests[cur].sched == 1 {
        var to := Choose(c);
        if to != cur {
          RestoreLock(c, to);
        }
        assert current == AfterSchedule(s.mp, c).current;
      }
    }

    // rt_scheduler_do_irq_switch between its lock and its unlock, on the way out of an interrupt.
    method DoIrqSwitch(c: CpuId)
      requires Valid() && c < count && CurrentNest(St(), c).wait == No
      requires |CurrentNest(St(), c).levels| == 1 && cpus[c].leaving
      modifies this`tables, this`threads, this`current, this`cpus, this`nests, this`holder
      ensures Valid() && Wired(old(St())) && St() == Apply(old(St()), c, IrqSwitch)
      ensures !old(cpus[c].switchFlag && CurrentNest(St(), c).sched == 1) ==> St() == old(St())
      ensures old(cpus[c].switchFlag && CurrentNest(St(), c).sched == 1) ==> NoneOutranks(Mp(), c) && !cpus[c].switchFlag
      ensures old(cpus[c].switchFlag && CurrentNest(St(), c).sched == 1) ==>
        (current[c] == old(current)[c] <==>
          forall t: ThreadId :: t in old(threads) && old(threads)[t].stat == Ready && old(MayRun(Mp(), c, t)) ==>
            var x := old(threads)[old(current)[c]];
            && x.stat == Running && old(MayRun(Mp(), c, current[c]))
            && (x.priority < old(threads)[t].priority || (x.priority == old(threads)[t].priority && !x.yielding)))
      ensures var cur, to := old(current)[c], current[c]; to != cur ==>
        && current == old(current)[c := to] && to in old(threads)
        && var x := old(threads)[cur];
          threads == old(threads)
            [cur := if x.stat == Running then x.(oncpu := Detached, stat := Ready, yielding := false) else x.(oncpu := Detached)]
            [to := old(threads)[to].(oncpu := On(c), stat := Running)]
      ensures current[c] != old(current)[c] ==>
        && old(current)[c] in nests && nests[old(current)[c]].cpus == 0 && nests[old(current)[c]].levels == []
        && holder == if nests[current[c]].cpus == 0 then None else old(holder)
    {
      hide MpModel.Valid, NestOk, AfterSchedule, Nested, NoneOutranks, AfterOperation, Locked, Granted, Unlocked, Entered, Exited, CpuOk;
      ghost var s := St();
      IrqSwitchInv(s, c);
      StaysIff(s.mp, c);
      ScheduleEffect(s.mp, c);
      InvParts(s, c);
      ScheduleKeeps(s.mp, c);
      if !cpus[c].switchFlag {
        return;
      }
      var cur := current[c];
      if nests[cur].sched == 1 {
        cpus := cpus[c := cpus[c].(switchFlag := false)];
        var to := Choose(c);
        if to != cur {
          var n := nests[cur];
          nests := nests[cur := n.(cpus := n.cpus - 1, sched := n.sched - 1, levels := [], irqOn := true)];
          RestoreLock(c, to);
          cpus := cpus[c := cpus[c].(leaving := false)];
          assert cpus == s.cpus[c := s.cpus[c].(switchFlag := false, leaving := false)];
          assert holder == HolderAfter(s.holder, s.nests[to]);
          assert Mp() == AfterSchedule(s.mp, c);
        } else {
          assert Mp() == AfterSchedule(s.mp, c) && nests == s.nests && holder == s.holder;
        }
      }
    }

    // ---------- the lock and the nest counters ----------

    // rt_cpus_lock, up to the point where it may have to wait for the spin lock.
    method CpusLock(c: CpuId)
      requires Valid() && c < count && CurrentNest(St(), c).wait == No
      modifies this`nests
      ensures Valid() && Wired(old(St())) && St() == Apply(old(St()), c, Lock)
      ensures var t := current[c]; var n := old(nests)[t];
        nests == old(nests)[t := Nest(n.cpus + 1, if n.cpus == 0 then n.sched + 1 else n.sched, n.critical, n.preempt,
          n.levels + [n.irqOn], false, if n.cpus == 0 then ForLock else No)]
    {
      hide MpModel.Valid, Nested, AfterSchedule, AfterOperation, Switched, Granted, Unlocked, Entered, Exited;
      ghost var s := St();
      InvParts(s, c);
      LockSteps(s, c, Lock);
      var t := current[c];
      var n := nests[t];
      n := n.(levels := n.levels + [n.irqOn], irqOn := false);
      var first := n.cpus == 0;
      n := n.(cpus := n.cpus + 1);
      if first {
        n := n.(sched := n.sched + 1, wait := ForLock);
      }
      nests := nests[t := n];
    }

    // The spin lock a thread waits for is free and is taken.
    method SpinLock(c: CpuId)
      requires Valid() && c < count && CurrentNest(St(), c).wait != No && holder == None
      modifies this`nests, this`holder
      ensures Valid() && Wired(old(St())) && St() == Apply(old(St()), c, Grant)
      ensures holder == Some(c)
      ensures var t := current[c]; var n := old(nests)[t];
        nests == old(nests)[t :=
          if n.wait == ForLock then n.(wait := No)
          else n.(wait := No, critical := n.critical + 1, sched := n.sched + 1, irqOn := n.wait.level)]
    {
      hide MpModel.Valid, Nested, AfterSchedule, AfterOperation, Switched, Locked, Unlocked, Entered, Exited;
      InvParts(St(), c);
      LockSteps(St(), c, Grant);
      var t := current[c];
      var n := nests[t];
      holder := Some(c);
      if n.wait.ForCritical? {
        n := n.(critical := n.critical + 1, sched := n.sched + 1, irqOn := n.wait.level);
      }
      nests := nests[t := n.(wait := No)];
    }

    method CpusUnlock(c: CpuId)
      requires Valid() && c < count && CurrentNest(St(), c).wait == No && CurrentNest(St(), c).levels != []
      modifies this`nests, this`holder
      ensures Valid() && Wired(old(St())) && St() == Apply(old(St()), c, Unlock)
      ensures var t := current[c]; var n := old(nests)[t];
        && n.cpus > 0 && holder == (if n.cpus == 1 then None else old(holder))
        && nests == old(nests)[t := Nest(n.cpus - 1, if n.cpus == 1 then n.sched - 1 else n.sched, n.critical, n.preempt,
          n.levels[..|n.levels| - 1], n.levels[|n.levels| - 1], No)]
    {
      hide MpModel.Valid, Nested, NestOk, CpuOk, AfterSchedule, AfterOperation, Switched, Locked, Granted, Unlocked, Entered, Exited, HolderAfter, Apply, Inv;
      CpuCount(St());
      InvParts(St(), c);
      CountedNest(St(), c);
      ApplyUnlock(St(), c);
      LockSteps(St(), c, Unlock);
      var t := current[c];
      var n := nests[t];
      LevelsCounted(n);
      ghost var n0 := n;
      n := n.(cpus := n.cpus - 1);
      if n.cpus == 0 {
        n := n.(sched := n.sched - 1);
        holder := None;
      }
      n := n.(irqOn := n.levels[|n.levels| - 1], levels := n.levels[..|n.levels| - 1]);
      HolderIs(old(holder), Unlocked(n0));
      UnlockedIs(n0);
      nests := nests[t := n];
    }

    // rt_enter_critical, up to the point where it may have to wait for the spin lock.
    method EnterCritical(c: CpuId)
      requires Valid() && c < count && CurrentNest(St(), c).wait == No
      modifies this`nests
      ensures Valid() && Wired(old(St())) && St() == Apply(old(St()), c, SmpLock.EnterCritical)
      ensures var t := current[c]; var n := old(nests)[t];
        nests == old(nests)[t :=
          if n.cpus == 0 then n.(cpus := 1, sched := n.sched + 1, irqOn := false, wait := ForCritical(n.irqOn))
          else n.(cpus := n.cpus + 1, critical := n.critical + 1, sched := n.sched + 1)]
    {
      hide MpModel.Valid, Nested, AfterSchedule, AfterOperation, Switched, Locked, Granted, Unlocked, Exited;
      InvParts(St(), c);
      CriticalSteps(St(), c, SmpLock.EnterCritical);
      var t := current[c];
      var n := nests[t];
      if n.cpus == 0 {
        n := n.(cpus := 1, sched := n.sched + 1, wait := ForCritical(n.irqOn), irqOn := false);
      } else {
        n := n.(cpus := n.cpus + 1, critical := n.critical + 1, sched := n.sched + 1);
      }
      nests := nests[t := n];
    }

    // rt_exit_critical; `schedule` says that it goes on to call the scheduler.
    method ExitCritical(c: CpuId) returns (schedule: bool)
      requires Valid() && c < count && CurrentNest(St(), c).wait == No && CurrentNest(St(), c).critical > 0
      modifies this`nests, this`holder
      ensures Valid() && Wired(old(St())) && St() == Apply(old(St()), c, SmpLock.ExitCritical)
      ensures schedule <==> var n := CurrentNest(St(), c); n.cpus == 0 && n.preempt == 0
      ensures var t := current[c]; var n := old(nests)[t];
        && n.cpus > 0 && holder == (if n.cpus == 1 then None else old(holder))
        && nests == old(nests)[t := n.(cpus := n.cpus - 1, critical := n.critical - 1,
          sched := if n.cpus == 1 then n.sched - 2 else n.sched - 1)]
    {
      hide MpModel.Valid, Nested, AfterSchedule, AfterOperation, Switched, Locked, Granted, Unlocked, Entered, Apply, Inv;
      CpuCount(St());
      InvParts(St(), c);
      CountedNest(St(), c);
      ApplyUnlock(St(), c);
      CriticalSteps(St(), c, SmpLock.ExitCritical);
      InvParts(Apply(St(), c, SmpLock.ExitCritical), c);
      var t := current[c];
      var n := nests[t];
      n := n.(sched := n.sched - 1, critical := n.critical - 1, cpus := n.cpus - 1);
      if n.cpus == 0 {
        n := n.(sched := n.sched - 1);
        holder := None;
      }
      schedule := n.sched <= 0;
      if schedule {
        n := n.(sched := 0);
      }
      nests := nests[t := n];
    }

    // _cpu_preempt_disable
    method PreemptDisable(c: CpuId)
      requires Valid() && c < count && CurrentNest(St(), c).wait == No
      modifies this`nests
      ensures Valid() && Wired(old(St())) && St() == Apply(old(St()), c, SmpLock.PreemptDisable)
      ensures var t := current[c]; var n := old(nests)[t];
        nests == old(nests)[t := n.(preempt := n.preempt + 1, sched := n.sched + 1)]
    {
      hide MpModel.Valid, Nested, AfterSchedule, AfterOperation, Switched, Locked, Granted, Unlocked, Entered, Exited;
      InvParts(St(), c);
      CriticalSteps(St(), c, SmpLock.PreemptDisable);
      var n := nests[current[c]];
      nests := nests[current[c] := n.(preempt := n.preempt + 1, sched := n.sched + 1)];
    }

    // _cpu_preempt_enable, up to its call of the scheduler.
    method PreemptEnable(c: CpuId)
      requires Valid() && c < count && CurrentNest(St(), c).wait == No && CurrentNest(St(), c).preempt > 0
      modifies this`nests
      ensures Valid() && Wired(old(St())) && St() == Apply(old(St()), c, SmpLock.PreemptEnable)
      ensures var t := current[c]; var n := old(nests)[t];
        nests == old(nests)[t := n.(preempt := n.preempt - 1, sched := n.sched - 1)]
    {
      hide MpModel.Valid, Nested, AfterSchedule, AfterOperation, Switched, Locked, Granted, Unlocked, Entered, Exited;
      InvParts(St(), c);
      CriticalSteps(St(), c, SmpLock.PreemptEnable);
      var n := nests[current[c]];
      nests := nests[current[c] := n.(preempt := n.preempt - 1, sched := n.sched - 1)];
    }

    // ---------- threads, under the lock ----------

    // rt_thread_init, and rt_thread_startup up to the resume that makes the thread ready.
    method Create(c: CpuId, t: ThreadId, priority: nat, bind: nat)
      requires Valid() && c < count && CurrentNest(St(), c).wait == No && CurrentNest(St(), c).levels != []
      requires t !in threads && priority < max && bind <= count
      modifies this`threads, this`nests
      ensures Valid() && Wired(old(St())) && St() == Apply(old(St()), c, Do(Operation.Create(t, priority, bind)))
      ensures threads == old(threads)[t := MpModel.Thread(Suspended, false, priority, bind, Detached)]
      ensures nests == old(nests)[t := Nest(0, 0, 0, 0, [], true, No)]
    {
      hide MpModel.Valid, Nested, NestOk;
      OperationInv(St(), c, Operation.Create(t, priority, bind));
      InvParts(St(), c);
      threads := threads[t := MpModel.Thread(Suspended, false, priority, bind, Detached)];
      nests := nests[t := FRESH];
      NewNest(old(nests), old(threads), t, threads[t]);
    }

    // rt_thread_resume; false for a thread that is not suspended.
    method Resume(c: CpuId, t: ThreadId) returns (ok: bool)
      requires Valid() && c < count && CurrentNest(St(), c).wait == No && CurrentNest(St(), c).levels != []
      requires t in threads
      modifies this`tables, this`threads
      ensures Valid() && Wired(old(St())) && St() == Apply(old(St()), c, Do(Operation.Resume(t)))
      ensures ok <==> old(threads[t].stat == Suspended)
      ensures !ok ==> threads == old(threads) && tables == old(tables)
      ensures ok ==> threads == old(threads)[t := old(threads)[t].(stat := if old(threads)[t].oncpu == Detached then Ready else Running)]
      ensures ok ==> forall b, p: nat ::
        var x, q := old(threads)[t], List(old(Mp()), b, p);
        List(Mp(), b, p) == if x.oncpu == Detached && b == x.bind && p == x.priority then (if x.yielding then q + [t] else [t] + q) else q
    {
      hide Nested, NestOk, ListedBut, Placed, AfterInsert;
      ghost var s := St();
      OperationInv(s, c, Operation.Resume(t));
      InvParts(s, c);
      ListedIsUsable(s.mp, {});
      ok := threads[t].stat == Suspended;
      if ok {
        InsertThread(t);
        InsertFrame(s.mp, t);
      }
      SameNests(nests, threads);
    }

    // rt_thread_suspend of the running thread; false when it is suspended already.
    method Suspend(c: CpuId) returns (ok: bool)
      requires Valid() && c < count && CurrentNest(St(), c).wait == No && CurrentNest(St(), c).levels != []
      modifies this`tables, this`threads
      ensures Valid() && Wired(old(St())) && St() == Apply(old(St()), c, Do(Operation.Suspend))
      ensures ok <==> old(threads[current[c]].stat == Running)
      ensures threads == if ok then old(threads)[current[c] := old(threads)[current[c]].(stat := Suspended)] else old(threads)
      ensures forall b, p: nat :: List(Mp(), b, p) == List(old(Mp()), b, p)
    {
      hide Nested, NestOk, ListedBut, AfterRemove, List, Without, Locked, Granted, Unlocked, Entered, Exited, AfterSchedule, Holds, Placed;
      ghost var s := St();
      OperationInv(s, c, Operation.Suspend);
      InvParts(s, c);
      PlacedParts(s.mp);
      CurrentUnlisted(s.mp, c, 0, 0);
      forall b, p: nat ensures Without(List(s.mp, b, p), current[c]) == List(s.mp, b, p) { CurrentUnlisted(s.mp, c, b, p); }
      ListedIsUsable(s.mp, {});
      var t := current[c];
      ok := threads[t].stat != Suspended;
      if ok {
        RemoveThread(t);
        RemoveFrame(s.mp, t);
        forall b, p: nat ensures List(Mp(), b, p) == List(s.mp, b, p) { }
        ghost var listed := Mp();
        threads := threads[t := threads[t].(stat := Suspended)];
        forall b, p: nat ensures List(Mp(), b, p) == List(listed, b, p) { SameTables(listed, Mp(), b, p); }
      }
      SameNests(nests, threads);
    }

    // A ready thread changes list with its priority or its processor.
    method Relist(t: ThreadId, x: MpModel.Thread)
      requires MpModel.Valid(Mp()) && |current| == count && t in threads && x.priority < max && x.bind <= count
      requires x.stat == threads[t].stat && x.oncpu == threads[t].oncpu
      modifies this`tables, this`threads
      ensures Mp() == Relisted(old(Mp()), t, x)
      ensures threads == old(threads)[t := x]
      ensures forall b, p: nat ::
        var q := Without(List(old(Mp()), b, p), t);
        List(Mp(), b, p) == if x.stat == Ready && b == x.bind && p == x.priority then (if x.yielding then q + [t] else [t] + q) else q
    {
      hide ListedBut, Placed, AfterRemove, AfterInsert;
      ghost var s := Mp();
      ListedIsUsable(s, {});
      forall b, p: nat ensures List(Relisted(s, t, x), b, p) == ListAfterMove(s, t, x, b, p) { RelistList(s, t, x, b, p); }
      RelistKeeps(s, t, x);
      if threads[t].stat == Ready {
        RemoveUnlists(s, t);
        RemoveFrame(s, t);
        RemoveThread(t);
        OffList(Mp(), t, x);
        threads := threads[t := x];
        ListedIsUsable(Mp(), {t});
        InsertThread(t);
      } else {
        threads := threads[t := x];
      }
    }

    // rt_thread_control with RT_THREAD_CTRL_CHANGE_PRIORITY.
    method ChangePriority(c: CpuId, t: ThreadId, priority: nat)
      requires Valid() && c < count && CurrentNest(St(), c).wait == No && CurrentNest(St(), c).levels != []
      requires t in threads && priority < max
      modifies this`tables, this`threads
      ensures Valid() && Wired(old(St())) && St() == Apply(old(St()), c, Do(Operation.ChangePriority(t, priority)))
      ensures threads == old(threads)[t := old(threads)[t].(priority := priority)]
      ensures forall b, p: nat ::
        var x, q := threads[t], Without(List(old(Mp()), b, p), t);
        List(Mp(), b, p) == if x.stat == Ready && b == x.bind && p == x.priority then (if x.yielding then q + [t] else [t] + q) else q
    {
      hide Nested, NestOk, ListedBut, Placed, Relisted;
      ghost var s := St();
      OperationInv(s, c, Operation.ChangePriority(t, priority));
      InvParts(s, c);
      var x := threads[t].(priority := priority);
      RelistKeeps(s.mp, t, x);
      Relist(t, x);
      SameNests(nests, threads);
    }

    // rt_thread_cpu_bind, up to its call of the scheduler: a number no processor has means any.
    method CpuBind(c: CpuId, t: ThreadId, cpu: nat)
      requires Valid() && c < count && CurrentNest(St(), c).wait == No && CurrentNest(St(), c).levels != []
      requires t in threads
      modifies this`tables, this`threads
      ensures Valid() && Wired(old(St())) && St() == Apply(old(St()), c, Do(Operation.Bind(t, cpu)))
      ensures threads == old(threads)[t := old(threads)[t].(bind := if cpu >= count then count else cpu)]
      ensures forall b, p: nat ::
        var x, q := threads[t], Without(List(old(Mp()), b, p), t);
        List(Mp(), b, p) == if x.stat == Ready && b == x.bind && p == x.priority then (if x.yielding then q + [t] else [t] + q) else q
    {
      hide Nested, NestOk, ListedBut, Placed, Relisted;
      ghost var s := St();
      OperationInv(s, c, Operation.Bind(t, cpu));
      InvParts(s, c);
      var bind := cpu;
      if bind >= count {
        bind := count;
      }
      var x := threads[t].(bind := bind);
      RelistKeeps(s.mp, t, x);
      Relist(t, x);
      SameNests(nests, threads);
    }

    // rt_thread_yield, up to its call of the scheduler.
    method MarkYield(c: CpuId)
      requires Valid() && c < count && CurrentNest(St(), c).wait == No && CurrentNest(St(), c).levels != []
      modifies this`threads
      ensures Valid() && Wired(old(St())) && St() == Apply(old(St()), c, Do(Operation.MarkYield))
      ensures threads == old(threads)[current[c] := old(threads)[current[c]].(yielding := true)]
    {
      hide Nested, NestOk, ListedBut;
      OperationInv(St(), c, Operation.MarkYield);
      InvParts(St(), c);
      PlacedParts(Mp());
      var t := current[c];
      threads := threads[t := threads[t].(yielding := true)];
      SameNests(nests, threads);
    }
  }
}
