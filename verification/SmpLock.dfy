/** The lock of all processors (src/cpu.c) and the nest counters that carry it from thread to thread when a
    processor switches (src/scheduler_mp.c). A step is what one processor does between two points where
    another can interfere; waiting for the spin lock is a state of its own. */
module SmpLock {
  import opened ReadyTables
  import opened MpModel
  import opened Options

  // The spin lock a thread waits for: inside rt_cpus_lock, or inside rt_enter_critical, which then
  // enables interrupts again as they were.
  datatype Wait = No | ForLock | ForCritical(level: bool)

  // A thread's counters: cpus_lock_nest, scheduler_lock_nest, critical_lock_nest, how often it has
  // disabled preemption, the interrupt states its open calls of rt_cpus_lock will restore, whether
  // interrupts are on where it runs or will resume, and what it waits for.
  datatype Nest = Nest(cpus: nat, sched: int, critical: nat, preempt: nat, levels: seq<bool>, irqOn: bool, wait: Wait)

  // irq_nest, irq_switch_flag, and whether the processor is on its way out of an interrupt.
  datatype Cpu = Cpu(irqNest: nat, switchFlag: bool, leaving: bool)

  datatype State = State(mp: MpModel.State, nests: map<ThreadId, Nest>, cpus: seq<Cpu>, holder: Option<CpuId>)

  const FRESH := Nest(0, 0, 0, 0, [], true, No)

  predicate NestOk(n: Nest) {
    && n.sched == (if n.cpus > 0 then 1 else 0) + n.critical + n.preempt
    && n.cpus == |n.levels| + n.critical + (if n.wait.ForCritical? then 1 else 0)
    && (n.levels != [] ==> !n.irqOn)
    && (forall i :: 0 < i < |n.levels| ==> !n.levels[i])
    && (n.wait != No ==> n.cpus == 1 && n.critical == 0 && !n.irqOn)
  }

  // A thread that is on no processor waits for no spin lock and has neither a critical section nor a
  // region without preemption open.
  predicate OffOk(n: Nest) {
    n.critical == 0 && n.preempt == 0 && n.wait == No
  }

  predicate Holding(n: Nest) {
    n.cpus > 0 && n.wait == No
  }

  predicate CpuOk(holder: Option<CpuId>, c: CpuId, n: Nest, k: Cpu) {
    && (holder == Some(c) <==> Holding(n))
    && k.irqNest <= 1 && !(k.irqNest == 1 && k.leaving)
    && (k.irqNest == 1 || k.leaving ==> !n.irqOn && (forall i :: 0 <= i < |n.levels| ==> !n.levels[i]))
    && ((k.irqNest == 1 || k.leaving) && n.wait.ForCritical? ==> !n.wait.level)
  }

  ghost predicate Wired(s: State) {
    MpModel.Valid(s.mp) && |s.cpus| == s.mp.Cpus() && s.nests.Keys == s.mp.threads.Keys
  }

  ghost predicate Nested(s: State)
    requires Wired(s)
  {
    && (forall t: ThreadId :: t in s.nests ==>
      NestOk(s.nests[t]) && (s.mp.threads[t].oncpu == Detached ==> OffOk(s.nests[t])))
    && (forall c: CpuId :: c < |s.cpus| ==> CpuOk(s.holder, c, s.nests[s.mp.current[c]], s.cpus[c]))
    && (s.holder.Some? ==> s.holder.value < |s.cpus|)
  }

  ghost predicate Inv(s: State) {
    Wired(s) && Nested(s)
  }

  datatype Step =
    | Lock | Grant | Unlock // rt_cpus_lock, the spin lock is got, rt_cpus_unlock
    | EnterCritical | ExitCritical // up to the call of the scheduler
    | PreemptDisable | PreemptEnable
    | Schedule // rt_schedule between its lock and its unlock
    | IrqEnter | IrqExit | IrqSwitch | IrqReturn // rt_scheduler_do_irq_switch between its lock and its unlock
    | Do(op: Operation)

  function Locked(n: Nest): Nest {
    n.(levels := n.levels + [n.irqOn], irqOn := false, cpus := n.cpus + 1,
       sched := if n.cpus == 0 then n.sched + 1 else n.sched, wait := if n.cpus == 0 then ForLock else No)
  }

  function Granted(n: Nest): Nest {
    if n.wait.ForCritical?
    then n.(wait := No, critical := n.critical + 1, sched := n.sched + 1, irqOn := n.wait.level)
    else n.(wait := No)
  }

  function Unlocked(n: Nest): Nest
    requires n.levels != [] && n.cpus > 0
  {
    n.(levels := n.levels[..|n.levels| - 1], irqOn := n.levels[|n.levels| - 1], cpus := n.cpus - 1,
       sched := if n.cpus == 1 then n.sched - 1 else n.sched)
  }

  function Entered(n: Nest): Nest {
    if n.cpus == 0
    then n.(cpus := 1, sched := n.sched + 1, irqOn := false, wait := ForCritical(n.irqOn))
    else n.(cpus := n.cpus + 1, critical := n.critical + 1, sched := n.sched + 1)
  }

  function Exited(n: Nest): Nest
    requires n.critical > 0 && n.cpus > 0
  {
    var sched := n.sched - 1 - (if n.cpus == 1 then 1 else 0);
    n.(cpus := n.cpus - 1, critical := n.critical - 1, sched := if sched <= 0 then 0 else sched)
  }

  // The lock is given up when the count of the thread that holds it reaches zero.
  function HolderAfter(holder: Option<CpuId>, n: Nest): Option<CpuId> {
    if n.cpus == 0 then None else holder
  }

  function CurrentNest(s: State, c: CpuId): Nest
    requires c < s.mp.Cpus() && s.mp.current[c] in s.nests
  {
    s.nests[s.mp.current[c]]
  }

  function WithNest(s: State, c: CpuId, n: Nest): State
    requires c < s.mp.Cpus()
  {
    s.(nests := s.nests[s.mp.current[c] := n])
  }

  // rt_cpus_lock_status_restore after the scheduler has chosen: the lock stays with the processor only if
  // the thread it now runs counts on it.
  ghost function Switched(s: State, c: CpuId): State
    requires Wired(s) && c < |s.cpus|
  {
    ScheduleKeeps(s.mp, c);
    var mp := AfterSchedule(s.mp, c);
    var to := mp.current[c];
    s.(mp := mp, holder := if to == s.mp.current[c] then s.holder else HolderAfter(s.holder, s.nests[to]))
  }

  // A step that its caller must not take, or that has to wait, changes nothing.
  ghost function Apply(s: State, c: CpuId, step: Step): State
    requires Wired(s) && c < |s.cpus|
  {
    var n := CurrentNest(s, c);
    var k := s.cpus[c];
    if step == Grant then
      if n.wait == No || s.holder != None then s else WithNest(s, c, Granted(n)).(holder := Some(c))
    else if n.wait != No then s
    else match step
      case Grant => s
      case Lock => WithNest(s, c, Locked(n))
      case Unlock =>
        if n.levels == [] || n.cpus == 0 then s
        else WithNest(s, c, Unlocked(n)).(holder := HolderAfter(s.holder, Unlocked(n)))
      case EnterCritical => WithNest(s, c, Entered(n))
      case ExitCritical =>
        if n.critical == 0 || n.cpus == 0 then s
        else WithNest(s, c, Exited(n)).(holder := HolderAfter(s.holder, Exited(n)))
      case PreemptDisable => WithNest(s, c, n.(preempt := n.preempt + 1, sched := n.sched + 1))
      case PreemptEnable =>
        if n.preempt == 0 then s else WithNest(s, c, n.(preempt := n.preempt - 1, sched := n.sched - 1))
      case Schedule =>
        if n.levels == [] || k.leaving then s
        else if k.irqNest > 0 then s.(cpus := s.cpus[c := k.(switchFlag := true)])
        else if n.sched == 1 then Switched(s, c)
        else s
      case IrqEnter =>
        if !n.irqOn || k.irqNest > 0 || k.leaving then s
        else WithNest(s, c, n.(irqOn := false)).(cpus := s.cpus[c := k.(irqNest := 1)])
      case IrqExit =>
        if k.irqNest != 1 || n.levels != [] then s
        else s.(cpus := s.cpus[c := k.(irqNest := 0, leaving := true)])
      case IrqSwitch =>
        if !k.leaving || |n.levels| != 1 || !k.switchFlag || n.sched != 1 then s
        else
          var s1 := s.(cpus := s.cpus[c := k.(switchFlag := false)]);
          if AfterSchedule(s.mp, c).current[c] == s.mp.current[c] then Switched(s1, c)
          else
            // the interrupted thread gives up the count it holds for the switch
            var n1 := n.(cpus := if n.cpus > 0 then n.cpus - 1 else 0, sched := n.sched - 1, levels := [], irqOn := true);
            Switched(WithNest(s, c, n1), c).(cpus := s.cpus[c := k.(switchFlag := false, leaving := false)])
      case IrqReturn =>
        if !k.leaving || n.levels != [] then s
        else WithNest(s, c, n.(irqOn := true)).(cpus := s.cpus[c := k.(leaving := false)])
      case Do(op) =>
        if n.levels == [] then s
        else
          var mp := AfterOperation(s.mp, c, op);
          s.(mp := mp, nests := map t: ThreadId | t in mp.threads :: if t in s.nests then s.nests[t] else FRESH)
  }

  // A change of one processor, of the counters of the thread on it, and of the lock if that processor has it
  // or nobody has.
  lemma {:induction false} OneProcessor(s: State, s1: State, c: CpuId, n: Nest, k: Cpu)
    requires Inv(s) && c < |s.cpus|
    requires s1.mp == s.mp && s1.nests == s.nests[s.mp.current[c] := n] && s1.cpus == s.cpus[c := k]
    requires s.holder in {None, Some(c)} || s1.holder == s.holder
    requires s1.holder in {None, Some(c)} || s1.holder == s.holder
    requires NestOk(n) && CpuOk(s1.holder, c, n, k)
    ensures Inv(s1)
  {
    hide MpModel.Valid, NestOk;
    PlacedParts(s.mp);
    var cur := s.mp.current[c];
    forall d: CpuId | d < |s1.cpus| ensures CpuOk(s1.holder, d, s1.nests[s1.mp.current[d]], s1.cpus[d]) {
      assert CpuOk(s.holder, d, s.nests[s.mp.current[d]], s.cpus[d]);
      if d != c { assert s.mp.current[d] != cur; }
    }
  }

  lemma {:induction false} PlacedParts(mp: MpModel.State)
    requires MpModel.Valid(mp)
    ensures forall c: CpuId :: c < mp.Cpus() ==> mp.current[c] in mp.threads && mp.threads[mp.current[c]].oncpu == On(c)
  {
    hide ListedBut;
  }

  // The processor goes on with the thread the scheduler chose.
  lemma {:induction false} SwitchInv(s: State, c: CpuId, s1: State, n: Nest, k: Cpu)
    requires Inv(s) && c < |s.cpus| && s.holder == Some(c) && k.irqNest == 0 && !k.leaving
    requires var to := AfterSchedule(s.mp, c).current[c];
      to != s.mp.current[c] && NestOk(n) && OffOk(n) && s1.nests == s.nests[s.mp.current[c] := n]
      && to in s.nests && s1.holder == HolderAfter(s.holder, s.nests[to])
    requires s1.mp == AfterSchedule(s.mp, c) && s1.cpus == s.cpus[c := k]
    ensures Inv(s1) && NoneOutranks(s1.mp, c)
  {
    hide MpModel.Valid, NestOk, NoneOutranks, AfterSchedule;
    ScheduleKeeps(s.mp, c);
    SwitchedOff(s.mp, c);
    PlacedParts(s.mp);
    PlacedParts(s1.mp);
    var to := s1.mp.current[c];
    var cur := s.mp.current[c];
    assert OffOk(s.nests[to]);
    forall d: CpuId | d < |s1.cpus| ensures CpuOk(s1.holder, d, s1.nests[s1.mp.current[d]], s1.cpus[d]) {
      assert CpuOk(s.holder, d, s.nests[s.mp.current[d]], s.cpus[d]);
      if d != c { assert s.mp.current[d] != cur; }
    }
  }

  // Scheduling on processor c moves no thread between being on a processor and off, but the two it switches.
  lemma {:induction false} SwitchedOff(mp: MpModel.State, c: CpuId)
    requires MpModel.Valid(mp) && c < mp.Cpus()
    ensures var mp1 := AfterSchedule(mp, c); mp1.threads.Keys == mp.threads.Keys && c < mp1.Cpus()
    ensures var mp1 := AfterSchedule(mp, c);
      forall t: ThreadId :: t in mp.threads && t != mp.current[c] && mp1.threads[t].oncpu == Detached ==>
        mp.threads[t].oncpu == Detached
    ensures var mp1 := AfterSchedule(mp, c); mp1.current[c] == mp.current[c] ==>
      forall t: ThreadId :: t in mp.threads && mp1.threads[t].oncpu == Detached ==> mp.threads[t].oncpu == Detached
  {
    hide ListedBut, TakenOff, PutOn, Highest, PickTable, AfterSchedule, NoneOutranks;
    ScheduleKeeps(mp, c);
    var mp1 := AfterSchedule(mp, c);
    forall t: ThreadId | t in mp.threads && mp.threads[t].oncpu != Detached
        && (t != mp.current[c] || mp1.current[c] == mp.current[c])
      ensures mp1.threads[t].oncpu != Detached
    {
      var d := mp.threads[t].oncpu.cpu;
      assert ThreadPlaced(mp.current, t, mp.threads[t]);
      assert mp1.current[d] == t;
      assert mp1.threads[mp1.current[d]].oncpu == On(d);
    }
  }

  // With the lock counted and nothing else open, the scheduler may switch; only then.
  lemma {:induction false} MaySwitch(n: Nest)
    requires NestOk(n) && n.cpus > 0
    ensures n.sched == 1 <==> n.critical == 0 && n.preempt == 0
  {
  }

  lemma {:induction false} StayInv(s: State, c: CpuId, s1: State, k: Cpu)
    requires Inv(s) && c < |s.cpus| && AfterSchedule(s.mp, c).current[c] == s.mp.current[c]
    requires s1 == s.(mp := AfterSchedule(s.mp, c), cpus := s.cpus[c := k])
    requires CpuOk(s.holder, c, CurrentNest(s, c), k)
    ensures Inv(s1) && NoneOutranks(s1.mp, c)
  {
    hide MpModel.Valid, NestOk, NoneOutranks, AfterSchedule;
    ScheduleKeeps(s.mp, c);
    SwitchedOff(s.mp, c);
    PlacedParts(s.mp);
    PlacedParts(s1.mp);
    forall d: CpuId | d < |s1.cpus| ensures CpuOk(s1.holder, d, s1.nests[s1.mp.current[d]], s1.cpus[d]) {
      assert CpuOk(s.holder, d, s.nests[s.mp.current[d]], s.cpus[d]);
    }
  }

  lemma {:induction false} OperationInv(s: State, c: CpuId, op: Operation)
    requires Inv(s) && c < |s.cpus|
    ensures Inv(Apply(s, c, Do(op)))
  {
    hide MpModel.Valid, NestOk, AfterOperation, CpuOk, OffOk;
    OperationKeeps(s.mp, c, op);
    var s1 := Apply(s, c, Do(op));
    PlacedParts(s.mp);
    PlacedParts(s1.mp);
    FreshOk();
    if CurrentNest(s, c).wait == No && CurrentNest(s, c).levels != [] {
      OperationThreads(s.mp, c, op);
      forall t: ThreadId | t in s1.nests
        ensures NestOk(s1.nests[t]) && (s1.mp.threads[t].oncpu == Detached ==> OffOk(s1.nests[t]))
      {
        if t in s.nests { assert s1.nests[t] == s.nests[t]; } else { assert s1.nests[t] == FRESH; }
      }
      forall d: CpuId | d < |s1.cpus| ensures CpuOk(s1.holder, d, s1.nests[s1.mp.current[d]], s1.cpus[d]) {
        assert CpuOk(s.holder, d, s.nests[s.mp.current[d]], s.cpus[d]);
      }
    }
  }

  lemma {:induction false} FreshOk()
    ensures NestOk(FRESH) && OffOk(FRESH)
  {
  }

  // No operation forgets a thread or takes one off a processor.
  lemma {:induction false} OperationThreads(mp: MpModel.State, c: CpuId, op: Operation)
    requires MpModel.Valid(mp) && c < mp.Cpus()
    ensures var mp1 := AfterOperation(mp, c, op);
      forall t: ThreadId :: t in mp.threads ==> t in mp1.threads && mp1.threads[t].oncpu == mp.threads[t].oncpu
  {
    hide ListedBut, Inserted, Removed, RankOf, Relisted, Placed, AfterRemove;
    PlacedParts(mp);
    match op {
      case ChangePriority(t, p) =>
        if t in mp.threads && p < mp.max { RelistKeeps(mp, t, mp.threads[t].(priority := p)); }
      case Bind(t, b) =>
        if t in mp.threads {
          RelistKeeps(mp, t, mp.threads[t].(bind := if b >= mp.Cpus() then mp.Cpus() else b));
        }
      case _ => SuspendFrame(mp, mp.current[c]);
    }
  }

  lemma {:induction false} SuspendFrame(mp: MpModel.State, t: ThreadId)
    requires MpModel.Valid(mp) && t in mp.threads
    ensures forall b: nat :: b < |mp.tables| ==> Shaped(mp.max, mp.tables[b])
    ensures AfterRemove(mp, t).threads == mp.threads
  {
    ListedShapes(mp, {});
  }

  lemma {:induction false} LockOk(n: Nest)
    requires NestOk(n) && n.wait == No
    ensures NestOk(Locked(n)) && NestOk(Entered(n))
    ensures n.levels != [] && n.cpus > 0 ==> NestOk(Unlocked(n))
    ensures n.critical > 0 && n.cpus > 0 ==> NestOk(Exited(n))
    ensures n.preempt > 0 ==> NestOk(n.(preempt := n.preempt - 1, sched := n.sched - 1))
    ensures NestOk(n.(preempt := n.preempt + 1, sched := n.sched + 1))
  {
  }

  lemma {:induction false} LockSteps(s: State, c: CpuId, step: Step)
    requires Inv(s) && c < |s.cpus| && step in {Lock, Grant, Unlock}
    ensures Inv(Apply(s, c, step)) && |Apply(s, c, step).cpus| == |s.cpus|
  {
    hide MpModel.Valid, AfterOperation, AfterSchedule;
    PlacedParts(s.mp);
    var n := CurrentNest(s, c);
    var k := s.cpus[c];
    var s1 := Apply(s, c, step);
    assert NestOk(n) && CpuOk(s.holder, c, n, k);
    assert s.cpus[c := k] == s.cpus;
    if n.wait == No { LockOk(n); }
    hide Inv, Wired, Nested;
    if s1 != s {
      OneProcessor(s, s1, c, s1.nests[s.mp.current[c]], k);
    }
  }

  lemma {:induction false} CriticalSteps(s: State, c: CpuId, step: Step)
    requires Inv(s) && c < |s.cpus| && step in {EnterCritical, ExitCritical, PreemptDisable, PreemptEnable}
    ensures Inv(Apply(s, c, step)) && |Apply(s, c, step).cpus| == |s.cpus|
  {
    hide MpModel.Valid, AfterOperation, AfterSchedule;
    PlacedParts(s.mp);
    var n := CurrentNest(s, c);
    var k := s.cpus[c];
    var s1 := Apply(s, c, step);
    assert NestOk(n) && CpuOk(s.holder, c, n, k);
    assert s.cpus[c := k] == s.cpus;
    if n.wait == No { LockOk(n); }
    hide Inv, Wired, Nested;
    if s1 != s {
      OneProcessor(s, s1, c, s1.nests[s.mp.current[c]], k);
    }
  }

  lemma {:induction false} IrqSteps(s: State, c: CpuId, step: Step)
    requires Inv(s) && c < |s.cpus| && step in {IrqEnter, IrqExit, IrqReturn}
    ensures Inv(Apply(s, c, step)) && |Apply(s, c, step).cpus| == |s.cpus|
  {
    hide MpModel.Valid, AfterOperation, AfterSchedule;
    PlacedParts(s.mp);
    var n := CurrentNest(s, c);
    var k := s.cpus[c];
    var s1 := Apply(s, c, step);
    assert NestOk(n) && CpuOk(s.holder, c, n, k);
    assert s.nests[s.mp.current[c] := n] == s.nests;
    if s1 != s {
      OneProcessor(s, s1, c, s1.nests[s.mp.current[c]], s1.cpus[c]);
    }
  }

  // Every step keeps the counters, the lock and the scheduler right on every processor.
  lemma {:induction false} StepKeeps(s: State, c: CpuId, step: Step)
    requires Inv(s) && c < |s.cpus|
    ensures Inv(Apply(s, c, step)) && |Apply(s, c, step).cpus| == |s.cpus|
  {
    hide MpModel.Valid, AfterOperation, AfterSchedule, Nested, CpuOk;
    PlacedParts(s.mp);
    if CurrentNest(s, c).wait == No || step == Grant {
      match step {
        case Schedule => ScheduleInv(s, c);
        case IrqSwitch => IrqSwitchInv(s, c);
        case Do(op) => OperationInv(s, c, op);
        case IrqEnter => IrqSteps(s, c, step);
        case IrqExit => IrqSteps(s, c, step);
        case IrqReturn => IrqSteps(s, c, step);
        case EnterCritical => CriticalSteps(s, c, step);
        case ExitCritical => CriticalSteps(s, c, step);
        case PreemptDisable => CriticalSteps(s, c, step);
        case PreemptEnable => CriticalSteps(s, c, step);
        case _ => LockSteps(s, c, step);
      }
    }
  }

  // rt_schedule on a processor that may switch leaves no ready thread it may run above the one it runs.
  lemma {:induction false} ScheduleInv(s: State, c: CpuId)
    requires Inv(s) && c < |s.cpus| && CurrentNest(s, c).wait == No
    ensures Inv(Apply(s, c, Schedule)) && |Apply(s, c, Schedule).cpus| == |s.cpus|
    ensures CurrentNest(s, c).levels != [] && s.cpus[c].irqNest > 0 && !s.cpus[c].leaving ==>
      Apply(s, c, Schedule) == s.(cpus := Apply(s, c, Schedule).cpus)
      && Apply(s, c, Schedule).cpus[c] == Cpu(s.cpus[c].irqNest, true, false)
    ensures CurrentNest(s, c).levels != [] && s.cpus[c].irqNest == 0 && CurrentNest(s, c).sched != 1 ==> Apply(s, c, Schedule) == s
    ensures CurrentNest(s, c).levels != [] && s.cpus[c] == Cpu(0, s.cpus[c].switchFlag, false) && CurrentNest(s, c).sched == 1
      ==> NoneOutranks(Apply(s, c, Schedule).mp, c)
  {
    hide MpModel.Valid, AfterSchedule, NoneOutranks;
    PlacedParts(s.mp);
    var n := CurrentNest(s, c);
    var k := s.cpus[c];
    var s1 := Apply(s, c, Schedule);
    assert NestOk(n) && CpuOk(s.holder, c, n, k);
    assert s.nests[s.mp.current[c] := n] == s.nests && s.cpus[c := k] == s.cpus;
    if n.levels != [] && !k.leaving {
      if k.irqNest > 0 {
        OneProcessor(s, s1, c, n, k.(switchFlag := true));
      } else if n.sched == 1 {
        MaySwitch(n);
        ScheduleKeeps(s.mp, c);
        PlacedParts(AfterSchedule(s.mp, c));
        if AfterSchedule(s.mp, c).current[c] == s.mp.current[c] {
          StayInv(s, c, s1, k);
        } else {
          SwitchInv(s, c, s1, n, k);
        }
      }
    }
  }

  lemma {:induction false} IrqSwitchInv(s: State, c: CpuId)
    requires Inv(s) && c < |s.cpus| && CurrentNest(s, c).wait == No
    ensures Inv(Apply(s, c, IrqSwitch)) && |Apply(s, c, IrqSwitch).cpus| == |s.cpus|
    ensures MaySwitchOut(s, c) ==>
      NoneOutranks(Apply(s, c, IrqSwitch).mp, c) && !Apply(s, c, IrqSwitch).cpus[c].switchFlag
    ensures !MaySwitchOut(s, c) ==> Apply(s, c, IrqSwitch) == s
  {
    hide MpModel.Valid, AfterSchedule, NoneOutranks, AfterOperation, Locked, Granted, Unlocked, Entered, Exited;
    PlacedParts(s.mp);
    var n := CurrentNest(s, c);
    var k := s.cpus[c];
    assert NestOk(n) && CpuOk(s.holder, c, n, k);
    if MaySwitchOut(s, c) {
      MaySwitch(n);
      ScheduleKeeps(s.mp, c);
      PlacedParts(AfterSchedule(s.mp, c));
      if AfterSchedule(s.mp, c).current[c] == s.mp.current[c] {
        StayInv(s, c, Apply(s, c, IrqSwitch), k.(switchFlag := false));
      } else {
        SwitchOutInv(s, c);
      }
    }
  }

  // What rt_scheduler_do_irq_switch asks for on the way out of an interrupt.
  ghost predicate MaySwitchOut(s: State, c: CpuId)
    requires c < |s.cpus| && c < s.mp.Cpus() && s.mp.current[c] in s.nests
  {
    s.cpus[c].switchFlag && s.cpus[c].leaving && |CurrentNest(s, c).levels| == 1 && CurrentNest(s, c).sched == 1
  }

  // What such a switch does.
  lemma {:induction false} SwitchOutIs(s: State, c: CpuId)
    requires Wired(s) && c < |s.cpus| && s.mp.current[c] in s.nests && CurrentNest(s, c).wait == No && MaySwitchOut(s, c)
    requires AfterSchedule(s.mp, c).Cpus() == s.mp.Cpus() && AfterSchedule(s.mp, c).current[c] != s.mp.current[c]
    requires AfterSchedule(s.mp, c).current[c] in s.nests && CurrentNest(s, c).cpus > 0
    ensures var r, n := Apply(s, c, IrqSwitch), CurrentNest(s, c);
      && r.mp == AfterSchedule(s.mp, c)
      && r.cpus == s.cpus[c := s.cpus[c].(switchFlag := false, leaving := false)]
      && r.nests == s.nests[s.mp.current[c] := n.(cpus := n.cpus - 1, sched := n.sched - 1, levels := [], irqOn := true)]
      && r.holder == HolderAfter(s.holder, s.nests[AfterSchedule(s.mp, c).current[c]])
  {
    hide MpModel.Valid, AfterSchedule, AfterOperation, Locked, Granted, Unlocked, Entered, Exited;
  }

  // The interrupted thread gives up the one count it has, and has nothing open.
  lemma {:induction false} LeftByIrq(n: Nest)
    requires NestOk(n) && |n.levels| == 1 && n.sched == 1 && n.wait == No
    ensures n.cpus == 1
    ensures var n1 := n.(cpus := n.cpus - 1, sched := n.sched - 1, levels := [], irqOn := true); NestOk(n1) && OffOk(n1)
  {
    MaySwitch(n);
  }

  lemma {:induction false} SwitchOutInv(s: State, c: CpuId)
    requires Inv(s) && c < |s.cpus| && s.mp.current[c] in s.nests && CurrentNest(s, c).wait == No && MaySwitchOut(s, c)
    requires AfterSchedule(s.mp, c).Cpus() == s.mp.Cpus() && AfterSchedule(s.mp, c).current[c] != s.mp.current[c]
    ensures Inv(Apply(s, c, IrqSwitch)) && |Apply(s, c, IrqSwitch).cpus| == |s.cpus|
    ensures NoneOutranks(Apply(s, c, IrqSwitch).mp, c) && !Apply(s, c, IrqSwitch).cpus[c].switchFlag
  {
    hide MpModel.Valid, AfterSchedule, NoneOutranks, Apply, NestOk, OffOk;
    PlacedParts(s.mp);
    var n := CurrentNest(s, c);
    var k := s.cpus[c];
    assert NestOk(n) && CpuOk(s.holder, c, n, k);
    LeftByIrq(n);
    ScheduleKeeps(s.mp, c);
    PlacedParts(AfterSchedule(s.mp, c));
    SwitchOutIs(s, c);
    SwitchInv(s, c, Apply(s, c, IrqSwitch), n.(cpus := n.cpus - 1, sched := n.sched - 1, levels := [], irqOn := true),
      k.(switchFlag := false, leaving := false));
  }

  // An interrupt is taken with interrupts off until its way out is over; none interrupts another.
  lemma {:induction false} IrqEffect(s: State, c: CpuId)
    requires Inv(s) && c < |s.cpus| && s.mp.current[c] in s.nests && CurrentNest(s, c).wait == No
    ensures var t, n, k := s.mp.current[c], CurrentNest(s, c), s.cpus[c];
      && (n.irqOn && k.irqNest == 0 && !k.leaving ==>
        Apply(s, c, IrqEnter) == s.(nests := s.nests[t := n.(irqOn := false)], cpus := s.cpus[c := k.(irqNest := 1)]))
      && (!n.irqOn || k.irqNest > 0 ==> Apply(s, c, IrqEnter) == s)
      && (k.irqNest == 1 && n.levels == [] ==>
        Apply(s, c, IrqExit) == s.(cpus := s.cpus[c := k.(irqNest := 0, leaving := true)]))
      && (k.leaving && n.levels == [] ==>
        Apply(s, c, IrqReturn) == s.(nests := s.nests[t := n.(irqOn := true)], cpus := s.cpus[c := k.(leaving := false)]))
  {
    hide MpModel.Valid, Nested, AfterSchedule, NoneOutranks, AfterOperation, Locked, Granted, Unlocked, Entered, Exited;
  }

  // After interrupts, preemption and critical sections of any depth: one thread at most counts on the lock
  // and is past the spin lock, and it runs on the processor that holds the lock.
  lemma {:induction false} OneHolder(s: State, c: CpuId, d: CpuId)
    requires Inv(s) && c < |s.cpus| && d < |s.cpus|
    ensures s.mp.current[c] in s.nests && s.mp.current[d] in s.nests
    ensures s.holder == Some(c) <==> Holding(CurrentNest(s, c))
    ensures Holding(CurrentNest(s, c)) && Holding(CurrentNest(s, d)) ==> c == d
  {
    PlacedParts(s.mp);
    assert CpuOk(s.holder, c, CurrentNest(s, c), s.cpus[c]) && CpuOk(s.holder, d, CurrentNest(s, d), s.cpus[d]);
  }

  // The test `scheduler_lock_nest == 1` under the lock says exactly that the thread has no critical section
  // open and preemption enabled; on the way out of an interrupt it says besides that the switch's own lock
  // is the only one, so the one decrement there leaves the interrupted thread with no count on the lock.
  lemma {:induction false} SwitchTest(s: State, c: CpuId)
    requires Inv(s) && c < |s.cpus| && s.mp.current[c] in s.nests && CurrentNest(s, c).cpus > 0
    ensures var n := CurrentNest(s, c); n.sched == 1 <==> n.critical == 0 && n.preempt == 0
    ensures var n := CurrentNest(s, c); n.sched == 1 && n.wait == No && s.cpus[c].leaving && |n.levels| == 1 ==> n.cpus == 1
  {
    assert NestOk(CurrentNest(s, c));
  }

  lemma {:induction false} LockReturns(n: Nest)
    requires n.wait == No
    ensures var n1 := Granted(Locked(n)); n1.levels != [] && n1.cpus > 0 && n1.wait == No && Unlocked(n1) == n
    ensures n.cpus > 0 <==> Locked(n).wait == No
    ensures n.cpus > 0 ==> Granted(Locked(n)) == Locked(n)
  {
    assert (n.levels + [n.irqOn])[..|n.levels|] == n.levels;
  }

  lemma {:induction false} CriticalReturns(n: Nest)
    requires NestOk(n) && n.wait == No
    ensures var n2 := Granted(Entered(n)); n2.critical > 0 && n2.cpus > 0 && n2.wait == No && Exited(n2) == n
    ensures n.cpus > 0 <==> Entered(n).wait == No
    ensures n.cpus > 0 ==> Granted(Entered(n)) == Entered(n)
  {
  }

  lemma {:induction false} NestsReturn(n: Nest)
    requires NestOk(n) && n.wait == No
    ensures var n1 := Granted(Locked(n)); n1.levels != [] && n1.cpus > 0 && Unlocked(n1) == n
    ensures var n2 := Granted(Entered(n)); n2.critical > 0 && n2.cpus > 0 && Exited(n2) == n
    ensures Granted(Locked(n)).wait == No && Granted(Entered(n)).wait == No
    ensures n.cpus > 0 <==> Locked(n).wait == No
    ensures n.cpus > 0 <==> Entered(n).wait == No
    ensures n.cpus > 0 ==> Granted(Locked(n)) == Locked(n) && Granted(Entered(n)) == Entered(n)
  {
    hide Locked, Granted, Unlocked, Entered, Exited, NestOk;
    LockReturns(n);
    CriticalReturns(n);
  }

  lemma {:induction false} InvParts(s: State, c: CpuId)
    requires Inv(s) && c < |s.cpus|
    ensures Wired(s) && s.mp.current[c] in s.nests
    ensures var n := CurrentNest(s, c); NestOk(n) && (s.holder == Some(c) <==> Holding(n))
  {
    assert CpuOk(s.holder, c, CurrentNest(s, c), s.cpus[c]);
    PlacedParts(s.mp);
  }

  function Idles(n: nat): (r: seq<ThreadId>)
    ensures |r| == n && forall i: nat :: i < n ==> r[i] == i
  {
    if n == 0 then [] else Idles(n - 1) + [n - 1]
  }

  // As the processors start: each runs its idle thread.
  ghost function Boot(cpus: nat, max: nat): State
    requires 0 < max <= 32
  {
    var threads := map t: ThreadId | t in Idles(cpus) :: MpModel.Thread(Running, false, max - 1, t, On(t));
    var mp := MpModel.State.State(max, seq(cpus + 1, i => Empty(max)), threads, Idles(cpus));
    State.State(mp, map t: ThreadId | t in threads :: FRESH, seq(cpus, i => Cpu(0, false, false)), None)
  }

  lemma {:induction false} BootInv(cpus: nat, max: nat)
    requires 0 < max <= 32
    ensures Inv(Boot(cpus, max))
  {
    var s := Boot(cpus, max);
    EmptyAgrees(max);
    hide Agrees;
    assert s.mp.Cpus() == cpus && |s.mp.tables| == cpus + 1;
    forall c: CpuId | c < cpus ensures s.mp.current[c] in s.mp.threads { assert Idles(cpus)[c] in Idles(cpus); }
    forall b: nat | b < |s.mp.tables| ensures TableHolds(max, s.mp.threads, {}, b, s.mp.tables[b]) {
      forall p: nat | p < max ensures Holds(s.mp.threads, {}, b, p, s.mp.tables[b].queues[p]) { }
    }
  }

  ghost function Run(s: State, script: seq<(CpuId, Step)>): State
    requires Inv(s)
    decreases |script|
  {
    if script == [] then s
    else if script[0].0 < |s.cpus| then
      StepKeeps(s, script[0].0, script[0].1);
      Run(Apply(s, script[0].0, script[0].1), script[1..])
    else Run(s, script[1..])
  }

  // Safety over every run from start-up, however the steps of the processors interleave.
  lemma {:induction false} EveryRun(cpus: nat, max: nat, script: seq<(CpuId, Step)>)
    requires 0 < max <= 32
    ensures Inv(Boot(cpus, max)) && Inv(Run(Boot(cpus, max), script))
  {
    BootInv(cpus, max);
    RunKeeps(Boot(cpus, max), script);
  }

  // So over every run: a processor holds the lock iff its thread counts on it and is past the spin lock, at
  // most one does, and there the test of the scheduler finds out whether a critical section or a region
  // without preemption is open.
  lemma {:induction false} RunSafety(cpus: nat, max: nat, script: seq<(CpuId, Step)>, c: CpuId, d: CpuId)
    requires 0 < max <= 32
    ensures Inv(Boot(cpus, max)) && Wired(Run(Boot(cpus, max), script))
    ensures var s := Run(Boot(cpus, max), script); c < |s.cpus| && d < |s.cpus| ==>
      && s.mp.current[c] in s.nests && s.mp.current[d] in s.nests
      && (s.holder == Some(c) <==> Holding(CurrentNest(s, c)))
      && (Holding(CurrentNest(s, c)) && Holding(CurrentNest(s, d)) ==> c == d)
      && (s.holder == Some(c) ==>
        (CurrentNest(s, c).sched == 1 <==> CurrentNest(s, c).critical == 0 && CurrentNest(s, c).preempt == 0))
  {
    hide Run, Boot, Inv;
    EveryRun(cpus, max, script);
    var s := Run(Boot(cpus, max), script);
    InvIsWired(s);
    if c < |s.cpus| && d < |s.cpus| {
      OneHolder(s, c, d);
      if s.holder == Some(c) { SwitchTest(s, c); }
    }
  }

  lemma {:induction false} RunKeeps(s: State, script: seq<(CpuId, Step)>)
    requires Inv(s)
    ensures Inv(Run(s, script))
    decreases |script|
  {
    hide Inv, Apply;
    if script != [] {
      if script[0].0 < |s.cpus| {
        StepKeeps(s, script[0].0, script[0].1);
        InvIsWired(s);
        RunKeeps(Apply(s, script[0].0, script[0].1), script[1..]);
      } else {
        RunKeeps(s, script[1..]);
      }
    }
  }

  lemma {:induction false} InvIsWired(s: State)
    requires Inv(s)
    ensures Wired(s)
  {
  }

  lemma {:induction false} ApplyLock(s: State, c: CpuId)
    requires Wired(s) && c < |s.cpus| && CurrentNest(s, c).wait == No
    ensures Apply(s, c, Lock) == WithNest(s, c, Locked(CurrentNest(s, c)))
    ensures Apply(s, c, EnterCritical) == WithNest(s, c, Entered(CurrentNest(s, c)))
  {
  }

  lemma {:induction false} ApplyGrant(s: State, c: CpuId)
    requires Wired(s) && c < |s.cpus| && (s.holder == None || CurrentNest(s, c).wait == No)
    ensures Apply(s, c, Grant) ==
      if CurrentNest(s, c).wait == No then s else WithNest(s, c, Granted(CurrentNest(s, c))).(holder := Some(c))
  {
  }

  lemma {:induction false} ApplyUnlock(s: State, c: CpuId)
    requires Wired(s) && c < |s.cpus| && CurrentNest(s, c).wait == No && CurrentNest(s, c).cpus > 0
    ensures var n := CurrentNest(s, c); n.levels != [] ==>
      Apply(s, c, Unlock) == WithNest(s, c, Unlocked(n)).(holder := HolderAfter(s.holder, Unlocked(n)))
    ensures var n := CurrentNest(s, c); n.critical > 0 ==>
      Apply(s, c, ExitCritical) == WithNest(s, c, Exited(n)).(holder := HolderAfter(s.holder, Exited(n)))
  {
  }

  lemma {:induction false} RunOne(s: State, c: CpuId, a: Step, rest: seq<(CpuId, Step)>)
    requires Inv(s) && c < |s.cpus| && Wired(s)
    ensures Inv(Apply(s, c, a)) && |Apply(s, c, a).cpus| == |s.cpus|
    ensures Run(s, [(c, a)] + rest) == Run(Apply(s, c, a), rest)
  {
    hide Apply, Inv, Wired;
    StepKeeps(s, c, a);
    assert ([(c, a)] + rest)[1..] == rest;
  }

  lemma {:induction false} RunNone(s: State)
    requires Inv(s)
    ensures Run(s, []) == s
  {
  }

  // Taking the free lock and giving it back leaves everything as it was; so does taking a lock already held.
  lemma {:induction false} LockAndUnlock(s: State, c: CpuId)
    requires Inv(s) && c < |s.cpus| && s.mp.current[c] in s.nests && CurrentNest(s, c).wait == No
    requires s.holder in {None, Some(c)}
    ensures Run(s, [(c, Lock)] + ([(c, Grant)] + ([(c, Unlock)] + []))) == s
  {
    hide Apply, Run, Inv, MpModel.Valid, NestOk, Unlocked, Locked, Granted;
    InvParts(s, c);
    NestsReturn(CurrentNest(s, c));
    RunOne(s, c, Lock, [(c, Grant)] + ([(c, Unlock)] + []));
    ApplyLock(s, c);
    var s1 := Apply(s, c, Lock);
    InvParts(s1, c);
    RunOne(s1, c, Grant, [(c, Unlock)] + []);
    ApplyGrant(s1, c);
    var s2 := Apply(s1, c, Grant);
    InvParts(s2, c);
    RunOne(s2, c, Unlock, []);
    ApplyUnlock(s2, c);
    var s3 := Apply(s2, c, Unlock);
    assert s3.nests == s.nests;
    RunNone(s3);
  }

  // The same holds of a critical section.
  lemma {:induction false} EnterAndExit(s: State, c: CpuId)
    requires Inv(s) && c < |s.cpus| && s.mp.current[c] in s.nests && CurrentNest(s, c).wait == No
    requires s.holder in {None, Some(c)}
    ensures Run(s, [(c, EnterCritical)] + ([(c, Grant)] + ([(c, ExitCritical)] + []))) == s
  {
    hide Apply, Run, Inv, MpModel.Valid, NestOk, Exited, Entered, Granted;
    InvParts(s, c);
    NestsReturn(CurrentNest(s, c));
    RunOne(s, c, EnterCritical, [(c, Grant)] + ([(c, ExitCritical)] + []));
    ApplyLock(s, c);
    var s1 := Apply(s, c, EnterCritical);
    InvParts(s1, c);
    RunOne(s1, c, Grant, [(c, ExitCritical)] + []);
    ApplyGrant(s1, c);
    var s2 := Apply(s1, c, Grant);
    InvParts(s2, c);
    RunOne(s2, c, ExitCritical, []);
    ApplyUnlock(s2, c);
    var s3 := Apply(s2, c, ExitCritical);
    assert s3.nests == s.nests;
    RunNone(s3);
  }
}
