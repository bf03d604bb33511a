/** The scheduler with its fields: the ready lists are found through the bitmap. Each operation does to
    the lists and the threads what UpModel says, and keeps the bitmap in agreement with the lists. */
module SchedulersUp {
  import opened BitScan
  import opened Lists
  import opened ReadyTables
  import opened UpModel

  class Scheduler {
    const max: nat // RT_THREAD_PRIORITY_MAX
    var ready: Table
    var threads: map<ThreadId, Thread>
    var current: ThreadId
    var lockNest: nat

    ghost function St(): State
      reads this
    {
      State(ready.queues, threads, current, lockNest)
    }

    // The bitmap agrees with the lists, and the masks of started threads with their priorities.
    ghost predicate Indexed()
      reads this
    {
      0 < max <= 256 && Agrees(max, ready) && Ranked(max, threads)
    }

    ghost predicate Valid()
      reads this
    {
      Indexed() && UpModel.Valid(max, St())
    }

    // Before the first thread runs: `idle` stands for the context rt_system_scheduler_start leaves.
    constructor (max: nat, idle: ThreadId)
      requires 0 < max <= 256
      ensures Valid() && this.max == max && current == idle && lockNest == 0
      ensures threads == map[idle := Thread(Running, false, RankOf(max, max - 1))] && ready == Empty(max)
    {
      this.max := max;
      ready := Empty(max);
      threads := map[idle := Thread(Running, false, RankOf(max, max - 1))];
      current := idle;
      lockNest := 0;
      new;
      EmptyAgrees(max);
      forall p: nat | p < max ensures Holds(threads, {}, p, ready.queues[p]) { }
    }

    // rt_thread_init: a new thread is on no list and its masks are not computed yet.
    method Create(t: ThreadId, priority: nat)
      requires Valid() && t !in threads && priority < max
      modifies this`threads
      ensures Valid()
      ensures threads == old(threads)[t := Thread(Init, false, Rank(priority, 0, ZERO, ZERO))]
    {
      ghost var s := St();
      threads := threads[t := Thread(Init, false, Rank(priority, 0, ZERO, ZERO))];
      forall p: nat | p < max ensures Holds(threads, {}, p, ready.queues[p]) {
        assert Holds(s.threads, {}, p, s.queues[p]);
      }
    }

    method InsertThread(t: ThreadId)
      requires Indexed() && t in threads && threads[t].stat !in {Init, Closed} && threads[t].rank.priority < max
      modifies this`ready, this`threads
      ensures Indexed()
      ensures St() == AfterInsert(old(St()), t)
    {
      hide Agrees, Inserted;
      var x := threads[t];
      if t == current {
        threads := threads[t := x.(stat := Running)];
        return;
      }
      RankFits(max, x.rank.priority);
      InsertShape(max, ready, x.rank, t, x.yielding);
      InsertKeeps(max, ready, x.rank.priority, t, x.yielding);
      threads := threads[t := x.(stat := Ready)];
      ready := Inserted(max, ready, x.rank, t, x.yielding);
    }

    method RemoveThread(t: ThreadId)
      requires Indexed() && t in threads && threads[t].stat !in {Init, Closed} && threads[t].rank.priority < max
      modifies this`ready
      ensures Indexed()
      ensures St() == AfterRemove(old(St()), t)
    {
      hide Agrees, Removed;
      var r := threads[t].rank;
      RankFits(max, r.priority);
      RemoveShape(max, ready, r, t);
      RemoveKeeps(max, ready, r.priority, t);
      ready := Removed(max, ready, r, t);
    }

    // The switching half of rt_schedule.
    method SwitchTo(to: ThreadId, needInsert: bool)
      requires Valid() && to in threads && threads[to].stat == Ready
      requires needInsert == (threads[current].stat == Running)
      modifies this`ready, this`threads, this`current
      ensures Indexed()
      ensures old(Named(St())) && St() == Switched(old(St()), to)
    {
      hide Agrees, ListedBut, NoDuplicates;
      ValidIsNamed(max, St());
      var from := current;
      current := to;
      if needInsert {
        InsertThread(from);
      }
      RemoveThread(to);
      threads := threads[to := threads[to].(stat := Running)];
    }

    method Schedule()
      requires Valid()
      modifies this`ready, this`threads, this`current
      ensures Valid()
      ensures old(Named(St())) && St() == AfterSchedule(old(St()))
      ensures lockNest == 0 ==> NoneOutranks(St())
    {
      hide Agrees, UpModel.Valid, ListedBut, Switched, AfterRemove, NoneOutranks, Highest;
      ghost var s := St();
      ScheduleKeeps(max, s);
      ValidIsNamed(max, s);
      if lockNest == 0 {
        BestIsFirst(max, ready);
        if ready.group != ZERO {
          var h := Highest(max, ready);
          var to := ready.queues[h][0];
          HeadIsThread(max, s, h);
          var needInsert := false;
          if threads[current].stat == Running {
            if threads[current].rank.priority < h {
              to := current;
            } else if threads[current].rank.priority == h && !threads[current].yielding {
              to := current;
            } else {
              needInsert := true;
            }
            YieldMarkKeeps(max, s, current, false);
            threads := threads[current := threads[current].(yielding := false)];
          }
          if to != current {
            SwitchTo(to, needInsert);
          } else {
            RemoveCurrent(max, St());
            ghost var was := threads;
            RemoveThread(current);
            threads := threads[current := threads[current].(stat := Running)];
            assert threads == was;
          }
        }
      }
    }

    method Startup(t: ThreadId)
      requires Valid() && t in threads && threads[t].stat == Init
      modifies this`ready, this`threads, this`current
      ensures Valid()
      ensures old(Named(St())) && Named(AfterStartup(old(St()), t))
      ensures St() == AfterSchedule(AfterStartup(old(St()), t))
      ensures lockNest == 0 ==> NoneOutranks(St())
    {
      hide Agrees, ListedBut, AfterInsert, NoneOutranks, AfterSchedule, RankOf;
      StartupKeeps(max, St(), t);
      ValidIsNamed(max, St());
      ValidIsNamed(max, AfterStartup(St(), t));
      ghost var s := St();
      var p := threads[t].rank.priority;
      RankFits(max, p);
      threads := threads[t := threads[t].(rank := RankOf(max, p))];
      threads := threads[t := threads[t].(stat := Suspended)];
      assert St() == WithStat(WithRank(s, t, RankOf(max, p)), t, Suspended);
      InsertThread(t);
      Schedule();
    }

    // False when the thread is not suspended.
    method Resume(t: ThreadId) returns (ok: bool)
      requires Valid() && t in threads
      modifies this`ready, this`threads
      ensures Valid()
      ensures St() == AfterResume(old(St()), t) && ok == old(threads[t].stat == Suspended)
    {
      hide Agrees, ListedBut, AfterInsert;
      ResumeKeeps(max, St(), t);
      ok := threads[t].stat == Suspended;
      if ok {
        InsertThread(t);
      }
    }

    // The current thread suspends itself; it runs on until the scheduler is called.
    method Suspend() returns (ok: bool)
      requires Valid()
      modifies this`ready, this`threads
      ensures Valid()
      ensures St() == AfterSuspend(old(St())) && ok == old(threads[current].stat in {Ready, Running})
    {
      hide Agrees, ListedBut, AfterRemove;
      SuspendKeeps(max, St());
      ok := threads[current].stat in {Ready, Running};
      if ok {
        RemoveThread(current);
        threads := threads[current := threads[current].(stat := Suspended)];
      }
    }

    method ChangePriority(t: ThreadId, priority: nat)
      requires Valid() && t in threads && priority < max
      modifies this`ready, this`threads
      ensures Valid()
      ensures St() == AfterChange(old(St()), t, priority)
    {
      hide Agrees, ListedBut, AfterRemove, AfterInsert, RankOf;
      ChangeKeeps(max, St(), t, priority);
      RankFits(max, priority);
      if threads[t].stat == Ready {
        RemoveThread(t);
        threads := threads[t := threads[t].(rank := RankOf(max, priority))];
        InsertThread(t);
      } else {
        threads := threads[t := threads[t].(rank := RankOf(max, priority))];
      }
    }

    method Yield()
      requires Valid()
      modifies this`ready, this`threads, this`current
      ensures Valid()
      ensures Named(WithYield(old(St()), old(current), true))
      ensures St() == AfterSchedule(WithYield(old(St()), old(current), true))
      ensures lockNest == 0 ==> NoneOutranks(St())
    {
      hide Agrees, ListedBut, NoneOutranks, AfterSchedule;
      YieldMarkKeeps(max, St(), current, true);
      ValidIsNamed(max, WithYield(St(), current, true));
      threads := threads[current := threads[current].(yielding := true)];
      Schedule();
    }

    method EnterCritical()
      requires Valid()
      modifies this`lockNest
      ensures Valid() && lockNest == old(lockNest) + 1
    {
      ghost var s := St();
      lockNest := lockNest + 1;
      LockKeeps(max, s, lockNest);
    }

    // The last exit calls the scheduler.
    method ExitCritical()
      requires Valid()
      modifies this`lockNest, this`ready, this`threads, this`current
      ensures Valid()
      ensures lockNest == if old(lockNest) <= 1 then 0 else old(lockNest) - 1
      ensures Named(old(St()).(lockNest := lockNest))
      ensures St() == if lockNest == 0 then AfterSchedule(old(St()).(lockNest := 0)) else old(St()).(lockNest := lockNest)
      ensures lockNest == 0 ==> NoneOutranks(St())
    {
      hide Agrees, ListedBut, NoneOutranks, AfterSchedule;
      ghost var s := St();
      if lockNest <= 1 {
        lockNest := 0;
        LockKeeps(max, s, 0);
        Schedule();
      } else {
        lockNest := lockNest - 1;
        LockKeeps(max, s, lockNest);
      }
    }

    method Close(t: ThreadId)
      requires Valid() && t in threads
      modifies this`ready, this`threads, this`current
      ensures Valid()
      ensures old(Named(St())) && Named(AfterClose(old(St()), t))
      ensures St() == AfterSchedule(AfterClose(old(St()), t))
      ensures lockNest == 0 ==> NoneOutranks(St())
    {
      hide Agrees, ListedBut, AfterRemove, NoneOutranks, AfterSchedule;
      CloseKeeps(max, St(), t);
      ValidIsNamed(max, St());
      ValidIsNamed(max, AfterClose(St(), t));
      ghost var s := St();
      if threads[t].stat != Closed {
        if threads[t].stat != Init {
          RemoveThread(t);
        }
        threads := threads[t := threads[t].(stat := Closed)];
      }
      assert St() == AfterClose(s, t);
      Schedule();
    }

    // Whatever is called in whatever order, the bitmap agrees with the lists and the lists with the
    // thread states; and after a call that ends in the unlocked scheduler nothing ready outranks the
    // running thread. Calls their callers must not make are skipped.
    method Run(script: seq<Call>)
      requires Valid()
      modifies this`ready, this`threads, this`current, this`lockNest
      ensures Valid()
      ensures current in threads
      ensures script != [] && script[|script| - 1].Yielding? && lockNest == 0 ==> NoneOutranks(St())
    {
      hide Agrees, UpModel.Valid, NoneOutranks, AfterSchedule, Named;
      ValidHasCurrent(max, St());
      for i := 0 to |script|
        invariant Valid() && current in threads
        invariant i > 0 && script[i - 1].Yielding? && lockNest == 0 ==> NoneOutranks(St())
      {
        match script[i] {
        case Creating(t, p) => if t !in threads && p < max { Create(t, p); }
        case Starting(t) => if t in threads && threads[t].stat == Init { Startup(t); }
        case Resuming(t) => if t in threads { var _ := Resume(t); }
        case Suspending => var _ := Suspend();
        case Changing(t, p) => if t in threads && p < max { ChangePriority(t, p); }
        case Yielding => Yield();
        case Entering => EnterCritical();
        case Exiting => ExitCritical();
        case Closing(t) => if t in threads { Close(t); }
        }
        ValidHasCurrent(max, St());
      }
    }
  }

  datatype Call = Creating(t: ThreadId, p: nat) | Starting(t: ThreadId) | Resuming(t: ThreadId) | Suspending
    | Changing(t: ThreadId, p: nat) | Yielding | Entering | Exiting | Closing(t: ThreadId)

  // With a single priority a thread that is started waits at the head of the list.
  lemma {:induction false} StartupWaits(s: State, t: ThreadId)
    requires UpModel.Valid(1, s) && s.lockNest == 0 && t in s.threads && s.threads[t].stat == Init
    requires s.threads[s.current].stat == Running && !s.threads[s.current].yielding && !s.threads[t].yielding
    ensures Named(s) && Priority(s, t) == 0 && Named(AfterStartup(s, t)) && |s.queues| == 1
    ensures var r := AfterSchedule(AfterStartup(s, t));
      && r.queues == [[t] + s.queues[0]] && r.current == s.current && r.lockNest == 0
      && r.threads == s.threads[t := Thread(Ready, false, RankOf(1, 0))]
  {
    hide RankOf;
    ValidIsNamed(1, s);
    RankFits(1, 0);
    StartupKeeps(1, s, t);
    ValidIsNamed(1, AfterStartup(s, t));
    assert AfterStartup(s, t).queues == [[t] + s.queues[0]];
  }

  // Thread 0 runs; 2 and 1 wait, in this order.
  method TwoWaiting() returns (k: Scheduler)
    ensures fresh(k) && k.Valid() && k.max == 1 && k.lockNest == 0 && k.current == 0 && k.ready.queues == [[2, 1]]
    ensures 0 in k.threads && k.threads[0] == Thread(Running, false, RankOf(1, 0))
  {
    hide RankOf, UpModel.Valid, AfterStartup, AfterSchedule, NoneOutranks, Named, Agrees;
    k := new Scheduler(1, 0);
    assert k.ready.queues == [[]];
    k.Create(1, 0);
    StartupWaits(k.St(), 1);
    k.Startup(1);
    assert k.ready.queues == [[1]] by { assert [1] + [] == [1]; }
    k.Create(2, 0);
    StartupWaits(k.St(), 2);
    k.Startup(2);
    assert [2] + [1] == [2, 1];
  }

  // A yield that is no rotation: afterwards 0 is before 1.
  method YieldBeforeTheOther() returns (k: Scheduler)
    ensures fresh(k) && k.Valid() && k.lockNest == 0
    ensures k.current == 2 && k.ready.queues == [[0, 1]]
  {
    hide UpModel.Valid, Agrees;
    k := TwoWaiting();
    YieldTrades(1, k.St());
    k.Yield();
    assert [0] + [2, 1][1..] == [0, 1];
  }

  lemma {:induction false} ValidHasCurrent(max: nat, s: State)
    requires UpModel.Valid(max, s)
    ensures s.current in s.threads
  {
  }

  // The lock count is no part of the lists.
  lemma {:induction false} LockKeeps(max: nat, s: State, n: nat)
    requires UpModel.Valid(max, s)
    ensures UpModel.Valid(max, s.(lockNest := n)) && Named(s.(lockNest := n))
  {
    ValidIsNamed(max, s);
    ListsWithoutLock(s, n);
  }

  lemma {:induction false} ListsWithoutLock(s: State, n: nat)
    requires Listed(s)
    ensures Listed(s.(lockNest := n))
  {
  }

  // Every started thread carries the masks of its priority.
  ghost predicate Ranked(max: nat, threads: map<ThreadId, Thread>) {
    forall t: ThreadId :: t in threads && threads[t].stat !in {Init, Closed} ==>
      threads[t].rank.priority < max && threads[t].rank == RankOf(max, threads[t].rank.priority)
  }

  lemma {:induction false} RankFits(max: nat, p: nat)
    requires p < max <= 256
    ensures RankOf(max, p).number < 32 && RankOf(max, p).priority == p
  {
    hide Mask;
  }

  lemma {:induction false} InsertShape(max: nat, t: Table, r: Rank, thread: ThreadId, last: bool)
    requires Agrees(max, t) && r.priority < max && r.number < 32
    ensures Shaped(max, t)
    ensures var q := t.queues[r.priority];
      Inserted(max, t, r, thread, last).queues == t.queues[r.priority := if last then q + [thread] else [thread] + q]
  {
  }

  lemma {:induction false} RemoveShape(max: nat, t: Table, r: Rank, thread: ThreadId)
    requires Agrees(max, t) && r.priority < max && r.number < 32
    ensures Shaped(max, t)
    ensures Removed(max, t, r, thread).queues == t.queues[r.priority := Without(t.queues[r.priority], thread)]
  {
  }

  // The bitmap search finds the first list that is not empty.
  lemma {:induction false} BestIsFirst(max: nat, t: Table)
    requires Agrees(max, t)
    ensures Shaped(max, t)
    ensures t.group == ZERO <==> FirstWaiting(t.queues, 0) == max
    ensures t.group != ZERO ==> Highest(max, t) == FirstWaiting(t.queues, 0) < max && t.queues[Highest(max, t)] != []
  {
    hide Highest;
    HighestIsLeast(max, t);
    FirstIsWaiting(t.queues, 0);
    var f := FirstWaiting(t.queues, 0);
    if f < max { assert Waiting(max, t, f); }
    if t.group != ZERO { assert Waiting(max, t, Highest(max, t)); }
  }

  lemma {:induction false} HeadIsThread(max: nat, s: State, h: nat)
    requires UpModel.Valid(max, s) && h < |s.queues| && s.queues[h] != []
    ensures var to := s.queues[h][0]; to in s.threads && s.threads[to].stat == Ready && to != s.current
  {
    HeadIsReady(max, s, h);
  }

  // Taking a running thread off a list it is not on changes nothing.
  lemma {:induction false} RemoveCurrent(max: nat, s: State)
    requires UpModel.Valid(max, s)
    ensures Priority(s, s.current) < |s.queues|
    ensures AfterRemove(s, s.current) == s
  {
    RemoveUnlists(s, s.current);
  }
}
