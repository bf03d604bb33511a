/** The single-processor scheduler (src/scheduler_up.c) without its bitmap: what each operation does to
    the ready lists, the thread states and the running thread. */
module UpModel {
  import opened Lists
  import opened ReadyTables

  datatype Stat = Init | Suspended | Ready | Running | Closed

  datatype Thread = Thread(stat: Stat, yielding: bool, rank: Rank)

  datatype State = State(queues: seq<seq<ThreadId>>, threads: map<ThreadId, Thread>, current: ThreadId, lockNest: nat)

  function Priority(s: State, t: ThreadId): nat
    requires t in s.threads
  {
    s.threads[t].rank.priority
  }

  ghost predicate Bounded(max: nat, s: State) {
    && |s.queues| == max
    && s.current in s.threads
    && forall t: ThreadId :: t in s.threads ==> Priority(s, t) < max
  }

  predicate ReadyAt(threads: map<ThreadId, Thread>, t: ThreadId, p: nat) {
    t in threads && threads[t].stat == Ready && threads[t].rank.priority == p
  }

  ghost predicate Holds(threads: map<ThreadId, Thread>, out: set<ThreadId>, p: nat, q: seq<ThreadId>) {
    NoDuplicates(q) && forall t: ThreadId :: t in q <==> t !in out && ReadyAt(threads, t, p)
  }

  // A thread is on the list of its priority if and only if it is ready, and on no list twice. The
  // threads in `out` are between lists.
  ghost predicate ListedBut(s: State, out: set<ThreadId>) {
    forall p: nat :: p < |s.queues| ==> Holds(s.threads, out, p, s.queues[p])
  }

  ghost predicate Listed(s: State) { ListedBut(s, {}) }

  ghost predicate Valid(max: nat, s: State) {
    && Bounded(max, s)
    && Listed(s)
    && s.threads[s.current].stat !in {Ready, Init}
    && forall t: ThreadId :: t in s.threads && s.threads[t].stat == Running ==> t == s.current
  }

  // The first priority from p on with a thread waiting, or the number of priorities.
  function FirstWaiting(queues: seq<seq<ThreadId>>, p: nat): nat
    requires p <= |queues|
    decreases |queues| - p
  {
    if p == |queues| || queues[p] != [] then p else FirstWaiting(queues, p + 1)
  }

  function WithStat(s: State, t: ThreadId, stat: Stat): State
    requires t in s.threads
  {
    s.(threads := s.threads[t := s.threads[t].(stat := stat)])
  }

  function WithYield(s: State, t: ThreadId, yielding: bool): State
    requires t in s.threads
  {
    s.(threads := s.threads[t := s.threads[t].(yielding := yielding)])
  }

  // rt_schedule_insert_thread: at the end of the list only if the thread is yielding.
  function AfterInsert(s: State, t: ThreadId): State
    requires t in s.threads && Priority(s, t) < |s.queues|
  {
    if t == s.current then WithStat(s, t, Running)
    else
      var q := s.queues[Priority(s, t)];
      WithStat(s, t, Ready).(queues :=
        s.queues[Priority(s, t) := if s.threads[t].yielding then q + [t] else [t] + q])
  }

  // rt_schedule_remove_thread.
  function AfterRemove(s: State, t: ThreadId): State
    requires t in s.threads && Priority(s, t) < |s.queues|
  {
    s.(queues := s.queues[Priority(s, t) := Without(s.queues[Priority(s, t)], t)])
  }

  // Whether rt_schedule leaves the running thread on the processor when the best ready priority is h.
  predicate KeepsRunning(s: State, h: nat)
    requires s.current in s.threads
  {
    && s.threads[s.current].stat == Running
    && (Priority(s, s.current) < h || (Priority(s, s.current) == h && !s.threads[s.current].yielding))
  }

  // Every thread named in the state is a thread with a priority that has a list.
  ghost predicate Named(s: State) {
    && s.current in s.threads
    && (forall t: ThreadId :: t in s.threads ==> Priority(s, t) < |s.queues|)
    && (forall p: nat, t: ThreadId :: p < |s.queues| && t in s.queues[p] ==> t in s.threads)
  }

  // The processor goes from the current thread to `to`; a running thread goes back to its list first.
  ghost function Switched(s: State, to: ThreadId): State
    requires Named(s) && to in s.threads
  {
    var from := s.current;
    var s1 := s.(current := to);
    var s2 := if s.threads[from].stat == Running then AfterInsert(s1, from) else s1;
    assert Priority(s2, to) == Priority(s, to) && |s2.queues| == |s.queues|;
    WithStat(AfterRemove(s2, to), to, Running)
  }

  // rt_schedule. The yield mark is taken off before the thread goes back to its list.
  ghost function AfterSchedule(s: State): State
    requires Named(s)
  {
    var h := FirstWaiting(s.queues, 0);
    if s.lockNest != 0 || h == |s.queues| then s
    else
      var s1 := if s.threads[s.current].stat == Running then WithYield(s, s.current, false) else s;
      FirstIsWaiting(s.queues, 0);
      assert s.queues[h][0] in s.queues[h];
      assert Named(s1) by { assert forall t: ThreadId :: t in s.threads ==> Priority(s1, t) == Priority(s, t); }
      if KeepsRunning(s, h) then s1 else Switched(s1, s.queues[h][0])
  }

  lemma {:induction false} FirstIsWaiting(queues: seq<seq<ThreadId>>, p: nat)
    requires p <= |queues|
    ensures var h := FirstWaiting(queues, p); p <= h <= |queues| && (h < |queues| ==> queues[h] != [])
    ensures forall q: nat :: p <= q < FirstWaiting(queues, p) ==> queues[q] == []
    decreases |queues| - p
  {
    if p < |queues| && queues[p] == [] {
      FirstIsWaiting(queues, p + 1);
    }
  }

  lemma {:induction false} InsertLists(s: State, t: ThreadId)
    requires t in s.threads && Priority(s, t) < |s.queues| && t != s.current
    requires ListedBut(s, {t})
    ensures Listed(AfterInsert(s, t))
  {
    var p := Priority(s, t);
    var s1 := AfterInsert(s, t);
    forall k: nat | k < |s1.queues| ensures Holds(s1.threads, {}, k, s1.queues[k]) {
      assert Holds(s.threads, {t}, k, s.queues[k]);
      if k == p { EndMembers(s.queues[p], t, s.threads[t].yielding); }
    }
  }

  lemma {:induction false} RemoveUnlists(s: State, t: ThreadId)
    requires t in s.threads && Priority(s, t) < |s.queues|
    requires Listed(s)
    ensures ListedBut(AfterRemove(s, t), {t})
    ensures s.threads[t].stat != Ready ==> AfterRemove(s, t) == s
  {
    var p := Priority(s, t);
    var s1 := AfterRemove(s, t);
    assert Holds(s.threads, {}, p, s.queues[p]);
    WithoutMembers(s.queues[p], t);
    forall k: nat | k < |s1.queues| ensures Holds(s1.threads, {t}, k, s1.queues[k]) {
      assert Holds(s.threads, {}, k, s.queues[k]);
    }
    if s.threads[t].stat != Ready {
      assert t !in s.queues[p];
      assert s.queues[p := s.queues[p]] == s.queues;
    }
  }

  // A thread on no list may change in any way that does not make it ready, or be let in again.
  lemma {:induction false} OffList(s: State, t: ThreadId, x: Thread)
    requires t in s.threads && ListedBut(s, {t})
    ensures ListedBut(s.(threads := s.threads[t := x]), {t})
    ensures x.stat != Ready ==> Listed(s.(threads := s.threads[t := x]))
  {
    var threads := s.threads[t := x];
    forall k: nat | k < |s.queues| ensures Holds(threads, {t}, k, s.queues[k]) {
      assert Holds(s.threads, {t}, k, s.queues[k]);
    }
    if x.stat != Ready {
      forall k: nat | k < |s.queues| ensures Holds(threads, {}, k, s.queues[k]) {
        assert Holds(s.threads, {t}, k, s.queues[k]);
      }
    }
  }

  // A listed thread that is not ready counts as between lists.
  lemma {:induction false} NotReadyIsOff(s: State, t: ThreadId)
    requires Listed(s) && t in s.threads && s.threads[t].stat != Ready
    ensures ListedBut(s, {t})
  {
    forall k: nat | k < |s.queues| ensures Holds(s.threads, {t}, k, s.queues[k]) {
      assert Holds(s.threads, {}, k, s.queues[k]);
    }
  }

  lemma {:induction false} ValidIsNamed(max: nat, s: State)
    requires Valid(max, s)
    ensures Named(s)
  {
    forall p: nat, t: ThreadId | p < |s.queues| && t in s.queues[p] ensures t in s.threads {
      assert Holds(s.threads, {}, p, s.queues[p]);
      assert ReadyAt(s.threads, t, p);
    }
  }

  // A switch changes the state of two threads only.
  lemma {:induction false} SwitchFrame(s: State, to: ThreadId)
    requires Named(s) && to in s.threads && to != s.current
    ensures var s1 := Switched(s, to); var from := s.threads[s.current];
      && s1.current == to && s1.lockNest == s.lockNest && |s1.queues| == |s.queues|
      && s1.threads == s.threads[s.current := if from.stat == Running then from.(stat := Ready) else from]
                                [to := s.threads[to].(stat := Running)]
  {
  }

  lemma {:induction false} SwitchKeeps(max: nat, s: State, to: ThreadId)
    requires Valid(max, s) && to in s.threads && s.threads[to].stat == Ready
    ensures Named(s) && Valid(max, Switched(s, to))
  {
    hide ListedBut;
    ValidIsNamed(max, s);
    var from := s.current;
    var s1 := s.(current := to);
    NotReadyIsOff(s, from);
    MoveCurrent(s, to, {from});
    MoveCurrent(s, to, {});
    if s.threads[from].stat == Running { InsertLists(s1, from); }
    var s2 := if s.threads[from].stat == Running then AfterInsert(s1, from) else s1;
    RemoveUnlists(s2, to);
    OffList(AfterRemove(s2, to), to, s.threads[to].(stat := Running));
    SwitchFrame(s, to);
  }

  lemma {:induction false} MoveCurrent(s: State, to: ThreadId, out: set<ThreadId>)
    requires ListedBut(s, out)
    ensures ListedBut(s.(current := to), out)
  {
  }

  lemma {:induction false} YieldMarkKeeps(max: nat, s: State, t: ThreadId, yielding: bool)
    requires Valid(max, s) && t in s.threads
    ensures Valid(max, WithYield(s, t, yielding))
  {
    var s1 := WithYield(s, t, yielding);
    forall k: nat | k < |s.queues| ensures Holds(s1.threads, {}, k, s1.queues[k]) {
      assert Holds(s.threads, {}, k, s.queues[k]);
    }
    assert forall u: ThreadId :: u in s.threads ==> Priority(s1, u) == Priority(s, u);
  }

  // Whatever state it is called in, rt_schedule keeps the lists right, and with the scheduler unlocked
  // no ready thread is left that outranks the thread on the processor.
  lemma {:induction false} ScheduleKeeps(max: nat, s: State)
    requires Valid(max, s)
    ensures Named(s) && Valid(max, AfterSchedule(s))
    ensures s.lockNest == 0 ==> NoneOutranks(AfterSchedule(s))
    ensures s.lockNest != 0 ==> AfterSchedule(s) == s
  {
    hide Switched, Valid, ListedBut;
    ValidIsNamed(max, s);
    var h := FirstWaiting(s.queues, 0);
    FirstIsWaiting(s.queues, 0);
    var s1 := if s.threads[s.current].stat == Running then WithYield(s, s.current, false) else s;
    YieldMarkKeeps(max, s, s.current, false);
    NoReadyBelow(max, s, h);
    assert forall t: ThreadId :: t in s.threads ==> Priority(s1, t) == Priority(s, t);
    if s.lockNest == 0 && h != |s.queues| {
      var s2 := AfterSchedule(s);
      if KeepsRunning(s, h) {
        assert s2 == s1;
      } else {
        var to := s.queues[h][0];
        assert to in s.queues[h];
        HeadIsReady(max, s, h);
        SwitchKeeps(max, s1, to);
        SwitchFrame(s1, to);
        assert s2 == Switched(s1, to);
        assert Priority(s2, to) == h && s2.threads[to].stat == Running;
        forall t: ThreadId | t in s2.threads && s2.threads[t].stat == Ready ensures h <= Priority(s2, t) {
          assert t in s.threads;
          if t != s.current { assert s2.threads[t] == s.threads[t]; }
        }
      }
    }
  }

  // No ready thread outranks the current one, which runs unless nothing at all is ready.
  ghost predicate NoneOutranks(s: State)
    requires s.current in s.threads
  {
    forall t: ThreadId :: t in s.threads && s.threads[t].stat == Ready ==>
      s.threads[s.current].stat == Running && Priority(s, s.current) <= Priority(s, t)
  }

  lemma {:induction false} HeadIsReady(max: nat, s: State, p: nat)
    requires Valid(max, s) && p < |s.queues| && s.queues[p] != []
    ensures var t := s.queues[p][0]; t in s.threads && s.threads[t].stat == Ready && Priority(s, t) == p && t != s.current
  {
    assert Holds(s.threads, {}, p, s.queues[p]);
    assert s.queues[p][0] in s.queues[p];
    assert ReadyAt(s.threads, s.queues[p][0], p);
  }

  lemma {:induction false} NoReadyBelow(max: nat, s: State, h: nat)
    requires Valid(max, s) && h <= |s.queues| && forall p: nat :: p < h ==> s.queues[p] == []
    ensures forall t: ThreadId :: t in s.threads && s.threads[t].stat == Ready ==> h <= Priority(s, t) < |s.queues|
  {
    forall t: ThreadId | t in s.threads && s.threads[t].stat == Ready ensures h <= Priority(s, t) < |s.queues| {
      assert Holds(s.threads, {}, Priority(s, t), s.queues[Priority(s, t)]);
      assert ReadyAt(s.threads, t, Priority(s, t));
      assert t in s.queues[Priority(s, t)];
    }
  }

  function WithRank(s: State, t: ThreadId, r: Rank): State
    requires t in s.threads
  {
    s.(threads := s.threads[t := s.threads[t].(rank := r)])
  }

  // rt_thread_resume refuses a thread that is not suspended.
  function AfterResume(s: State, t: ThreadId): State
    requires t in s.threads && Priority(s, t) < |s.queues|
  {
    if s.threads[t].stat == Suspended then AfterInsert(s, t) else s
  }

  // rt_thread_startup before it calls the scheduler.
  function AfterStartup(s: State, t: ThreadId): State
    requires t in s.threads && Priority(s, t) < |s.queues|
  {
    var s1 := WithStat(WithRank(s, t, RankOf(|s.queues|, Priority(s, t))), t, Suspended);
    assert Priority(s1, t) == Priority(s, t);
    AfterResume(s1, t)
  }

  function AfterSuspend(s: State): State
    requires s.current in s.threads && Priority(s, s.current) < |s.queues|
  {
    if s.threads[s.current].stat in {Ready, Running}
    then WithStat(AfterRemove(s, s.current), s.current, Suspended) else s
  }

  // RT_THREAD_CTRL_CHANGE_PRIORITY.
  function AfterChange(s: State, t: ThreadId, p: nat): State
    requires t in s.threads && Priority(s, t) < |s.queues| && p < |s.queues|
  {
    var r := RankOf(|s.queues|, p);
    if s.threads[t].stat == Ready then
      var s1 := WithRank(AfterRemove(s, t), t, r);
      assert Priority(s1, t) == p;
      AfterInsert(s1, t)
    else WithRank(s, t, r)
  }

  // RT_THREAD_CTRL_CLOSE before it calls the scheduler, apart from the mutexes the thread holds.
  function AfterClose(s: State, t: ThreadId): State
    requires t in s.threads && Priority(s, t) < |s.queues|
  {
    if s.threads[t].stat == Closed then s
    else WithStat(if s.threads[t].stat == Init then s else AfterRemove(s, t), t, Closed)
  }

  lemma {:induction false} ResumeKeeps(max: nat, s: State, t: ThreadId)
    requires Valid(max, s) && t in s.threads
    ensures Valid(max, AfterResume(s, t))
  {
    hide ListedBut;
    if s.threads[t].stat == Suspended {
      NotReadyIsOff(s, t);
      if t == s.current {
        OffList(s, t, s.threads[t].(stat := Running));
      } else {
        InsertLists(s, t);
      }
    }
  }

  lemma {:induction false} ChangeOffList(max: nat, s: State, t: ThreadId, x: Thread)
    requires Valid(max, s) && t in s.threads && s.threads[t].stat != Ready
    requires x.stat != Ready && x.rank.priority < max && (x.stat == Running ==> t == s.current)
    requires x.stat == Init ==> t != s.current
    ensures Valid(max, s.(threads := s.threads[t := x]))
  {
    hide ListedBut;
    NotReadyIsOff(s, t);
    OffList(s, t, x);
  }

  lemma {:induction false} StartupKeeps(max: nat, s: State, t: ThreadId)
    requires Valid(max, s) && t in s.threads && s.threads[t].stat == Init
    ensures Valid(max, AfterStartup(s, t))
  {
    hide ListedBut;
    var s1 := WithStat(WithRank(s, t, RankOf(|s.queues|, Priority(s, t))), t, Suspended);
    ChangeOffList(max, s, t, s1.threads[t]);
    assert s1.threads == s.threads[t := s1.threads[t]];
    ResumeKeeps(max, s1, t);
  }

  lemma {:induction false} SuspendKeeps(max: nat, s: State)
    requires Valid(max, s)
    ensures Valid(max, AfterSuspend(s))
  {
    hide ListedBut;
    if s.threads[s.current].stat == Running {
      RemoveUnlists(s, s.current);
      ChangeOffList(max, s, s.current, s.threads[s.current].(stat := Suspended));
    }
  }

  lemma {:induction false} ChangeKeeps(max: nat, s: State, t: ThreadId, p: nat)
    requires Valid(max, s) && t in s.threads && p < max
    ensures Valid(max, AfterChange(s, t, p))
  {
    hide ListedBut;
    var x := s.threads[t].(rank := RankOf(max, p));
    if s.threads[t].stat == Ready {
      RemoveUnlists(s, t);
      OffList(AfterRemove(s, t), t, x);
      InsertLists(WithRank(AfterRemove(s, t), t, RankOf(max, p)), t);
    } else {
      ChangeOffList(max, s, t, x);
    }
  }

  lemma {:induction false} CloseKeeps(max: nat, s: State, t: ThreadId)
    requires Valid(max, s) && t in s.threads
    ensures Valid(max, AfterClose(s, t))
  {
    hide ListedBut;
    var x := s.threads[t].(stat := Closed);
    if s.threads[t].stat == Ready {
      RemoveUnlists(s, t);
      OffList(AfterRemove(s, t), t, x);
    } else {
      RemoveUnlists(s, t);
      ChangeOffList(max, s, t, x);
    }
  }

  // The list of priority p.
  function List(s: State, p: nat): seq<ThreadId> {
    if p < |s.queues| then s.queues[p] else []
  }

  // The unlocked scheduler leaves the current thread on the processor exactly if it runs and every ready thread is
  // less urgent, or as urgent while this one has not been told to yield.
  lemma {:induction false} StaysIff(max: nat, s: State)
    requires Valid(max, s) && s.lockNest == 0
    ensures Named(s) && s.current in s.threads
    ensures var x := s.threads[s.current];
      AfterSchedule(s).current == s.current <==>
        forall t: ThreadId :: t in s.threads && s.threads[t].stat == Ready ==>
          && x.stat == Running
          && (x.rank.priority < Priority(s, t) || (x.rank.priority == Priority(s, t) && !x.yielding))
  {
    hide Listed, Switched;
    ValidIsNamed(max, s);
    FirstIsWaiting(s.queues, 0);
    var h := FirstWaiting(s.queues, 0);
    NoReadyBelow(max, s, h);
    if h < |s.queues| {
      HeadIsReady(max, s, h);
      var to := s.queues[h][0];
      if !KeepsRunning(s, h) {
        SwitchFrame(if s.threads[s.current].stat == Running then WithYield(s, s.current, false) else s, to);
      }
    }
  }

  // What scheduling does to the threads, and which one takes over: the first of the best list.
  lemma {:induction false} ScheduleEffect(max: nat, s: State)
    requires Valid(max, s)
    ensures Named(s) && s.current in s.threads && AfterSchedule(s).lockNest == s.lockNest
    ensures s.lockNest != 0 ==> AfterSchedule(s) == s
    ensures var r := AfterSchedule(s); r.current == s.current ==>
      && r.queues == s.queues
      && (r.threads == s.threads || r.threads == s.threads[s.current := s.threads[s.current].(yielding := false)])
    ensures var r := AfterSchedule(s); var x := s.threads[s.current]; r.current != s.current ==>
      && r.current in s.threads && s.threads[r.current].stat == Ready
      && List(s, Priority(s, r.current)) != [] && r.current == List(s, Priority(s, r.current))[0]
      && r.threads == s.threads
        [s.current := if x.stat == Running then x.(stat := Ready, yielding := false) else x]
        [r.current := s.threads[r.current].(stat := Running)]
  {
    hide Listed, Switched;
    ValidIsNamed(max, s);
    FirstIsWaiting(s.queues, 0);
    var h := FirstWaiting(s.queues, 0);
    if s.lockNest == 0 && h < |s.queues| {
      HeadIsReady(max, s, h);
      var to := s.queues[h][0];
      if !KeepsRunning(s, h) {
        SwitchFrame(if s.threads[s.current].stat == Running then WithYield(s, s.current, false) else s, to);
      }
    }
  }

  // The lists after a switch: a thread that ran is first in its list again, the one that takes over is gone.
  lemma {:induction false} SwitchedLists(max: nat, s: State, p: nat)
    requires Valid(max, s)
    ensures Named(s) && s.current in s.threads
    ensures var r := AfterSchedule(s); var x := s.threads[s.current]; r.current != s.current ==>
      List(r, p) == Without(if x.stat == Running && p == x.rank.priority then [s.current] + List(s, p) else List(s, p), r.current)
  {
    hide NoDuplicates;
    ValidIsNamed(max, s);
    FirstIsWaiting(s.queues, 0);
    var h := FirstWaiting(s.queues, 0);
    if s.lockNest == 0 && h < |s.queues| && !KeepsRunning(s, h) {
      HeadIsReady(max, s, h);
      var to := s.queues[h][0];
      SwitchFrame(if s.threads[s.current].stat == Running then WithYield(s, s.current, false) else s, to);
      if p < |s.queues| && p != h {
        assert Holds(s.threads, {}, p, s.queues[p]);
        WithoutAbsent(s.queues[p], to);
        if s.threads[s.current].stat == Running && p == Priority(s, s.current) {
          WithoutAbsent([s.current] + s.queues[p], to);
        }
      }
    }
  }

  // A thread comes back to the front of its list, behind the others if it has been told to yield; the current one
  // just goes on.
  lemma {:induction false} ResumeEffect(s: State, t: ThreadId, p: nat)
    requires t in s.threads && Priority(s, t) < |s.queues|
    ensures var r, x, q := AfterResume(s, t), s.threads[t], List(s, p);
      if x.stat != Suspended then r == s
      else
        && r.current == s.current && r.lockNest == s.lockNest
        && r.threads == s.threads[t := x.(stat := if t == s.current then Running else Ready)]
        && List(r, p) ==
          if t == s.current || p != x.rank.priority then q else if x.yielding then q + [t] else [t] + q
  {
  }

  // A thread that is started gets the masks of its priority and comes to the front of its list.
  lemma {:induction false} StartupEffect(s: State, t: ThreadId, p: nat)
    requires t in s.threads && Priority(s, t) < |s.queues| && t != s.current
    ensures var r, x, q := AfterStartup(s, t), s.threads[t], List(s, p);
      && r.current == s.current && r.lockNest == s.lockNest
      && r.threads == s.threads[t := x.(stat := Ready, rank := RankOf(|s.queues|, x.rank.priority))]
      && List(r, p) == if p != x.rank.priority then q else if x.yielding then q + [t] else [t] + q
  {
    hide RankOf;
    RankHas(|s.queues|, Priority(s, t));
    var s1 := WithStat(WithRank(s, t, RankOf(|s.queues|, Priority(s, t))), t, Suspended);
    ResumeEffect(s1, t, p);
  }

  lemma {:induction false} RankHas(max: nat, p: nat)
    ensures RankOf(max, p).priority == p
  {
  }

  // The current thread suspends itself: it stays on the processor, off every list.
  lemma {:induction false} SuspendEffect(s: State, p: nat)
    requires s.current in s.threads && Priority(s, s.current) < |s.queues|
    ensures var r, x := AfterSuspend(s), s.threads[s.current];
      if x.stat !in {Ready, Running} then r == s
      else
        && r.current == s.current && r.lockNest == s.lockNest
        && r.threads == s.threads[s.current := x.(stat := Suspended)]
        && List(r, p) == if p == x.rank.priority then Without(List(s, p), s.current) else List(s, p)
  {
  }

  // A ready thread leaves its list and comes to the front of the list of its new priority, behind the others if it
  // has been told to yield; any other only gets the new priority and masks.
  lemma {:induction false} ChangeEffect(s: State, t: ThreadId, p: nat, k: nat)
    requires t in s.threads && Priority(s, t) < |s.queues| && p < |s.queues| && t != s.current
    ensures var r, x := AfterChange(s, t, p), s.threads[t];
      && r.current == s.current && r.lockNest == s.lockNest
      && r.threads == s.threads[t := x.(rank := RankOf(|s.queues|, p))]
      && List(r, k) ==
        var q := if x.stat == Ready && k == x.rank.priority then Without(List(s, k), t) else List(s, k);
        if x.stat == Ready && k == p then (if x.yielding then q + [t] else [t] + q) else q
  {
    hide RankOf, Without;
    RankHas(|s.queues|, p);
  }

  // A thread that is closed leaves its list for good.
  lemma {:induction false} CloseEffect(s: State, t: ThreadId, p: nat)
    requires t in s.threads && Priority(s, t) < |s.queues|
    ensures var r, x := AfterClose(s, t), s.threads[t];
      && r.current == s.current && r.lockNest == s.lockNest
      && r.threads == s.threads[t := x.(stat := Closed)]
      && List(r, p) == if x.stat !in {Init, Closed} && p == x.rank.priority then Without(List(s, p), t) else List(s, p)
  {
  }

  // rt_thread_yield marks the current thread and calls the scheduler. When the best waiting threads
  // have the same priority, the first of them runs next, and the yielding thread goes to the head of
  // the list, not to its end.
  lemma {:induction false} YieldTrades(max: nat, s: State)
    requires Valid(max, s) && s.lockNest == 0 && s.threads[s.current].stat == Running
    requires FirstWaiting(s.queues, 0) == Priority(s, s.current)
    ensures Named(s) && Named(WithYield(s, s.current, true))
    ensures var p := Priority(s, s.current); var s1 := AfterSchedule(WithYield(s, s.current, true));
      && s.queues[p] != []
      && s1.current == s.queues[p][0] && s1.queues == s.queues[p := [s.current] + s.queues[p][1..]]
      && s1.threads[s1.current].stat == Running && Priority(s1, s1.current) == p && s1.lockNest == 0
      && FirstWaiting(s1.queues, 0) == p
  {
    var p := Priority(s, s.current);
    FirstIsWaiting(s.queues, 0);
    var q := s.queues[p];
    HeadIsReady(max, s, p);
    YieldMarkKeeps(max, s, s.current, true);
    ValidIsNamed(max, s);
    ValidIsNamed(max, WithYield(s, s.current, true));
    var s1 := AfterSchedule(WithYield(s, s.current, true));
    assert Without([s.current] + q, q[0]) == [s.current] + q[1..] by {
      assert ([s.current] + q)[1..] == q;
    }
    assert s1.queues == s.queues[p := [s.current] + q[1..]];
    FirstByLists(s.queues, s1.queues, 0);
  }

  lemma {:induction false} FirstByLists(q1: seq<seq<ThreadId>>, q2: seq<seq<ThreadId>>, p: nat)
    requires |q1| == |q2| && p <= |q1|
    requires forall k: nat :: k < |q1| ==> (q1[k] == [] <==> q2[k] == [])
    ensures FirstWaiting(q1, p) == FirstWaiting(q2, p)
    decreases |q1| - p
  {
    if p < |q1| && q1[p] == [] { FirstByLists(q1, q2, p + 1); }
  }

  ghost function Yields(max: nat, s: State, n: nat): (r: State)
    requires Valid(max, s)
    ensures Valid(max, r)
  {
    if n == 0 then s
    else
      var s1 := Yields(max, s, n - 1);
      YieldMarkKeeps(max, s1, s1.current, true);
      ScheduleKeeps(max, WithYield(s1, s1.current, true));
      AfterSchedule(WithYield(s1, s1.current, true))
  }

  // So yielding is not a round: however often the threads of one priority yield, the processor goes
  // back and forth between the first two, and the others wait where they were.
  lemma {:induction false} YieldingPairStarvesTheRest(max: nat, s: State, n: nat)
    requires Valid(max, s) && s.lockNest == 0 && s.threads[s.current].stat == Running
    requires FirstWaiting(s.queues, 0) == Priority(s, s.current)
    ensures s.queues[Priority(s, s.current)] != []
    ensures var p := Priority(s, s.current); var r := Yields(max, s, n); var first := s.queues[p][0];
      && r.current == (if n % 2 == 0 then s.current else first)
      && r.queues == s.queues[p := [if n % 2 == 0 then first else s.current] + s.queues[p][1..]]
      && FirstWaiting(r.queues, 0) == p && Priority(r, r.current) == p
      && r.threads[r.current].stat == Running && r.lockNest == 0
  {
    hide Valid, AfterSchedule;
    YieldTrades(max, s);
    var p := Priority(s, s.current);
    if n > 0 {
      YieldingPairStarvesTheRest(max, s, n - 1);
      YieldTrades(max, Yields(max, s, n - 1));
    } else {
      assert [s.queues[p][0]] + s.queues[p][1..] == s.queues[p];
    }
  }

  // The list after a yield is the rotated one exactly when a single other thread waits at that priority.
  lemma {:induction false} YieldRotatesIff(max: nat, s: State)
    requires Valid(max, s) && s.lockNest == 0 && s.threads[s.current].stat == Running
    requires FirstWaiting(s.queues, 0) == Priority(s, s.current)
    ensures Named(s) && Named(WithYield(s, s.current, true))
    ensures s.queues[Priority(s, s.current)] != []
    ensures var p := Priority(s, s.current); var q := AfterSchedule(WithYield(s, s.current, true)).queues[p];
      q == s.queues[p][1..] + [s.current] <==> |s.queues[p]| == 1
  {
    YieldTrades(max, s);
    var p := Priority(s, s.current);
    var rest := s.queues[p][1..];
    if |s.queues[p]| > 1 {
      assert Holds(s.threads, {}, p, s.queues[p]);
      assert rest[0] in s.queues[p];
      assert ReadyAt(s.threads, rest[0], p);
      assert ([s.current] + rest)[0] != (rest + [s.current])[0];
    }
  }
}
