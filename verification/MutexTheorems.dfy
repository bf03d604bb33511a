/** What the invariant of MutexInheritance means for a whole system of threads. */
module MutexTheorems {
  import opened Lists
  import opened MutexInheritance
  import opened Options

  // ---------- exact inheritance ----------

  /** The minimum of a thread's own priority and those of its mutexes, with or without ceilings. */
  ghost function Inherited(s: State, own: Priority, taken: seq<MutexId>, ceilings: bool): Priority
    requires forall i :: 0 <= i < |taken| ==> taken[i] < |s.mutexes|
  {
    if taken == [] then own
    else
      var mutex := s.mutexes[taken[0]];
      var p := if ceilings then mutex.Effective() else mutex.priority;
      var rest := Inherited(s, own, taken[1..], ceilings);
      if p < rest then p else rest
  }

  lemma {:induction false} InheritedIsMinimum(s: State, own: Priority, taken: seq<MutexId>, ceilings: bool)
    requires forall i :: 0 <= i < |taken| ==> taken[i] < |s.mutexes|
    ensures Inherited(s, own, taken, ceilings) <= own
    ensures forall i :: 0 <= i < |taken| ==>
      Inherited(s, own, taken, ceilings) <= (if ceilings then s.mutexes[taken[i]].Effective() else s.mutexes[taken[i]].priority)
    ensures Inherited(s, own, taken, ceilings) == own ||
      exists i :: 0 <= i < |taken| &&
        Inherited(s, own, taken, ceilings) == (if ceilings then s.mutexes[taken[i]].Effective() else s.mutexes[taken[i]].priority)
  {
    if taken != [] {
      InheritedIsMinimum(s, own, taken[1..], ceilings);
      assert forall i :: 1 <= i < |taken| ==> taken[i] == taken[1..][i - 1];
    }
  }

  /** In every valid state the current priority lies between the two minima. */
  lemma {:induction false} TwoSidedBound(s: State, t: ThreadId)
    requires s.Valid() && t < |s.threads|
    ensures s.TakenKnown(t)
    ensures Inherited(s, s.threads[t].initPriority, s.threads[t].taken, true) <= s.Current(t)
    ensures s.Current(t) <= Inherited(s, s.threads[t].initPriority, s.threads[t].taken, false)
  {
    assert s.ThreadLinked(t) && s.Bounded(t);
    InheritedIsMinimum(s, s.threads[t].initPriority, s.threads[t].taken, true);
    InheritedIsMinimum(s, s.threads[t].initPriority, s.threads[t].taken, false);
  }

  /** Without ceilings a thread runs at exactly the priority it inherits. */
  lemma {:induction false} ExactInheritance(s: State, t: ThreadId)
    requires s.Valid() && NoCeilings(s) && t < |s.threads|
    ensures s.TakenKnown(t)
    ensures s.Current(t) == Inherited(s, s.threads[t].initPriority, s.threads[t].taken, false)
  {
    TwoSidedBound(s, t);
    SameWithoutCeilings(s, s.threads[t].initPriority, s.threads[t].taken);
  }

  /** Ceilings or not: as long as no hand-over has forgotten a ceiling, a thread runs at exactly the
    * minimum with ceilings counted. */
  lemma {:induction false} ExactWithCeilings(s: State, t: ThreadId)
    requires s.Valid() && s.exact && t < |s.threads|
    ensures s.TakenKnown(t)
    ensures s.Current(t) == Inherited(s, s.threads[t].initPriority, s.threads[t].taken, true)
  {
    assert s.ThreadLinked(t) && s.Bounded(t);
    InheritedIsMinimum(s, s.threads[t].initPriority, s.threads[t].taken, true);
    assert forall i :: 0 <= i < |s.threads[t].taken| ==> s.threads[t].taken[i] in s.threads[t].taken;
  }

  lemma {:induction false} SameWithoutCeilings(s: State, own: Priority, taken: seq<MutexId>)
    requires NoCeilings(s) && forall i :: 0 <= i < |taken| ==> taken[i] < |s.mutexes|
    ensures Inherited(s, own, taken, true) == Inherited(s, own, taken, false)
  {
    if taken != [] {
      SameWithoutCeilings(s, own, taken[1..]);
    }
  }

  /** A hand-over forgets the ceiling: the new owner keeps the exact minimum iff it is already
    * at least as urgent as the ceiling. */
  lemma {:induction false} HandOverCeiling(s: State, m: MutexId)
    requires s.Valid() && m < |s.mutexes| && s.mutexes[m].waiters != []
    ensures var next := s.mutexes[m].waiters[0];
            next < |s.threads| && s.TakenKnown(next) &&
            var r := PassOn(s, m);
            r.TakenKnown(next) &&
            (s.Current(next) == Inherited(s, s.threads[next].initPriority, s.threads[next].taken, true) ==>
              (r.Current(next) == Inherited(r, r.threads[next].initPriority, r.threads[next].taken, true)
               <==> s.Current(next) <= s.mutexes[m].ceiling))
  {
    var w := s.mutexes[m].waiters;
    var next := w[0];
    assert next in w && s.MutexLinked(m) && s.QueuedAt(m);
    assert s.ThreadLinked(next) && m !in s.threads[next].taken;
    var r := PassOn(s, m);
    assert |w| > 1 ==> w[1..][0] == w[1] && s.Current(w[0]) <= s.Current(w[1]);
    assert r.threads[next].taken[1..] == s.threads[next].taken;
    SameInherited(s, r, s.threads[next].initPriority, s.threads[next].taken);
  }

  /** A hand-over that forgets a ceiling: thread 0 releases mutex 0, with ceiling 5, to thread 1, which
    * goes on at its own priority 10. */
  method ForgottenCeiling() returns (k: Kernel)
    ensures fresh(k) && k.St().Valid() && !k.exact
    ensures |k.threads| == 2 && k.threads[1].taken == [0] && |k.mutexes| == 1
    ensures k.threads[1].currentPriority == 10
    ensures Inherited(k.St(), k.threads[1].initPriority, k.threads[1].taken, true) == 5
  {
    hide State.Linked, State.Queued, State.Bounded, State.ThreadLinked, State.MutexLinked, Graph;
    k := new Kernel(32, [3, 10], 1);
    TwoAndOne(k.St());
    TwoAndOne(WithCeiling(k.St(), 0, 5));
    var previous := k.SetPrioCeiling(0, 5);
    TwoAndOne(k.St());
    var first := k.Take(0, 0, true);
    TwoAndOne(k.St());
    var second := k.Take(1, 0, true);
    ghost var s := k.St();
    TwoAndOne(s);
    OnlyWaiter(s);
    RunsAtOwn(s, 1);
    TwoAndOne(AfterRelease(s, 0, 0));
    var ok := k.Release(0, 0);
    TwoAndOne(k.St());
    LastRelease(k.St());
  }

  /** What the graph keeps of a system of two threads and one mutex. */
  lemma {:induction false} TwoAndOne(s: State)
    ensures |Graph(s).threads| == |s.threads| && |Graph(s).mutexes| == |s.mutexes|
    ensures |s.threads| == 2 ==> forall t :: 0 <= t < 2 ==> Graph(s).threads[t] == s.threads[t].(currentPriority := LOWEST)
    ensures |s.mutexes| == 1 ==> Graph(s).mutexes[0] == s.mutexes[0].(priority := LOWEST, waiters := [])
  {
  }

  lemma {:induction false} OnlyWaiter(s: State)
    requires s.Valid() && |s.threads| == 2 && |s.mutexes| == 1
    requires s.mutexes[0].owner == Some(0) && s.Waits(1) && s.threads[1].pending == Some(0)
    ensures s.mutexes[0].waiters == [1]
  {
    var w := s.mutexes[0].waiters;
    assert s.ThreadLinked(1) && s.MutexLinked(0);
    FirstTwo(w);
    assert |w| == 1 && w[0] in w;
  }

  lemma {:induction false} FirstTwo(w: seq<ThreadId>)
    requires NoDuplicates(w)
    ensures w == [] || w[0] in w
    ensures |w| <= 1 || (w[0] in w && w[1] in w && w[0] != w[1])
  {
  }

  /** A thread without mutexes runs at its own priority. */
  lemma {:induction false} RunsAtOwn(s: State, t: ThreadId)
    requires s.Valid() && t < |s.threads| && s.threads[t].taken == []
    ensures s.Current(t) == s.threads[t].initPriority
  {
    assert s.ThreadLinked(t) && s.Bounded(t);
  }

  lemma {:induction false} LastRelease(s: State)
    requires s.Valid() && |s.threads| == 2 && |s.mutexes| == 1
    requires s.threads[1].taken == [0] && s.threads[1].initPriority == 10 && s.mutexes[0].ceiling == 5
    requires s.threads[0].stat == Live && s.threads[1].stat == Live
    ensures Inherited(s, 10, [0], true) == 5
  {
    var w := s.mutexes[0].waiters;
    assert s.MutexLinked(0) && s.QueuedAt(0);
    FirstTwo(w);
    assert [0][1..] == [];
  }

  lemma {:induction false} SameInherited(s: State, r: State, own: Priority, taken: seq<MutexId>)
    requires forall i :: 0 <= i < |taken| ==> taken[i] < |s.mutexes| && taken[i] < |r.mutexes|
    requires forall i :: 0 <= i < |taken| ==> s.mutexes[taken[i]] == r.mutexes[taken[i]]
    ensures Inherited(s, own, taken, true) == Inherited(r, own, taken, true)
  {
    if taken != [] {
      SameInherited(s, r, own, taken[1..]);
    }
  }

  // ---------- nesting ----------

  /** Takes nest: the mutex counts them. */
  method TakeTimes(k: Kernel, self: ThreadId, m: MutexId, n: nat)
    requires k.St().Valid() && self < |k.threads| && m < |k.mutexes|
    requires k.threads[self].stat == Live && k.mutexes[m].owner == None && 0 < n <= HOLD_MAX
    modifies k
    ensures k.St().Valid() && |k.mutexes| == |old(k.mutexes)| && |k.threads| == |old(k.threads)|
    ensures k.threads[self].stat == Live && k.threads[self].taken == [m] + old(k.threads)[self].taken
    ensures k.mutexes[m].owner == Some(self) && k.mutexes[m].hold == n
  {
    hide State.Linked, State.Queued, State.Bounded, Graph, AfterTake, TakeOutcome;
    ghost var was := k.threads[self].taken;
    for i := 0 to n
      invariant k.St().Valid() && |k.mutexes| == |old(k.mutexes)| && |k.threads| == |old(k.threads)|
      invariant k.threads[self].stat == Live
      invariant k.mutexes[m].owner == (if i == 0 then None else Some(self)) && (i > 0 ==> k.mutexes[m].hold == i)
      invariant k.threads[self].taken == if i == 0 then was else [m] + was
    {
      var taken := k.Take(self, m, true);
      assert taken == Acquired;
    }
  }

  /** The owner keeps the mutex through all of its releases but the one that matches its first take. */
  method ReleaseTimes(k: Kernel, self: ThreadId, m: MutexId, n: nat)
    requires k.St().Valid() && self < |k.threads| && m < |k.mutexes|
    requires k.threads[self].stat == Live && k.mutexes[m].owner == Some(self) && n <= k.mutexes[m].hold
    modifies k
    ensures k.St().Valid() && |k.mutexes| == |old(k.mutexes)| && |k.threads| == |old(k.threads)|
    ensures n < old(k.mutexes[m].hold) ==>
      && k.mutexes[m].owner == Some(self) && k.mutexes[m].hold == old(k.mutexes[m].hold) - n
      && k.threads[self].taken == old(k.threads)[self].taken
    ensures n == old(k.mutexes[m].hold) ==>
      k.mutexes[m].owner != Some(self) && k.threads[self].taken == Without(old(k.threads)[self].taken, m)
  {
    hide State.Linked, State.Queued, State.Bounded, Graph, AfterRelease, Forgets;
    HeldFacts(k.St(), self, m);
    for i := 0 to n
      invariant k.St().Valid() && |k.mutexes| == |old(k.mutexes)| && |k.threads| == |old(k.threads)|
      invariant i < old(k.mutexes[m].hold) ==>
        && k.threads[self].stat == Live && k.threads[self].taken == old(k.threads)[self].taken
        && k.mutexes[m].owner == Some(self) && k.mutexes[m].hold == old(k.mutexes[m].hold) - i
      invariant i == old(k.mutexes[m].hold) ==>
        k.mutexes[m].owner != Some(self) && k.threads[self].taken == Without(old(k.threads)[self].taken, m)
    {
      FirstWaiterApart(k.St(), self, m);
      var released := k.Release(self, m);
      assert released;
    }
  }

  // ---------- wait chains ----------

  /** `u` waits for a mutex that `t` owns. */
  ghost predicate Blocks(s: State, u: ThreadId, t: ThreadId) {
    && u < |s.threads| && s.Waits(u)
    && s.threads[u].pending.value < |s.mutexes|
    && s.mutexes[s.threads[u].pending.value].owner == Some(t)
  }

  ghost predicate IsChain(s: State, chain: seq<ThreadId>) {
    && chain != []
    && (forall i :: 0 <= i < |chain| ==> chain[i] < |s.threads|)
    && forall i :: 0 <= i < |chain| - 1 ==> Edge(s, chain, i)
  }

  ghost predicate Edge(s: State, chain: seq<ThreadId>, i: int)
    requires 0 <= i < |chain| - 1
  {
    Blocks(s, chain[i], chain[i + 1])
  }

  /** No owner ranks below a thread blocked behind it, however long the chain and whatever the ceilings. */
  lemma {:induction false} NoInversion(s: State, chain: seq<ThreadId>)
    requires s.Valid() && IsChain(s, chain)
    ensures s.Current(chain[|chain| - 1]) <= s.Current(chain[0])
  {
    if |chain| > 1 {
      var u, t := chain[0], chain[1];
      assert Edge(s, chain, 0);
      var m := s.threads[u].pending.value;
      assert s.ThreadLinked(u) && s.MutexLinked(m) && s.QueuedAt(m) && s.ThreadLinked(t) && s.Bounded(t);
      assert s.Current(t) <= s.mutexes[m].priority;
      var w := s.mutexes[m].waiters;
      var i :| 0 <= i < |w| && w[i] == u;
      assert s.Current(w[0]) <= s.Current(w[i]);
      forall i | 0 <= i < |chain| - 2 ensures Edge(s, chain[1..], i) {
        assert Edge(s, chain, i + 1);
      }
      NoInversion(s, chain[1..]);
    }
  }

  /** `rank` grows along every wait edge, so there is no deadlock. */
  ghost predicate Acyclic(s: State, rank: seq<nat>) {
    |rank| == |s.threads| && forall u: ThreadId, t: ThreadId :: Blocks(s, u, t) && t < |rank| ==> rank[u] < rank[t]
  }

  /** Without ceilings and deadlock, somebody behind `t` has exactly the priority `t` runs at. */
  lemma {:induction false} Origin(s: State, rank: seq<nat>, t: ThreadId) returns (chain: seq<ThreadId>)
    requires s.Valid() && NoCeilings(s) && Acyclic(s, rank) && t < |s.threads|
    ensures IsChain(s, chain) && chain[|chain| - 1] == t
    ensures s.threads[chain[0]].initPriority == s.Current(t)
    decreases rank[t]
  {
    assert s.ThreadLinked(t) && s.Bounded(t);
    if s.Current(t) == s.threads[t].initPriority {
      chain := [t];
    } else {
      var m :| m in s.threads[t].taken && s.Current(t) >= s.mutexes[m].Effective();
      assert s.MutexLinked(m) && s.QueuedAt(m);
      assert s.Current(t) <= s.mutexes[m].priority;
      if s.mutexes[m].waiters == [] {
        assert false;
      }
      var u := s.mutexes[m].waiters[0];
      assert u in s.mutexes[m].waiters;
      assert Blocks(s, u, t);
      var behind := Origin(s, rank, u);
      chain := behind + [t];
      forall i | 0 <= i < |chain| - 1 ensures Edge(s, chain, i) {
        if i < |behind| - 1 {
          assert Edge(s, behind, i);
        }
      }
    }
  }

  /** The current priority is the most urgent initial priority among the threads blocked behind `t`:
    * none of them is more urgent, and one of them is as urgent. */
  lemma {:induction false} PriorityOfChains(s: State, rank: seq<nat>, t: ThreadId)
    requires s.Valid() && NoCeilings(s) && Acyclic(s, rank) && t < |s.threads|
    ensures forall chain :: IsChain(s, chain) && chain[|chain| - 1] == t ==>
              s.Current(t) <= s.threads[chain[0]].initPriority
    ensures exists chain :: IsChain(s, chain) && chain[|chain| - 1] == t &&
              s.Current(t) == s.threads[chain[0]].initPriority
  {
    forall chain | IsChain(s, chain) && chain[|chain| - 1] == t
      ensures s.Current(t) <= s.threads[chain[0]].initPriority
    {
      NoInversion(s, chain);
      assert s.ThreadLinked(chain[0]) && s.Bounded(chain[0]);
    }
    var chain := Origin(s, rank, t);
  }

  /** Two states with the same ownership graph give every thread the same priority,
    * whatever histories led to them. */
  lemma {:induction false} PrioritiesDetermined(s: State, r: State, rank: seq<nat>)
    requires s.Valid() && r.Valid() && Graph(s) == Graph(r)
    requires NoCeilings(s) && Acyclic(s, rank)
    ensures forall t: ThreadId :: s.Current(t) == r.Current(t)
  {
    assert |s.threads| == |Graph(s).threads| == |r.threads|;
    assert |s.mutexes| == |Graph(s).mutexes| == |r.mutexes|;
    forall t: ThreadId | t < |s.threads| ensures Alike(s, r, t) && Alike(r, s, t) {
      assert Graph(s).threads[t] == Graph(r).threads[t];
    }
    forall m: MutexId | m < |s.mutexes|
      ensures r.mutexes[m].ceiling == s.mutexes[m].ceiling && r.mutexes[m].owner == s.mutexes[m].owner
    {
      assert Graph(s).mutexes[m] == Graph(r).mutexes[m];
    }
    forall u: ThreadId, t: ThreadId | Blocks(r, u, t) ensures Blocks(s, u, t) {
      assert Alike(s, r, u);
    }
    forall t: ThreadId ensures s.Current(t) == r.Current(t) {
      if t < |s.threads| {
        NotBelow(s, r, rank, t);
        NotBelow(r, s, rank, t);
      }
    }
  }

  ghost predicate Alike(s: State, r: State, t: ThreadId)
    requires t < |s.threads| && t < |r.threads|
  {
    && s.threads[t].initPriority == r.threads[t].initPriority
    && s.threads[t].stat == r.threads[t].stat
    && s.threads[t].pending == r.threads[t].pending
  }

  lemma {:induction false} NotBelow(s: State, r: State, rank: seq<nat>, t: ThreadId)
    requires s.Valid() && r.Valid() && NoCeilings(s) && Acyclic(s, rank)
    requires |s.threads| == |r.threads| && |s.mutexes| == |r.mutexes| && t < |s.threads|
    requires forall u: ThreadId :: u < |s.threads| ==> Alike(s, r, u)
    requires forall m: MutexId :: m < |s.mutexes| ==> r.mutexes[m].owner == s.mutexes[m].owner
    ensures r.Current(t) <= s.Current(t)
  {
    var chain := Origin(s, rank, t);
    forall i | 0 <= i < |chain| - 1 ensures Edge(r, chain, i) {
      assert Edge(s, chain, i) && Alike(s, r, chain[i]);
    }
    NoInversion(r, chain);
    assert Alike(s, r, chain[0]) && r.ThreadLinked(chain[0]) && r.Bounded(chain[0]);
  }
}
