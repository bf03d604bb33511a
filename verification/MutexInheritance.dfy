/** Priority inheritance between threads and mutexes (src/ipc.c, src/thread.c).
  *
  * Threads and mutexes are control blocks in two tables of the kernel; a thread or a
  * mutex is named by its index.  Every method of `Kernel` is one critical section
  * (interrupts disabled).  Numerically smaller priorities are more urgent.
  */
module MutexInheritance {
  import opened Lists
  import opened Options

  const LOWEST: Priority := 0xff
  const HOLD_MAX: nat := 0xff

  type Priority = p: int | 0 <= p <= 0xff
  type ThreadId = nat
  type MutexId = nat

  datatype TakeResult = Acquired | Full | TimedOut | Blocked

  /** `Live` stands for READY or RUNNING, `Suspended` for any suspended state. */
  datatype Stat = Live | Suspended | Closed

  datatype Thread = Thread(
    initPriority: Priority,
    currentPriority: Priority,
    stat: Stat,
    taken: seq<MutexId>,
    pending: Option<MutexId>)
  {
    /** Everything but the current priority. */
    function Ties(): (Priority, Stat, seq<MutexId>, Option<MutexId>) {
      (initPriority, stat, taken, pending)
    }
  }

  datatype Mutex = Mutex(
    owner: Option<ThreadId>,
    priority: Priority,
    hold: nat,
    ceiling: Priority,
    waiters: seq<ThreadId>)
  {
    /** What the mutex contributes to its owner: its own priority, but at least its ceiling. */
    function Effective(): Priority {
      if priority < ceiling then priority else ceiling
    }

    /** Everything but the wait list and its priority. */
    function Holding(): (Option<ThreadId>, nat, Priority) {
      (owner, hold, ceiling)
    }

    function Share(exact: bool): Priority {
      if exact then Effective() else priority
    }
  }

  /** `exact`: no mutex has been handed to a thread less urgent than its ceiling so far. */
  datatype State = State(threads: seq<Thread>, mutexes: seq<Mutex>, exact: bool) {

    /** `t` sits in the wait list of the mutex it is pending on. */
    ghost predicate Waits(t: ThreadId)
      requires t < |threads|
    {
      threads[t].stat == Suspended && threads[t].pending.Some?
    }

    ghost predicate TakenKnown(t: ThreadId)
      requires t < |threads|
    {
      forall i :: 0 <= i < |threads[t].taken| ==> threads[t].taken[i] < |mutexes|
    }

    ghost predicate ThreadLinked(t: ThreadId)
      requires t < |threads|
    {
      && NoDuplicates(threads[t].taken)
      && TakenKnown(t)
      && (forall i :: 0 <= i < |threads[t].taken| ==> mutexes[threads[t].taken[i]].owner == Some(t))
      && (threads[t].stat == Live ==> threads[t].pending.None?)
      && (Waits(t) ==>
            var m := threads[t].pending.value;
            m < |mutexes| && t in mutexes[m].waiters)
    }

    ghost predicate MutexLinked(m: MutexId)
      requires m < |mutexes|
    {
      && NoDuplicates(mutexes[m].waiters)
      && (forall t <- mutexes[m].waiters ::
            && t < |threads|
            && Waits(t)
            && threads[t].pending == Some(m)
            && mutexes[m].owner != Some(t))
      && (match mutexes[m].owner
          case None => mutexes[m].waiters == [] && mutexes[m].hold == 0
          case Some(o) => o < |threads| && m in threads[o].taken && 0 < mutexes[m].hold <= HOLD_MAX)
    }

    /** Ownership, hold counts and wait lists agree with each other. */
    ghost predicate Linked() {
      && (forall t: ThreadId :: t < |threads| ==> ThreadLinked(t))
      && (forall m: MutexId :: m < |mutexes| ==> MutexLinked(m))
    }

    function Current(t: ThreadId): Priority {
      if t < |threads| then threads[t].currentPriority else LOWEST
    }

    ghost predicate Sorted(waiters: seq<ThreadId>) {
      forall i, j :: 0 <= i < j < |waiters| ==> Current(waiters[i]) <= Current(waiters[j])
    }

    function Front(waiters: seq<ThreadId>): Priority {
      if waiters == [] then LOWEST else Current(waiters[0])
    }

    ghost predicate QueuedAt(m: MutexId)
      requires m < |mutexes|
    {
      Sorted(mutexes[m].waiters) && mutexes[m].priority == Front(mutexes[m].waiters)
    }

    /** Wait lists are in priority order and each mutex carries the priority of its front waiter. */
    ghost predicate Queued() {
      forall m: MutexId :: m < |mutexes| ==> QueuedAt(m)
    }

    /** `p` is no more urgent than the minimum taken with ceilings counted. */
    ghost predicate AtLeastLow(t: ThreadId, p: Priority)
      requires t < |threads| && TakenKnown(t)
    {
      p >= threads[t].initPriority || exists m <- threads[t].taken :: p >= mutexes[m].Effective()
    }

    /** `p` is no less urgent than the minimum taken without ceilings, and, as long as the state is
      * exact, than the minimum with ceilings counted. */
    ghost predicate AtMostHigh(t: ThreadId, p: Priority)
      requires t < |threads| && TakenKnown(t)
    {
      p <= threads[t].initPriority && forall m <- threads[t].taken :: p <= mutexes[m].Share(exact)
    }

    ghost predicate Bounded(t: ThreadId)
      requires t < |threads| && TakenKnown(t)
    {
      AtLeastLow(t, Current(t)) && AtMostHigh(t, Current(t))
    }

    ghost predicate Valid() {
      Linked() && Queued() && forall t: ThreadId :: t < |threads| ==> ThreadLinked(t) && Bounded(t)
    }

    /** Only `defect` may have a current priority outside its bounds. */
    ghost predicate ValidExcept(defect: ThreadId) {
      Linked() && Queued() && forall t: ThreadId :: t < |threads| && t != defect ==> ThreadLinked(t) && Bounded(t)
    }

    function SetPriority(t: ThreadId, p: Priority): State
      requires t < |threads|
    {
      this.(threads := threads[t := threads[t].(currentPriority := p)])
    }

    function SetWaiters(m: MutexId, waiters: seq<ThreadId>): State
      requires m < |mutexes|
    {
      this.(mutexes := mutexes[m := mutexes[m].(waiters := waiters, priority := Front(waiters))])
    }
  }

  // ---------- the measure of the propagation ----------

  ghost function Sum(threads: seq<Thread>): nat {
    if threads == [] then 0 else Sum(threads[..|threads| - 1]) + threads[|threads| - 1].currentPriority
  }

  lemma {:induction false} SumUpdate(threads: seq<Thread>, k: nat, thread: Thread)
    requires k < |threads|
    ensures Sum(threads[k := thread]) == Sum(threads) - threads[k].currentPriority + thread.currentPriority
  {
    var n := |threads| - 1;
    if k == n {
      assert threads[k := thread][..n] == threads[..n];
    } else {
      assert threads[k := thread][..n] == threads[..n][k := thread];
      SumUpdate(threads[..n], k, thread);
    }
  }

  lemma {:induction false} SumBound(threads: seq<Thread>)
    ensures Sum(threads) <= 0xff * |threads|
  {
    if threads != [] {
      SumBound(threads[..|threads| - 1]);
    }
  }

  /** Raising steps drain the sum of the priorities; lowering steps fill it up. */
  ghost function Distance(threads: seq<Thread>, raising: bool): nat {
    SumBound(threads);
    if raising then Sum(threads) else 0xff * |threads| - Sum(threads)
  }

  // ---------- one propagation step ----------

  lemma {:induction false} InsertSorted(s: State, waiters: seq<ThreadId>, n: nat, t: ThreadId)
    requires n <= |waiters| && s.Sorted(waiters)
    requires forall j :: 0 <= j < n ==> s.Current(waiters[j]) <= s.Current(t)
    requires n < |waiters| ==> s.Current(t) < s.Current(waiters[n])
    ensures s.Sorted(Insert(waiters, n, t))
  {
    var r := Insert(waiters, n, t);
    forall i, j | 0 <= i < j < |r| ensures s.Current(r[i]) <= s.Current(r[j]) {
      assert r[i] == if i < n then waiters[i] else if i == n then t else waiters[i - 1];
      assert r[j] == if j < n then waiters[j] else if j == n then t else waiters[j - 1];
      if i == n && n < j - 1 {
        assert s.Current(waiters[n]) <= s.Current(waiters[j - 1]);
      }
    }
  }

  lemma {:induction false} DeleteSorted(s: State, t: ThreadId, p: Priority, waiters: seq<ThreadId>)
    requires t < |s.threads| && s.Sorted(waiters) && NoDuplicates(waiters)
    ensures forall k :: 0 <= k < |waiters| && waiters[k] == t ==> s.SetPriority(t, p).Sorted(Delete(waiters, k))
  {
  }

  /** Reordering the list of one mutex leaves ownership alone. */
  lemma {:induction false} RelinkKeepsLinked(s: State, m: MutexId, waiters: seq<ThreadId>)
    requires s.Linked() && m < |s.mutexes|
    requires NoDuplicates(waiters) && forall t :: t in waiters <==> t in s.mutexes[m].waiters
    ensures s.SetWaiters(m, waiters).Linked()
  {
    var r := s.SetWaiters(m, waiters);
    forall t: ThreadId | t < |r.threads| ensures r.ThreadLinked(t) {
      assert s.ThreadLinked(t);
    }
    forall n: MutexId | n < |r.mutexes| ensures r.MutexLinked(n) {
      assert s.MutexLinked(n);
      if s.mutexes[m].owner.None? && waiters != [] {
        assert waiters[0] in waiters;
      }
    }
  }

  lemma {:induction false} PriorityKeepsLinked(s: State, t: ThreadId, p: Priority)
    requires s.Linked() && t < |s.threads|
    ensures s.SetPriority(t, p).Linked()
  {
    var r := s.SetPriority(t, p);
    forall u: ThreadId | u < |r.threads| ensures r.ThreadLinked(u) {
      assert s.ThreadLinked(u);
    }
    forall n: MutexId | n < |r.mutexes| ensures r.MutexLinked(n) {
      assert s.MutexLinked(n);
    }
  }

  lemma {:induction false} RequeueQueued(s: State, t: ThreadId, p: Priority, m: MutexId, waiters: seq<ThreadId>)
    requires s.Linked() && s.Queued() && t < |s.threads| && s.threads[t].pending == Some(m) && m < |s.mutexes|
    requires s.SetPriority(t, p).Sorted(waiters)
    ensures s.SetPriority(t, p).SetWaiters(m, waiters).Queued()
  {
    var r := s.SetPriority(t, p).SetWaiters(m, waiters);
    forall n: MutexId | n < |r.mutexes| ensures r.QueuedAt(n) {
      assert s.QueuedAt(n) && s.MutexLinked(n);
    }
  }

  /** Once `t` has priority `p` and its mutex is requeued, only the mutex's owner can be off. */
  lemma {:induction false} RequeueStep(s: State, t: ThreadId, p: Priority, m: MutexId, waiters: seq<ThreadId>)
    requires s.ValidExcept(t) && t < |s.threads| && s.ThreadLinked(t)
    requires s.Waits(t) && s.threads[t].pending == Some(m)
    requires s.AtLeastLow(t, p) && s.AtMostHigh(t, p)
    requires NoDuplicates(waiters) && forall u :: u in waiters <==> u in s.mutexes[m].waiters
    requires s.SetPriority(t, p).Sorted(waiters)
    ensures var r := s.SetPriority(t, p).SetWaiters(m, waiters);
            && r.Linked() && r.mutexes[m].owner.Some? && r.mutexes[m].owner != Some(t)
            && r.ValidExcept(r.mutexes[m].owner.value)
            && (p < s.Current(t) ==> r.mutexes[m].priority <= s.mutexes[m].priority)
            && (p > s.Current(t) ==> r.mutexes[m].priority >= s.mutexes[m].priority)
  {
    hide State.AtLeastLow, State.AtMostHigh, State.Sorted;
    assert s.ThreadLinked(t) && s.MutexLinked(m) && s.QueuedAt(m);
    var s1 := s.SetPriority(t, p);
    PriorityKeepsLinked(s, t, p);
    RelinkKeepsLinked(s1, m, waiters);
    var r := s1.SetWaiters(m, waiters);
    var o := r.mutexes[m].owner.value;
    RequeueQueued(s, t, p, m, waiters);
    forall u: ThreadId | u < |r.threads| && u != o ensures r.ThreadLinked(u) && r.Bounded(u) {
      assert s.ThreadLinked(u);
      assert m !in r.threads[u].taken;
      if u != t { assert s.Bounded(u); }
      SameTakenSameBounds(s, r, u);
    }
    FrontMoves(s, t, p, m, waiters);
  }

  /** The bounds of a thread depend only on its own block and the mutexes it holds. */
  lemma {:induction false} SameTakenSameBounds(s: State, r: State, u: ThreadId)
    requires u < |s.threads| && u < |r.threads| && s.TakenKnown(u) && r.TakenKnown(u)
    requires r.threads[u].initPriority == s.threads[u].initPriority && r.threads[u].taken == s.threads[u].taken
    requires forall m <- s.threads[u].taken :: r.mutexes[m].priority == s.mutexes[m].priority
    requires forall m <- s.threads[u].taken :: r.mutexes[m].ceiling == s.mutexes[m].ceiling
    requires r.exact ==> s.exact
    ensures forall p :: s.AtLeastLow(u, p) <==> r.AtLeastLow(u, p)
    ensures forall p :: s.AtMostHigh(u, p) ==> r.AtMostHigh(u, p)
  {
  }

  lemma {:induction false} FrontMoves(s: State, t: ThreadId, p: Priority, m: MutexId, waiters: seq<ThreadId>)
    requires t < |s.threads| && m < |s.mutexes| && s.QueuedAt(m)
    requires t in waiters && forall u :: u in waiters <==> u in s.mutexes[m].waiters
    requires s.SetPriority(t, p).Sorted(waiters)
    ensures p < s.Current(t) ==> s.SetPriority(t, p).Front(waiters) <= s.mutexes[m].priority
    ensures p > s.Current(t) ==> s.SetPriority(t, p).Front(waiters) >= s.mutexes[m].priority
  {
    var before, s1 := s.mutexes[m].waiters, s.SetPriority(t, p);
    assert waiters[0] in before && before[0] in waiters;
    var i :| 0 <= i < |before| && before[i] == waiters[0];
    var j :| 0 <= j < |waiters| && waiters[j] == before[0];
    assert s.Current(before[0]) <= s.Current(before[i]);
    assert s1.Current(waiters[0]) <= s1.Current(waiters[j]);
  }

  /** A thread that waits for nothing can take any priority within its bounds. */
  lemma {:induction false} PriorityWithinBounds(s: State, t: ThreadId, p: Priority)
    requires s.ValidExcept(t) && t < |s.threads| && s.ThreadLinked(t) && !s.Waits(t)
    requires s.AtLeastLow(t, p) && s.AtMostHigh(t, p)
    ensures s.SetPriority(t, p).Valid()
  {
    var r := s.SetPriority(t, p);
    PriorityKeepsLinked(s, t, p);
    forall m: MutexId | m < |r.mutexes| ensures r.QueuedAt(m) {
      assert s.QueuedAt(m) && s.MutexLinked(m);
    }
    forall u: ThreadId | u < |r.threads| ensures r.ThreadLinked(u) && r.Bounded(u) {
      assert s.ThreadLinked(u) && r.ThreadLinked(u);
      SameTakenSameBounds(s, r, u);
      assert u == t || s.Bounded(u);
    }
  }

  lemma {:induction false} DistanceShrinks(s: State, t: ThreadId, p: Priority)
    requires t < |s.threads| && p != s.Current(t)
    ensures var raising := p < s.Current(t);
            Distance(s.SetPriority(t, p).threads, raising) < Distance(s.threads, raising)
  {
    SumUpdate(s.threads, t, s.threads[t].(currentPriority := p));
  }

  lemma {:induction false} DeleteInRange(s: seq<nat>, k: nat, bound: nat)
    requires k < |s| && forall j :: 0 <= j < |s| ==> s[j] < bound
    ensures forall j :: 0 <= j < |Delete(s, k)| ==> Delete(s, k)[j] < bound
  {
  }

  lemma {:induction false} PriorityKeepsGraph(s: State, t: ThreadId, p: Priority)
    requires t < |s.threads|
    ensures Graph(s.SetPriority(t, p)) == Graph(s)
  {
  }

  /** The list `t` waits in contains it and is ordered apart from it. */
  lemma {:induction false} WaiterList(s: State, t: ThreadId, p: Priority, m: MutexId)
    requires s.ValidExcept(t) && t < |s.threads| && s.ThreadLinked(t)
    requires s.Waits(t) && s.threads[t].pending == Some(m)
    ensures m < |s.mutexes| && t in s.mutexes[m].waiters && NoDuplicates(s.mutexes[m].waiters)
    ensures forall j :: 0 <= j < |s.mutexes[m].waiters| ==> s.mutexes[m].waiters[j] < |s.threads|
    ensures forall k :: 0 <= k < |s.mutexes[m].waiters| && s.mutexes[m].waiters[k] == t ==>
              s.SetPriority(t, p).Sorted(Delete(s.mutexes[m].waiters, k))
  {
    assert s.MutexLinked(m) && s.QueuedAt(m);
    DeleteSorted(s, t, p, s.mutexes[m].waiters);
    assert forall j :: 0 <= j < |s.mutexes[m].waiters| ==> s.mutexes[m].waiters[j] in s.mutexes[m].waiters;
  }

  /** After `t` has moved from `s` to `r`, either its owner `o` is settled or it moves next, nearer to the end. */
  lemma {:induction false} OwnerStep(s: State, r: State, t: ThreadId, p: Priority, o: ThreadId, q: Priority)
    requires t < |s.threads| && p != s.Current(t) && r.threads == s.SetPriority(t, p).threads
    requires o < |r.threads| && r.ThreadLinked(o) && r.ValidExcept(o)
    requires r.AtLeastLow(o, q) && q <= r.threads[o].initPriority
    requires forall m <- r.threads[o].taken :: q <= r.mutexes[m].Effective()
    requires p < s.Current(t) ==> r.AtLeastLow(o, r.Current(o))
    requires r.Bounded(o) ==> r.Valid()
    ensures q == r.Current(o) ==> r.Valid()
    ensures r.AtMostHigh(o, q)
    ensures !r.Waits(o) ==> r.SetPriority(o, q).Valid()
    ensures q != r.Current(o) && p < s.Current(t) ==>
              q < r.Current(o) && Distance(r.threads, true) < Distance(s.threads, true)
    ensures q > r.Current(o) ==> p > s.Current(t) && Distance(r.threads, false) < Distance(s.threads, false)
  {
    DistanceShrinks(s, t, p);
    if !r.Waits(o) {
      PriorityWithinBounds(r, o, q);
    }
    if q == r.Current(o) {
      assert r.Bounded(o);
    }
  }

  // ---------- the kernel ----------

  /** What the owner's next priority means for the propagation. */
  lemma {:induction false} Settled(s: State, t: ThreadId, p: Priority, m: MutexId, waiters: seq<ThreadId>)
    requires s.ValidExcept(t) && t < |s.threads| && m < |s.mutexes|
    requires var r := s.SetPriority(t, p).SetWaiters(m, waiters);
             && r.Linked() && r.mutexes[m].owner.Some? && r.mutexes[m].owner != Some(t)
             && r.ValidExcept(r.mutexes[m].owner.value)
             && (p < s.Current(t) ==> r.mutexes[m].priority <= s.mutexes[m].priority)
    ensures var r := s.SetPriority(t, p).SetWaiters(m, waiters);
            var o := r.mutexes[m].owner.value;
            && Graph(r) == Graph(s)
            && o < |r.threads| && r.ThreadLinked(o)
            && (r.Bounded(o) ==> r.Valid())
            && (p < s.Current(t) ==> r.AtLeastLow(o, r.Current(o)))
  {
    var r := s.SetPriority(t, p).SetWaiters(m, waiters);
    var o := r.mutexes[m].owner.value;
    assert s.MutexLinked(m) && s.ThreadLinked(o) && s.Bounded(o) && r.ThreadLinked(o);
    if p < s.Current(t) && !(r.Current(o) >= r.threads[o].initPriority) {
      var n :| n in s.threads[o].taken && s.Current(o) >= s.mutexes[n].Effective();
      assert r.mutexes[n].Effective() <= s.mutexes[n].Effective();
    }
    assert Graph(r) == Graph(s);
  }

  /** The kernel state without priorities and without the order of the wait lists. */
  ghost function Graph(s: State): (g: State)
    ensures |g.threads| == |s.threads| && |g.mutexes| == |s.mutexes|
  {
    State(seq(|s.threads|, i requires 0 <= i < |s.threads| => s.threads[i].(currentPriority := LOWEST)),
          seq(|s.mutexes|, i requires 0 <= i < |s.mutexes| => s.mutexes[i].(priority := LOWEST, waiters := [])), true)
  }

  ghost function TakeOutcome(g: State, self: ThreadId, m: MutexId, wait: bool): TakeResult
    requires self < |g.threads| && m < |g.mutexes|
  {
    if g.mutexes[m].owner == Some(self) then
      if g.mutexes[m].hold < HOLD_MAX then Acquired else Full
    else if g.mutexes[m].owner.None? then Acquired
    else if wait then Blocked else TimedOut
  }

  /** What a take does to the ownership graph. */
  ghost function AfterTake(g: State, self: ThreadId, m: MutexId, wait: bool): State
    requires self < |g.threads| && m < |g.mutexes|
  {
    match TakeOutcome(g, self, m, wait)
    case Acquired =>
      if g.mutexes[m].owner == Some(self) then
        g.(mutexes := g.mutexes[m := g.mutexes[m].(hold := g.mutexes[m].hold + 1)])
      else
        State(g.threads[self := g.threads[self].(taken := [m] + g.threads[self].taken)],
              g.mutexes[m := g.mutexes[m].(owner := Some(self), hold := 1)], g.exact)
    case Blocked =>
      g.(threads := g.threads[self := g.threads[self].(stat := Suspended, pending := Some(m))])
    case _ => g
  }

  /** Apart from priorities and wait lists, all threads but those in `ts` and all mutexes but those in `ms` are as they were. */
  ghost predicate OnlyThese(s: State, r: State, ts: set<ThreadId>, ms: set<MutexId>) {
    && |r.threads| == |s.threads| && |r.mutexes| == |s.mutexes|
    && (forall t: ThreadId :: t < |s.threads| && t !in ts ==> r.threads[t].Ties() == s.threads[t].Ties())
    && (forall n: MutexId :: n < |s.mutexes| && n !in ms ==> r.mutexes[n].Holding() == s.mutexes[n].Holding())
  }

  lemma {:induction false} GraphParts(s: State, g: State)
    requires Graph(s) == g
    ensures |g.threads| == |s.threads| && |g.mutexes| == |s.mutexes|
    ensures forall t: ThreadId :: t < |s.threads| ==> g.threads[t] == s.threads[t].(currentPriority := LOWEST)
    ensures forall n: MutexId :: n < |s.mutexes| ==> g.mutexes[n] == s.mutexes[n].(priority := LOWEST, waiters := [])
  {
  }

  /** The effect of a take, block by block. */
  lemma {:induction false} TakeEffect(s: State, r: State, self: ThreadId, m: MutexId, wait: bool)
    requires self < |s.threads| && m < |s.mutexes| && s.threads[self].stat == Live && s.threads[self].pending == None
    requires Graph(r) == AfterTake(Graph(s), self, m, wait)
    ensures OnlyThese(s, r, {self}, {m})
    ensures var x, y := s.mutexes[m], r.mutexes[m];
            var t, u := s.threads[self], r.threads[self];
            && y.ceiling == x.ceiling && u.initPriority == t.initPriority
            && (x.owner == Some(self) ==>
                  y.owner == Some(self) && y.hold == (if x.hold < HOLD_MAX then x.hold + 1 else x.hold) && u.Ties() == t.Ties())
            && (x.owner == None ==>
                  y.owner == Some(self) && y.hold == 1 && u.taken == [m] + t.taken && u.stat == Live && u.pending == None)
            && (x.owner != None && x.owner != Some(self) ==>
                  y.Holding() == x.Holding() && u.taken == t.taken
                  && u.stat == (if wait then Suspended else Live) && u.pending == (if wait then Some(m) else None))
  {
    hide Graph;
    GraphParts(s, Graph(s));
    GraphParts(r, Graph(r));
  }

  lemma {:induction false} CeilingEffect(s: State, r: State, m: MutexId, ceiling: Priority)
    requires m < |s.mutexes| && Graph(r) == Graph(WithCeiling(s, m, ceiling))
    ensures OnlyThese(s, r, {}, {m})
    ensures r.mutexes[m].owner == s.mutexes[m].owner && r.mutexes[m].hold == s.mutexes[m].hold
    ensures r.mutexes[m].ceiling == ceiling
  {
    hide Graph;
    GraphParts(WithCeiling(s, m, ceiling), Graph(r));
    GraphParts(r, Graph(r));
  }

  lemma {:induction false} CloseEffect(s: State, r: State, t: ThreadId)
    requires t < |s.threads| && Graph(r) == Graph(Close(s, t))
    ensures OnlyThese(s, r, {t}, {})
    ensures r.threads[t].stat == Closed && r.threads[t].taken == s.threads[t].taken
    ensures r.threads[t].initPriority == s.threads[t].initPriority
    ensures s.threads[t].stat != Closed ==> r.threads[t].pending == None
  {
    hide Graph;
    GraphParts(Close(s, t), Graph(r));
    GraphParts(r, Graph(r));
  }

  /** The effect of a release, block by block. */
  lemma {:induction false} ReleaseEffect(s: State, r: State, self: ThreadId, m: MutexId)
    requires self < |s.threads| && m < |s.mutexes| && s.mutexes[m].owner == Some(self) && s.mutexes[m].hold > 0
    requires s.mutexes[m].waiters != [] ==> s.mutexes[m].waiters[0] < |s.threads| && s.mutexes[m].waiters[0] != self
    requires Graph(r) == Graph(AfterRelease(s, self, m))
    ensures s.mutexes[m].hold > 1 ==>
      OnlyThese(s, r, {}, {m}) && r.mutexes[m] == s.mutexes[m].(hold := s.mutexes[m].hold - 1, priority := r.mutexes[m].priority, waiters := r.mutexes[m].waiters)
    ensures s.mutexes[m].hold == 1 && s.mutexes[m].waiters == [] ==>
      && OnlyThese(s, r, {self}, {m})
      && r.mutexes[m].owner == None && r.mutexes[m].hold == 0 && r.mutexes[m].ceiling == s.mutexes[m].ceiling
    ensures s.mutexes[m].hold == 1 && s.mutexes[m].waiters != [] ==>
      var next := s.mutexes[m].waiters[0];
      && OnlyThese(s, r, {self, next}, {m})
      && r.mutexes[m].owner == Some(next) && r.mutexes[m].hold == 1 && r.mutexes[m].ceiling == s.mutexes[m].ceiling
      && r.threads[next].Ties() == s.threads[next].(stat := Live, taken := [m] + s.threads[next].taken, pending := None).Ties()
    ensures s.mutexes[m].hold == 1 ==>
      && |r.threads| == |s.threads|
      && var t := s.threads[self]; r.threads[self].Ties() == t.(taken := Without(t.taken, m)).Ties()
  {
    hide Graph;
    GraphParts(AfterRelease(s, self, m), Graph(r));
    GraphParts(r, Graph(r));
  }

  /** The mutexes `u` holds contribute the same priorities in both states. */
  ghost predicate SameTaken(s: State, r: State, u: ThreadId)
    requires |r.mutexes| == |s.mutexes| && u < |s.threads| && s.TakenKnown(u)
  {
    r.exact == s.exact &&
    forall i :: 0 <= i < |s.threads[u].taken| ==>
      var m := s.threads[u].taken[i];
      r.mutexes[m].priority == s.mutexes[m].priority && r.mutexes[m].ceiling == s.mutexes[m].ceiling
  }

  /** The list of `m` has the same members with the same priorities in both states. */
  ghost predicate SameList(s: State, r: State, m: MutexId)
    requires m < |s.mutexes| && m < |r.mutexes|
  {
    && r.mutexes[m].priority == s.mutexes[m].priority
    && r.mutexes[m].waiters == s.mutexes[m].waiters
    && forall i :: 0 <= i < |s.mutexes[m].waiters| ==>
         r.Current(s.mutexes[m].waiters[i]) == s.Current(s.mutexes[m].waiters[i])
  }

  lemma {:induction false} Untouched(s: State, r: State, changed: set<ThreadId>)
    requires s.Linked() && s.Queued() && r.Linked()
    requires |r.threads| == |s.threads| && |r.mutexes| == |s.mutexes|
    requires forall u: ThreadId :: u < |r.threads| && u !in changed ==> r.threads[u] == s.threads[u]
    ensures forall u: ThreadId :: u < |r.threads| && u !in changed ==>
      s.ThreadLinked(u) && r.ThreadLinked(u) && (s.Bounded(u) && SameTaken(s, r, u) ==> r.Bounded(u))
    ensures forall m: MutexId :: m < |r.mutexes| && SameList(s, r, m) ==> r.QueuedAt(m)
  {
    forall u: ThreadId | u < |r.threads| && u !in changed
      ensures s.ThreadLinked(u) && r.ThreadLinked(u) && (s.Bounded(u) && SameTaken(s, r, u) ==> r.Bounded(u))
    {
      assert s.ThreadLinked(u) && r.ThreadLinked(u);
      if SameTaken(s, r, u) {
        SameTakenSameBounds(s, r, u);
      }
    }
    forall m: MutexId | m < |r.mutexes| && SameList(s, r, m) ensures r.QueuedAt(m) {
      assert s.QueuedAt(m);
    }
  }

  lemma {:induction false} HoldKeepsValid(s: State, m: MutexId, hold: nat)
    requires s.Valid() && m < |s.mutexes| && s.mutexes[m].owner.Some? && 0 < hold <= HOLD_MAX
    ensures s.(mutexes := s.mutexes[m := s.mutexes[m].(hold := hold)]).Valid()
  {
    var r := s.(mutexes := s.mutexes[m := s.mutexes[m].(hold := hold)]);
    forall u: ThreadId | u < |r.threads| ensures r.ThreadLinked(u) {
      assert s.ThreadLinked(u);
    }
    forall n: MutexId | n < |r.mutexes| ensures r.MutexLinked(n) {
      assert s.MutexLinked(n);
    }
    Untouched(s, r, {});
  }

  /** `self` becomes the owner of the free mutex `m` and rises to its ceiling. */
  function Acquire(s: State, self: ThreadId, m: MutexId): State
    requires self < |s.threads| && m < |s.mutexes|
  {
    var thread, mutex := s.threads[self], s.mutexes[m];
    var p := if mutex.ceiling < thread.currentPriority then mutex.ceiling else thread.currentPriority;
    State(s.threads[self := thread.(currentPriority := p, taken := [m] + thread.taken)],
          s.mutexes[m := mutex.(owner := Some(self), priority := LOWEST, hold := 1)], s.exact)
  }

  lemma {:induction false} AcquireKeepsLinked(s: State, self: ThreadId, m: MutexId)
    requires s.Linked() && self < |s.threads| && m < |s.mutexes|
    requires s.threads[self].stat == Live && s.mutexes[m].owner.None?
    ensures Acquire(s, self, m).Linked()
  {
    var r := Acquire(s, self, m);
    assert s.MutexLinked(m) && s.ThreadLinked(self);
    forall u: ThreadId | u < |r.threads| ensures r.ThreadLinked(u) {
      assert s.ThreadLinked(u);
      assert m !in s.threads[u].taken;
    }
    forall n: MutexId | n < |r.mutexes| ensures r.MutexLinked(n) {
      assert s.MutexLinked(n);
      assert r.threads[self].taken[0] == m;
      if n != m && s.mutexes[n].owner == Some(self) {
        var i :| 0 <= i < |s.threads[self].taken| && s.threads[self].taken[i] == n;
        assert r.threads[self].taken[i + 1] == n;
      }
    }
  }

  lemma {:induction false} AcquireBounded(s: State, self: ThreadId, m: MutexId)
    requires self < |s.threads| && m < |s.mutexes|
    requires s.TakenKnown(self) && s.Bounded(self) && m !in s.threads[self].taken
    ensures var r := Acquire(s, self, m); r.TakenKnown(self) && r.Bounded(self)
  {
    var r := Acquire(s, self, m);
    assert m in r.threads[self].taken by {
      assert r.threads[self].taken[0] == m;
    }
    assert r.mutexes[m].Effective() == s.mutexes[m].ceiling;
    if r.Current(self) == s.Current(self) && s.Current(self) < s.threads[self].initPriority {
      var n :| n in s.threads[self].taken && s.Current(self) >= s.mutexes[n].Effective();
      assert n in r.threads[self].taken && r.mutexes[n] == s.mutexes[n];
    }
  }

  lemma {:induction false} AcquireKeepsValid(s: State, self: ThreadId, m: MutexId)
    requires s.Valid() && self < |s.threads| && m < |s.mutexes|
    requires s.threads[self].stat == Live && s.mutexes[m].owner.None?
    ensures Acquire(s, self, m).Valid()
  {
    var r := Acquire(s, self, m);
    AcquireKeepsLinked(s, self, m);
    Untouched(s, r, {self});
    forall n: MutexId | n < |r.mutexes| ensures r.QueuedAt(n) {
      assert s.MutexLinked(n);
      assert forall i :: 0 <= i < |s.mutexes[n].waiters| ==> s.mutexes[n].waiters[i] in s.mutexes[n].waiters;
      assert n != m ==> SameList(s, r, n);
    }
    forall u: ThreadId | u < |r.threads| ensures r.ThreadLinked(u) && r.Bounded(u) {
      assert s.ThreadLinked(u) && s.MutexLinked(m) && s.Bounded(u);
      if u == self {
        AcquireBounded(s, self, m);
      } else {
        assert SameTaken(s, r, u);
      }
    }
  }

  /** `self` queues up behind the owner of `m`. */
  function Enqueue(s: State, self: ThreadId, m: MutexId, n: nat): State
    requires self < |s.threads| && m < |s.mutexes| && n <= |s.mutexes[m].waiters|
  {
    var thread, mutex := s.threads[self], s.mutexes[m];
    var p := if thread.currentPriority < mutex.priority then thread.currentPriority else mutex.priority;
    State(s.threads[self := thread.(stat := Suspended, pending := Some(m))],
          s.mutexes[m := mutex.(waiters := Insert(mutex.waiters, n, self), priority := p)], s.exact)
  }

  lemma {:induction false} EnqueueKeepsLinked(s: State, self: ThreadId, m: MutexId, n: nat)
    requires s.Linked() && self < |s.threads| && m < |s.mutexes| && s.threads[self].stat == Live
    requires s.mutexes[m].owner.Some? && s.mutexes[m].owner != Some(self)
    requires n <= |s.mutexes[m].waiters|
    ensures Enqueue(s, self, m, n).Linked()
  {
    var r := Enqueue(s, self, m, n);
    assert s.MutexLinked(m) && s.ThreadLinked(self);
    InsertMembers(s.mutexes[m].waiters, n, self);
    forall u: ThreadId | u < |r.threads| ensures r.ThreadLinked(u) {
      assert s.ThreadLinked(u);
    }
    forall i: MutexId | i < |r.mutexes| ensures r.MutexLinked(i) {
      assert s.MutexLinked(i);
    }
  }

  lemma {:induction false} EnqueueQueued(s: State, self: ThreadId, m: MutexId, n: nat)
    requires s.Linked() && s.Queued() && self < |s.threads| && m < |s.mutexes|
    requires n <= |s.mutexes[m].waiters| && s.Sorted(Insert(s.mutexes[m].waiters, n, self))
    ensures Enqueue(s, self, m, n).Queued()
  {
    var r := Enqueue(s, self, m, n);
    SameCurrents(s, r);
    FrontAfterInsert(s, s.mutexes[m].waiters, n, self);
    forall i: MutexId | i < |r.mutexes| ensures r.QueuedAt(i) {
      assert s.QueuedAt(i) && s.QueuedAt(m);
      assert s.Sorted(r.mutexes[i].waiters);
    }
  }

  lemma {:induction false} SameCurrents(s: State, r: State)
    requires |s.threads| == |r.threads|
    requires forall t: ThreadId :: t < |s.threads| ==> r.threads[t].currentPriority == s.threads[t].currentPriority
    ensures forall w :: s.Sorted(w) ==> r.Sorted(w)
    ensures forall w :: s.Front(w) == r.Front(w)
  {
    assert forall t: ThreadId :: s.Current(t) == r.Current(t);
  }

  lemma {:induction false} FrontAfterInsert(s: State, waiters: seq<ThreadId>, n: nat, t: ThreadId)
    requires n <= |waiters| && s.Sorted(Insert(waiters, n, t))
    ensures s.Front(Insert(waiters, n, t)) == if s.Current(t) < s.Front(waiters) then s.Current(t) else s.Front(waiters)
  {
    var r := Insert(waiters, n, t);
    assert n == 0 && waiters != [] ==> r[1] == waiters[0];
    assert n > 0 ==> r[0] == waiters[0] && r[n] == t;
  }

  /** Queueing up leaves at most the owner off, and then the newcomer's priority is right for it. */
  lemma {:induction false} EnqueueStep(s: State, self: ThreadId, m: MutexId, n: nat)
    requires s.Valid() && self < |s.threads| && m < |s.mutexes| && s.threads[self].stat == Live
    requires s.mutexes[m].owner.Some? && s.mutexes[m].owner != Some(self)
    requires n <= |s.mutexes[m].waiters| && s.Sorted(Insert(s.mutexes[m].waiters, n, self))
    ensures var r, o, p := Enqueue(s, self, m, n), s.mutexes[m].owner.value, s.Current(self);
            && r.Linked() && o < |r.threads| && r.ThreadLinked(o) && r.ValidExcept(o)
            && (if p < s.mutexes[m].priority && p < s.Current(o) then r.AtLeastLow(o, p) && r.AtMostHigh(o, p)
                else r.Valid())
  {
    hide State.AtLeastLow, State.AtMostHigh;
    var r, o, p := Enqueue(s, self, m, n), s.mutexes[m].owner.value, s.Current(self);
    EnqueueKeepsLinked(s, self, m, n);
    EnqueueQueued(s, self, m, n);
    assert s.MutexLinked(m) && s.ThreadLinked(o) && r.ThreadLinked(o) && s.Bounded(o);
    forall u: ThreadId | u < |r.threads| && u != o ensures r.ThreadLinked(u) && r.Bounded(u) {
      assert s.ThreadLinked(u) && s.Bounded(u) && r.ThreadLinked(u);
      SameTakenSameBounds(s, r, u);
    }
    EnqueueOwner(s, self, m, n, o);
  }

  /** The owner fits the newcomer or needs its priority. */
  lemma {:induction false} EnqueueOwner(s: State, self: ThreadId, m: MutexId, n: nat, o: ThreadId)
    requires self < |s.threads| && m < |s.mutexes| && n <= |s.mutexes[m].waiters|
    requires o < |s.threads| && o != self && s.TakenKnown(o) && s.Bounded(o) && m in s.threads[o].taken
    ensures var r, p := Enqueue(s, self, m, n), s.Current(self);
            && r.TakenKnown(o)
            && (if p < s.mutexes[m].priority && p < s.Current(o) then r.AtLeastLow(o, p) && r.AtMostHigh(o, p)
                else r.Bounded(o))
  {
    var r, p := Enqueue(s, self, m, n), s.Current(self);
    if p < s.mutexes[m].priority && p < s.Current(o) {
      assert m in r.threads[o].taken && p >= r.mutexes[m].Effective();
    } else if s.Current(o) < s.threads[o].initPriority {
      var i :| i in s.threads[o].taken && s.Current(o) >= s.mutexes[i].Effective();
      assert s.Current(o) >= r.mutexes[i].Effective();
    }
  }

  lemma {:induction false} BlockFacts(s: State, self: ThreadId, m: MutexId)
    requires s.Valid() && self < |s.threads| && m < |s.mutexes| && s.threads[self].stat == Live
    ensures forall j :: 0 <= j < |s.mutexes[m].waiters| ==> s.mutexes[m].waiters[j] < |s.threads|
    ensures s.Sorted(s.mutexes[m].waiters)
    ensures s.mutexes[m].owner.Some? ==> s.mutexes[m].owner.value < |s.threads|
  {
    assert s.MutexLinked(m) && s.QueuedAt(m);
    assert forall j :: 0 <= j < |s.mutexes[m].waiters| ==> s.mutexes[m].waiters[j] in s.mutexes[m].waiters;
  }

  /** The owner of a mutex does not wait for it. */
  lemma {:induction false} FirstWaiterApart(s: State, self: ThreadId, m: MutexId)
    requires s.Valid() && m < |s.mutexes| && s.mutexes[m].owner == Some(self)
    ensures s.mutexes[m].waiters != [] ==> s.mutexes[m].waiters[0] != self
  {
    assert s.MutexLinked(m);
    assert s.mutexes[m].waiters != [] ==> s.mutexes[m].waiters[0] in s.mutexes[m].waiters;
  }

  lemma {:induction false} LiveIsFree(s: State, t: ThreadId)
    requires s.Valid() && t < |s.threads| && s.threads[t].stat == Live
    ensures s.threads[t].pending == None
  {
    assert s.ThreadLinked(t);
  }

  lemma {:induction false} HeldFacts(s: State, self: ThreadId, m: MutexId)
    requires s.Valid() && self < |s.threads| && m < |s.mutexes| && s.mutexes[m].owner == Some(self)
    ensures 0 < s.mutexes[m].hold <= HOLD_MAX && m in s.threads[self].taken
    ensures NoDuplicates(s.threads[self].taken) && s.TakenKnown(self)
  {
    assert s.MutexLinked(m) && s.ThreadLinked(self);
  }

  // ---------- release ----------

  /** `self` no longer holds the mutex at position `k` of its list. */
  function GiveUp(s: State, self: ThreadId, k: nat, p: Priority): State
    requires self < |s.threads| && k < |s.threads[self].taken|
  {
    var thread := s.threads[self];
    s.(threads := s.threads[self := thread.(taken := Delete(thread.taken, k), currentPriority := p)])
  }

  /** ... and its mutex goes to the front waiter, or becomes free. */
  function PassOn(s: State, m: MutexId): State
    requires m < |s.mutexes|
    requires s.mutexes[m].waiters != [] ==> s.mutexes[m].waiters[0] < |s.threads|
  {
    var mutex := s.mutexes[m];
    if mutex.waiters == [] then
      s.(mutexes := s.mutexes[m := mutex.(owner := None, priority := LOWEST, hold := 0)])
    else
      var next, rest := mutex.waiters[0], mutex.waiters[1..];
      State(s.threads[next := s.threads[next].(taken := [m] + s.threads[next].taken, pending := None, stat := Live)],
            s.mutexes[m := mutex.(owner := Some(next), hold := 1, waiters := rest, priority := s.Front(rest))],
            s.exact && s.Current(next) <= mutex.ceiling)
  }

  lemma {:induction false} PassOnLinked(s: State, self: ThreadId, m: MutexId, k: nat, p: Priority)
    requires s.Linked() && self < |s.threads| && m < |s.mutexes| && s.threads[self].stat == Live
    requires k < |s.threads[self].taken| && s.threads[self].taken[k] == m
    requires s.mutexes[m].waiters != [] ==> s.mutexes[m].waiters[0] < |s.threads|
    ensures PassOn(GiveUp(s, self, k, p), m).Linked()
  {
    var r := PassOn(GiveUp(s, self, k, p), m);
    assert s.ThreadLinked(self) && s.MutexLinked(m);
    DeleteMembers(s.threads[self].taken, k);
    var w := s.mutexes[m].waiters;
    assert w != [] ==> w[0] in w;
    forall u: ThreadId | u < |r.threads| ensures r.ThreadLinked(u) {
      assert s.ThreadLinked(u);
      PassOnThread(s, self, m, k, p, u);
    }
    forall n: MutexId | n < |r.mutexes| ensures r.MutexLinked(n) {
      assert s.MutexLinked(n);
      PassOnMutex(s, self, m, k, p, n);
    }
  }

  lemma {:induction false} PassOnThread(s: State, self: ThreadId, m: MutexId, k: nat, p: Priority, u: ThreadId)
    requires s.Linked() && self < |s.threads| && m < |s.mutexes| && s.threads[self].stat == Live
    requires k < |s.threads[self].taken| && s.threads[self].taken[k] == m
    requires s.mutexes[m].waiters != [] ==> s.mutexes[m].waiters[0] < |s.threads|
    requires u < |s.threads|
    ensures PassOn(GiveUp(s, self, k, p), m).ThreadLinked(u)
  {
    var r := PassOn(GiveUp(s, self, k, p), m);
    assert s.ThreadLinked(self) && s.MutexLinked(m) && s.ThreadLinked(u);
    DeleteMembers(s.threads[self].taken, k);
    var w := s.mutexes[m].waiters;
    if w != [] {
      assert w[0] in w;
      if u != w[0] && u in w {
        var i :| 0 <= i < |w| && w[i] == u;
        assert w[1..][i - 1] == u;
      }
    }
    if u == self {
      assert r.threads[u].taken == Delete(s.threads[u].taken, k);
      forall i | 0 <= i < |r.threads[u].taken|
        ensures r.threads[u].taken[i] < |r.mutexes| && r.mutexes[r.threads[u].taken[i]].owner == Some(u)
      {
        assert r.threads[u].taken[i] in s.threads[u].taken && r.threads[u].taken[i] != m;
      }
    } else {
      assert m !in s.threads[u].taken;
    }
  }

  lemma {:induction false} PassOnMutex(s: State, self: ThreadId, m: MutexId, k: nat, p: Priority, n: MutexId)
    requires s.Linked() && self < |s.threads| && m < |s.mutexes| && s.threads[self].stat == Live
    requires k < |s.threads[self].taken| && s.threads[self].taken[k] == m
    requires s.mutexes[m].waiters != [] ==> s.mutexes[m].waiters[0] < |s.threads|
    requires n < |s.mutexes|
    ensures PassOn(GiveUp(s, self, k, p), m).MutexLinked(n)
  {
    var r := PassOn(GiveUp(s, self, k, p), m);
    assert s.ThreadLinked(self) && s.MutexLinked(m) && s.MutexLinked(n);
    DeleteMembers(s.threads[self].taken, k);
    var w := s.mutexes[m].waiters;
    if w != [] {
      var next := w[0];
      assert next in w && s.ThreadLinked(next);
      assert r.threads[next].taken[0] == m;
      if n != m {
        assert next !in s.mutexes[n].waiters;
        if s.mutexes[n].owner == Some(next) {
          var i :| 0 <= i < |s.threads[next].taken| && s.threads[next].taken[i] == n;
          assert r.threads[next].taken[i + 1] == n;
        }
      } else {
        assert forall u <- w[1..] :: u in w && u != next;
      }
    }
  }

  lemma {:induction false} PassOnQueued(s: State, self: ThreadId, m: MutexId, k: nat, p: Priority)
    requires s.Linked() && s.Queued() && self < |s.threads| && m < |s.mutexes| && s.threads[self].stat == Live
    requires k < |s.threads[self].taken|
    requires s.mutexes[m].waiters != [] ==> s.mutexes[m].waiters[0] < |s.threads|
    ensures PassOn(GiveUp(s, self, k, p), m).Queued()
  {
    hide State.Linked;
    var r := PassOn(GiveUp(s, self, k, p), m);
    forall n: MutexId | n < |r.mutexes| ensures r.QueuedAt(n) {
      assert s.QueuedAt(n);
      SelfNotWaiting(s, self, n);
      SelfNotWaiting(s, self, m);
      PassOnCurrents(s, self, m, k, p);
    }
  }

  lemma {:induction false} SelfNotWaiting(s: State, self: ThreadId, n: MutexId)
    requires s.Linked() && self < |s.threads| && n < |s.mutexes| && s.threads[self].stat == Live
    ensures forall i :: 0 <= i < |s.mutexes[n].waiters| ==> s.mutexes[n].waiters[i] != self
  {
    assert s.MutexLinked(n);
    assert forall i :: 0 <= i < |s.mutexes[n].waiters| ==> s.mutexes[n].waiters[i] in s.mutexes[n].waiters;
  }

  lemma {:induction false} PassOnCurrents(s: State, self: ThreadId, m: MutexId, k: nat, p: Priority)
    requires self < |s.threads| && m < |s.mutexes| && k < |s.threads[self].taken|
    requires s.mutexes[m].waiters != [] ==> s.mutexes[m].waiters[0] < |s.threads|
    ensures forall u: ThreadId :: u != self ==> PassOn(GiveUp(s, self, k, p), m).Current(u) == s.Current(u)
  {
  }

  /** A release keeps both bounds when the releasing thread's new priority is within its own. */
  lemma {:induction false} PassOnValid(s: State, self: ThreadId, m: MutexId, k: nat, p: Priority)
    requires s.Valid() && self < |s.threads| && m < |s.mutexes| && s.threads[self].stat == Live
    requires k < |s.threads[self].taken| && s.threads[self].taken[k] == m
    requires var g := GiveUp(s, self, k, p); g.TakenKnown(self) && g.AtLeastLow(self, p) && g.AtMostHigh(self, p)
    requires s.mutexes[m].waiters != [] ==> s.mutexes[m].waiters[0] < |s.threads|
    ensures PassOn(GiveUp(s, self, k, p), m).Valid()
  {
    var r := PassOn(GiveUp(s, self, k, p), m);
    PassOnLinked(s, self, m, k, p);
    PassOnQueued(s, self, m, k, p);
    forall u: ThreadId | u < |r.threads| ensures r.ThreadLinked(u) && r.Bounded(u) {
      assert r.ThreadLinked(u);
      PassOnBounded(s, self, m, k, p, u);
    }
  }

  lemma {:induction false} PassOnBounded(s: State, self: ThreadId, m: MutexId, k: nat, p: Priority, u: ThreadId)
    requires s.Valid() && self < |s.threads| && m < |s.mutexes| && s.threads[self].stat == Live
    requires k < |s.threads[self].taken| && s.threads[self].taken[k] == m
    requires var g := GiveUp(s, self, k, p); g.TakenKnown(self) && g.AtLeastLow(self, p) && g.AtMostHigh(self, p)
    requires s.mutexes[m].waiters != [] ==> s.mutexes[m].waiters[0] < |s.threads|
    requires u < |s.threads| && PassOn(GiveUp(s, self, k, p), m).ThreadLinked(u)
    ensures PassOn(GiveUp(s, self, k, p), m).Bounded(u)
  {
    var g := GiveUp(s, self, k, p);
    var r := PassOn(g, m);
    var w := s.mutexes[m].waiters;
    assert s.ThreadLinked(self) && s.MutexLinked(m) && s.QueuedAt(m) && s.ThreadLinked(u) && s.Bounded(u);
    if u == self {
      DeleteMembers(s.threads[self].taken, k);
      assert w != [] ==> w[0] in w;
      assert m !in g.threads[self].taken;
      SameTakenSameBounds(g, r, self);
    } else if w != [] && u == w[0] {
      PassOnNext(s, g, r, m);
    } else {
      assert m !in s.threads[u].taken;
      SameTakenSameBounds(s, r, u);
    }
  }

  /** The new owner was the most urgent waiter, so the rest cannot raise it. */
  lemma {:induction false} PassOnNext(s: State, g: State, r: State, m: MutexId)
    requires s.Linked() && m < |s.mutexes| && s.QueuedAt(m) && s.mutexes[m].waiters != []
    requires s.mutexes[m].waiters[0] < |s.threads|
    requires |g.threads| == |s.threads| && g.mutexes == s.mutexes && g.exact == s.exact && r == PassOn(g, m)
    requires forall u <- s.mutexes[m].waiters :: u < |s.threads| && g.threads[u] == s.threads[u]
    requires s.TakenKnown(s.mutexes[m].waiters[0]) && s.Bounded(s.mutexes[m].waiters[0])
    ensures r.TakenKnown(s.mutexes[m].waiters[0]) && r.Bounded(s.mutexes[m].waiters[0])
  {
    var w := s.mutexes[m].waiters;
    var next := w[0];
    assert next in w && s.ThreadLinked(next) && s.MutexLinked(m);
    assert m !in s.threads[next].taken;
    assert |w| > 1 ==> w[1] in w && w[1..][0] == w[1] && s.Current(next) <= s.Current(w[1]);
    if s.Current(next) < s.threads[next].initPriority {
      var n :| n in s.threads[next].taken && s.Current(next) >= s.mutexes[n].Effective();
      assert n in r.threads[next].taken && r.mutexes[n] == s.mutexes[n];
    }
  }

  /** When release does not recompute the priority, the old one still fits what is left. */
  lemma {:induction false} NoRecomputeNeeded(s: State, self: ThreadId, m: MutexId, k: nat)
    requires s.Valid() && self < |s.threads| && m < |s.mutexes|
    requires k < |s.threads[self].taken| && s.threads[self].taken[k] == m
    requires s.mutexes[m].ceiling == LOWEST && s.Current(self) != s.mutexes[m].priority
    ensures var g := GiveUp(s, self, k, s.Current(self));
            g.TakenKnown(self) && g.AtLeastLow(self, s.Current(self)) && g.AtMostHigh(self, s.Current(self))
  {
    assert s.ThreadLinked(self) && s.Bounded(self);
    DeleteMembers(s.threads[self].taken, k);
    var g := GiveUp(s, self, k, s.Current(self));
    assert forall i :: 0 <= i < |g.threads[self].taken| ==> g.threads[self].taken[i] in s.threads[self].taken;
    if s.Current(self) < s.threads[self].initPriority {
      var n :| n in s.threads[self].taken && s.Current(self) >= s.mutexes[n].Effective();
      assert s.Current(self) <= s.mutexes[m].priority;
      assert n in g.threads[self].taken;
    }
  }

  lemma {:induction false} GiveUpKnown(s: State, self: ThreadId, k: nat)
    requires self < |s.threads| && k < |s.threads[self].taken| && s.TakenKnown(self)
    ensures forall p :: GiveUp(s, self, k, p).TakenKnown(self)
  {
  }

  lemma {:induction false} RecomputeFits(s: State, self: ThreadId, k: nat, p: Priority)
    requires self < |s.threads| && k < |s.threads[self].taken| && s.TakenKnown(self)
    requires var g := GiveUp(s, self, k, s.Current(self));
             && g.TakenKnown(self) && g.AtLeastLow(self, p) && p <= g.threads[self].initPriority
             && forall m <- g.threads[self].taken :: p <= g.mutexes[m].Effective()
    ensures var r := GiveUp(s, self, k, p);
            r.TakenKnown(self) && r.AtLeastLow(self, p) && r.AtMostHigh(self, p)
  {
    SameTakenSameBounds(GiveUp(s, self, k, s.Current(self)), GiveUp(s, self, k, p), self);
  }

  // ---------- ceilings and dropped waiters ----------

  lemma {:induction false} CeilingStep(s: State, m: MutexId, ceiling: Priority)
    requires s.Valid() && m < |s.mutexes|
    ensures var r := s.(mutexes := s.mutexes[m := s.mutexes[m].(ceiling := ceiling)]);
            && r.Linked() && r.Queued()
            && (match s.mutexes[m].owner
                case None => r.Valid()
                case Some(o) =>
                  o < |r.threads| && r.ThreadLinked(o) && r.ValidExcept(o))
  {
    var r := s.(mutexes := s.mutexes[m := s.mutexes[m].(ceiling := ceiling)]);
    assert s.MutexLinked(m);
    forall u: ThreadId | u < |r.threads| ensures r.ThreadLinked(u) {
      assert s.ThreadLinked(u);
    }
    forall n: MutexId | n < |r.mutexes| ensures r.MutexLinked(n) && r.QueuedAt(n) {
      assert s.MutexLinked(n) && s.QueuedAt(n);
    }
    forall u: ThreadId | u < |r.threads| ensures r.ThreadLinked(u) && (s.mutexes[m].owner != Some(u) ==> r.Bounded(u)) {
      assert s.ThreadLinked(u) && s.Bounded(u) && r.ThreadLinked(u);
      if s.mutexes[m].owner != Some(u) {
        assert m !in s.threads[u].taken;
        SameTakenSameBounds(s, r, u);
      }
    }
    if s.mutexes[m].owner.Some? {
      assert s.ThreadLinked(s.mutexes[m].owner.value) && s.Bounded(s.mutexes[m].owner.value);
    }
  }

  /** `t` is closed and unlinked from `m`, whose priority may still be the one of `t`. */
  ghost predicate Dropping(s: State, m: MutexId, t: ThreadId) {
    && s.Linked() && m < |s.mutexes| && t < |s.threads|
    && s.threads[t].stat == Closed && s.threads[t].pending == Some(m) && s.mutexes[m].owner.Some?
    && (forall n: MutexId :: n < |s.mutexes| && n != m ==> s.QueuedAt(n))
    && s.Sorted(s.mutexes[m].waiters)
    && s.mutexes[m].priority <= s.Front(s.mutexes[m].waiters)
    && (s.mutexes[m].priority == s.Front(s.mutexes[m].waiters) || s.mutexes[m].priority == s.Current(t))
    && (forall u: ThreadId :: u < |s.threads| ==> s.ThreadLinked(u) && s.Bounded(u))
  }

  /** `t` is closed and taken out of the list of the mutex it waits for. */
  function Leave(s: State, t: ThreadId, m: MutexId, k: nat): State
    requires t < |s.threads| && m < |s.mutexes| && k < |s.mutexes[m].waiters|
  {
    State(s.threads[t := s.threads[t].(stat := Closed)],
          s.mutexes[m := s.mutexes[m].(waiters := Delete(s.mutexes[m].waiters, k))], s.exact)
  }

  lemma {:induction false} LeaveKeepsLinked(s: State, t: ThreadId, m: MutexId, k: nat)
    requires s.Linked() && t < |s.threads| && s.Waits(t) && s.threads[t].pending == Some(m)
    requires m < |s.mutexes| && k < |s.mutexes[m].waiters| && s.mutexes[m].waiters[k] == t
    ensures Leave(s, t, m, k).Linked()
  {
    var r := Leave(s, t, m, k);
    assert s.MutexLinked(m);
    DeleteMembers(s.mutexes[m].waiters, k);
    forall u: ThreadId | u < |r.threads| ensures r.ThreadLinked(u) {
      assert s.ThreadLinked(u);
    }
    forall n: MutexId | n < |r.mutexes| ensures r.MutexLinked(n) {
      assert s.MutexLinked(n);
    }
  }

  lemma {:induction false} LeaveQueued(s: State, t: ThreadId, m: MutexId, k: nat)
    requires s.Linked() && s.Queued() && t < |s.threads|
    requires m < |s.mutexes| && k < |s.mutexes[m].waiters| && s.mutexes[m].waiters[k] == t
    ensures s.mutexes[m].owner.Some?
    ensures var r := Leave(s, t, m, k);
            && (forall n: MutexId :: n < |r.mutexes| && n != m ==> r.QueuedAt(n))
            && r.Sorted(r.mutexes[m].waiters)
  {
    var r := Leave(s, t, m, k);
    assert s.QueuedAt(m) && s.MutexLinked(m);
    forall n: MutexId | n < |r.mutexes| && n != m ensures r.QueuedAt(n) {
      assert s.QueuedAt(n);
    }
  }

  lemma {:induction false} LeaveBounded(s: State, t: ThreadId, m: MutexId, k: nat)
    requires s.Valid() && t < |s.threads| && m < |s.mutexes| && k < |s.mutexes[m].waiters|
    requires Leave(s, t, m, k).Linked()
    ensures var r := Leave(s, t, m, k);
            forall u: ThreadId :: u < |r.threads| ==> r.ThreadLinked(u) && r.Bounded(u)
  {
    var r := Leave(s, t, m, k);
    forall u: ThreadId | u < |r.threads| ensures r.ThreadLinked(u) && r.Bounded(u) {
      assert s.ThreadLinked(u) && s.Bounded(u) && r.ThreadLinked(u);
      SameTakenSameBounds(s, r, u);
    }
  }

  lemma {:induction false} LeaveStep(s: State, t: ThreadId, m: MutexId, k: nat)
    requires s.Valid() && t < |s.threads| && s.Waits(t) && s.threads[t].pending == Some(m)
    requires m < |s.mutexes| && k < |s.mutexes[m].waiters| && s.mutexes[m].waiters[k] == t
    ensures Dropping(Leave(s, t, m, k), m, t)
  {
    var w := s.mutexes[m].waiters;
    var r := Leave(s, t, m, k);
    LeaveKeepsLinked(s, t, m, k);
    LeaveQueued(s, t, m, k);
    LeaveBounded(s, t, m, k);
    assert s.QueuedAt(m);
    assert k > 0 ==> Delete(w, k)[0] == w[0];
    assert k == 0 && |w| > 1 ==> Delete(w, k)[0] == w[1];
  }

  /** Only a thread as urgent as the owner can have determined the owner's priority. */
  lemma {:induction false} DropStep(s: State, m: MutexId, t: ThreadId)
    requires Dropping(s, m, t)
    ensures var r, o := s.SetWaiters(m, s.mutexes[m].waiters), s.mutexes[m].owner.value;
            && r.Linked() && r.Queued() && o < |r.threads| && r.ThreadLinked(o) && r.ValidExcept(o)
            && (s.Current(o) != s.Current(t) ==> r.Valid())
  {
    hide State.AtLeastLow, State.AtMostHigh;
    var r, o := s.SetWaiters(m, s.mutexes[m].waiters), s.mutexes[m].owner.value;
    assert s.MutexLinked(m) && s.ThreadLinked(o) && s.Bounded(o);
    if s.Current(o) != s.Current(t) { DropOwner(s, m, t, o); }
    RelinkKeepsLinked(s, m, s.mutexes[m].waiters);
    forall n: MutexId | n < |r.mutexes| ensures r.QueuedAt(n) {
      if n != m { assert s.QueuedAt(n); }
    }
    forall u: ThreadId | u < |r.threads| && u != o ensures r.ThreadLinked(u) && r.Bounded(u) {
      assert s.ThreadLinked(u) && s.Bounded(u) && r.ThreadLinked(u);
      assert m !in s.threads[u].taken;
      SameTakenSameBounds(s, r, u);
    }
    assert r.ThreadLinked(o);
  }

  lemma {:induction false} DropOwner(s: State, m: MutexId, t: ThreadId, o: ThreadId)
    requires m < |s.mutexes| && o < |s.threads| && s.TakenKnown(o) && s.Bounded(o) && m in s.threads[o].taken
    requires s.mutexes[m].priority <= s.Front(s.mutexes[m].waiters)
    requires s.mutexes[m].priority == s.Front(s.mutexes[m].waiters) || s.mutexes[m].priority == s.Current(t)
    requires s.Current(o) != s.Current(t)
    ensures var r := s.SetWaiters(m, s.mutexes[m].waiters); r.TakenKnown(o) && r.Bounded(o)
  {
    var r := s.SetWaiters(m, s.mutexes[m].waiters);
    if s.Current(o) < s.threads[o].initPriority {
      var n :| n in s.threads[o].taken && s.Current(o) >= s.mutexes[n].Effective();
      assert s.Current(o) <= s.mutexes[m].priority;
      assert s.Current(o) >= r.mutexes[n].Effective();
    }
  }

  function Suspend(s: State, self: ThreadId, pending: Option<MutexId>): State
    requires self < |s.threads|
  {
    s.(threads := s.threads[self := s.threads[self].(stat := Suspended, pending := pending)])
  }

  lemma {:induction false} EnqueueGraph(s: State, self: ThreadId, m: MutexId, n: nat)
    requires self < |s.threads| && m < |s.mutexes| && n <= |s.mutexes[m].waiters|
    ensures Graph(Enqueue(s, self, m, n)) == Graph(Suspend(s, self, Some(m)))
  {
  }

  /** What a release does apart from priorities: nested holds count down, the last one
    * hands the mutex to the front waiter. */
  ghost function AfterRelease(s: State, self: ThreadId, m: MutexId): State
    requires self < |s.threads| && m < |s.mutexes|
  {
    var mutex := s.mutexes[m];
    if mutex.owner != Some(self) || mutex.hold == 0 then s
    else if mutex.hold > 1 then s.(mutexes := s.mutexes[m := mutex.(hold := mutex.hold - 1)])
    else if mutex.waiters != [] && mutex.waiters[0] >= |s.threads| then s
    else
      var thread := s.threads[self];
      PassOn(s.(threads := s.threads[self := thread.(taken := Without(thread.taken, m))]), m)
  }

  /** The release hands `m` to a thread that is less urgent than the ceiling of `m`. */
  ghost predicate Forgets(s: State, self: ThreadId, m: MutexId)
    requires m < |s.mutexes|
  {
    var mutex := s.mutexes[m];
    && mutex.owner == Some(self) && mutex.hold == 1
    && mutex.waiters != [] && s.Current(mutex.waiters[0]) > mutex.ceiling
  }

  lemma {:induction false} PassOnGraph(s: State, self: ThreadId, m: MutexId, k: nat, p: Priority)
    requires self < |s.threads| && m < |s.mutexes| && s.mutexes[m].owner == Some(self) && s.mutexes[m].hold == 1
    requires k < |s.threads[self].taken| && Without(s.threads[self].taken, m) == Delete(s.threads[self].taken, k)
    requires s.mutexes[m].waiters != [] ==> s.mutexes[m].waiters[0] < |s.threads|
    ensures Graph(PassOn(GiveUp(s, self, k, p), m)) == Graph(AfterRelease(s, self, m))
  {
  }

  function WithCeiling(s: State, m: MutexId, ceiling: Priority): State
    requires m < |s.mutexes|
  {
    s.(mutexes := s.mutexes[m := s.mutexes[m].(ceiling := ceiling)])
  }

  function Close(s: State, t: ThreadId): State
    requires t < |s.threads|
  {
    if s.threads[t].stat == Closed then s
    else s.(threads := s.threads[t := s.threads[t].(stat := Closed, pending := None)])
  }

  lemma {:induction false} SameGraphBlock(s: State, r: State, t: ThreadId)
    requires Graph(s) == Graph(r) && t < |s.threads|
    ensures t < |r.threads|
    ensures r.threads[t].(currentPriority := LOWEST) == s.threads[t].(currentPriority := LOWEST)
    ensures Graph(ClearPending(s, t)) == Graph(ClearPending(r, t))
  {
    assert Graph(s).threads[t] == Graph(r).threads[t];
    assert Graph(ClearPending(s, t)).threads == Graph(s).threads[t := Graph(s).threads[t].(pending := None)];
    assert Graph(ClearPending(r, t)).threads == Graph(r).threads[t := Graph(r).threads[t].(pending := None)];
  }

  function ClearPending(s: State, t: ThreadId): State
    requires t < |s.threads|
  {
    s.(threads := s.threads[t := s.threads[t].(pending := None)])
  }

  lemma {:induction false} CloseGraph(s: State, t: ThreadId, m: MutexId, k: nat)
    requires t < |s.threads| && m < |s.mutexes| && k < |s.mutexes[m].waiters| && s.threads[t].stat != Closed
    ensures Graph(ClearPending(Leave(s, t, m, k), t)) == Graph(Close(s, t))
  {
    assert Leave(s, t, m, k).threads[t := Leave(s, t, m, k).threads[t].(pending := None)] == Close(s, t).threads;
  }

  /** A thread outside all wait lists may change its state freely, as long as it does not enter one. */
  lemma {:induction false} RestKeepsValid(s: State, t: ThreadId, stat: Stat, pending: Option<MutexId>)
    requires s.Valid() && t < |s.threads| && !s.Waits(t) && pending == None
    ensures s.(threads := s.threads[t := s.threads[t].(stat := stat, pending := pending)]).Valid()
  {
    var r := s.(threads := s.threads[t := s.threads[t].(stat := stat, pending := pending)]);
    forall u: ThreadId | u < |r.threads| ensures r.ThreadLinked(u) {
      assert s.ThreadLinked(u);
    }
    forall n: MutexId | n < |r.mutexes| ensures r.MutexLinked(n) && r.QueuedAt(n) {
      assert s.MutexLinked(n) && s.QueuedAt(n);
    }
    forall u: ThreadId | u < |r.threads| ensures r.ThreadLinked(u) && r.Bounded(u) {
      assert s.ThreadLinked(u) && s.Bounded(u) && r.ThreadLinked(u);
      SameTakenSameBounds(s, r, u);
    }
  }

  ghost predicate NoCeilings(s: State) {
    forall m: MutexId :: m < |s.mutexes| ==> s.mutexes[m].ceiling == LOWEST
  }

  lemma {:induction false} CeilingsInGraph(s: State)
    ensures NoCeilings(s) <==> NoCeilings(Graph(s))
  {
    assert forall m: MutexId :: m < |s.mutexes| ==> Graph(s).mutexes[m].ceiling == s.mutexes[m].ceiling;
  }

  lemma {:induction false} TakeKeepsCeilings(g: State, self: ThreadId, m: MutexId, wait: bool)
    requires self < |g.threads| && m < |g.mutexes|
    ensures NoCeilings(g) ==> NoCeilings(AfterTake(g, self, m, wait))
  {
  }

  lemma {:induction false} ReleaseKeepsCeilings(s: State, self: ThreadId, m: MutexId)
    requires self < |s.threads| && m < |s.mutexes|
    ensures NoCeilings(s) ==> NoCeilings(Graph(AfterRelease(s, self, m)))
  {
    CeilingsInGraph(AfterRelease(s, self, m));
  }

  lemma {:induction false} CloseKeepsCeilings(s: State, t: ThreadId)
    requires t < |s.threads|
    ensures NoCeilings(s) ==> NoCeilings(Graph(Close(s, t)))
  {
    CeilingsInGraph(Close(s, t));
  }

  datatype Call =
    | CallTake(self: ThreadId, m: MutexId, wait: bool)
    | CallRelease(self: ThreadId, m: MutexId)
    | CallCeiling(m: MutexId, ceiling: Priority)
    | CallDetach(t: ThreadId)
    | CallSleep(self: ThreadId)
    | CallWake(t: ThreadId)

  class Kernel {
    const priorityMax: nat
    var threads: seq<Thread>
    var mutexes: seq<Mutex>
    ghost var exact: bool

    /** One live thread per given priority, and `count` free mutexes without ceiling. */
    constructor (priorityMax: nat, priorities: seq<Priority>, count: nat)
      ensures St().Valid() && exact
      ensures this.priorityMax == priorityMax && |threads| == |priorities| && |mutexes| == count
      ensures forall t :: 0 <= t < |threads| ==> threads[t] == Thread(priorities[t], priorities[t], Live, [], None)
      ensures forall m :: 0 <= m < |mutexes| ==> mutexes[m] == Mutex(None, LOWEST, 0, LOWEST, [])
    {
      this.priorityMax := priorityMax;
      threads := seq(|priorities|, i requires 0 <= i < |priorities| => Thread(priorities[i], priorities[i], Live, [], None));
      mutexes := seq(count, i => Mutex(None, LOWEST, 0, LOWEST, []));
      exact := true;
    }

    ghost function St(): State
      reads this
    {
      State(threads, mutexes, exact)
    }

    /** The most urgent of the thread's own priority and what its mutexes contribute. */
    method ThreadGetMutexPriority(t: ThreadId) returns (priority: Priority)
      requires t < |threads| && St().TakenKnown(t)
      ensures St().AtLeastLow(t, priority)
      ensures priority <= threads[t].initPriority
      ensures forall m <- threads[t].taken :: priority <= mutexes[m].Effective()
    {
      var taken := threads[t].taken;
      priority := threads[t].initPriority;
      for i := 0 to |taken|
        invariant priority <= threads[t].initPriority
        invariant forall j :: 0 <= j < i ==> taken[j] < |mutexes| && priority <= mutexes[taken[j]].Effective()
        invariant St().AtLeastLow(t, priority)
      {
        var m := taken[i];
        var mutexPrio := if mutexes[m].priority < mutexes[m].ceiling then mutexes[m].priority else mutexes[m].ceiling;
        if priority > mutexPrio {
          priority := mutexPrio;
        }
      }
    }

    /** Position behind every waiter that is at least as urgent as `t`. */
    method FindPosition(waiters: seq<ThreadId>, t: ThreadId) returns (n: nat)
      requires t < |threads| && forall j :: 0 <= j < |waiters| ==> waiters[j] < |threads|
      requires St().Sorted(waiters)
      ensures n <= |waiters|
      ensures St().Sorted(Insert(waiters, n, t))
      ensures forall j :: 0 <= j < n ==> St().Current(waiters[j]) <= St().Current(t)
      ensures forall j :: n <= j < |waiters| ==> St().Current(t) < St().Current(waiters[j])
    {
      n := 0;
      while n < |waiters| && !(threads[t].currentPriority < threads[waiters[n]].currentPriority)
        invariant n <= |waiters|
        invariant forall j :: 0 <= j < n ==> St().Current(waiters[j]) <= St().Current(t)
      {
        n := n + 1;
      }
      forall j | n <= j < |waiters| ensures St().Current(t) < St().Current(waiters[j]) {
        assert St().Current(waiters[n]) <= St().Current(waiters[j]);
      }
      InsertSorted(St(), waiters, n, t);
    }

    /** Take `t` out of the wait list of `m`, insert it again, and recompute the priority of `m`. */
    method Requeue(m: MutexId, t: ThreadId)
      requires m < |mutexes| && t < |threads| && t in mutexes[m].waiters && NoDuplicates(mutexes[m].waiters)
      requires forall j :: 0 <= j < |mutexes[m].waiters| ==> mutexes[m].waiters[j] < |threads|
      requires forall k :: 0 <= k < |mutexes[m].waiters| && mutexes[m].waiters[k] == t ==>
                 St().Sorted(Delete(mutexes[m].waiters, k))
      modifies this`mutexes
      ensures |mutexes| == |old(mutexes)|
      ensures St() == old(St()).SetWaiters(m, mutexes[m].waiters)
      ensures NoDuplicates(mutexes[m].waiters) && St().Sorted(mutexes[m].waiters)
      ensures forall u :: u in mutexes[m].waiters <==> u in old(mutexes[m].waiters)
    {
      hide NoDuplicates, Insert, State.Sorted;
      ghost var s := St();
      var waiters := mutexes[m].waiters;
      var k :| 0 <= k < |waiters| && waiters[k] == t;
      var others := Delete(waiters, k);
      DeleteMembers(waiters, k);
      DeleteInRange(waiters, k, |threads|);
      var n := FindPosition(others, t);
      InsertMembers(others, n, t);
      var queue := Insert(others, n, t);
      assert t in queue && queue[0] in queue;
      var priority := threads[queue[0]].currentPriority;
      mutexes := mutexes[m := mutexes[m].(waiters := queue, priority := priority)];
      SameCurrents(s, St());
    }

    /** Change a thread's priority and carry the change along the chain of owners.
      *
      * With ceilings in use a lowering may turn into a raising once along the chain, never back. */
    method ThreadUpdatePriority(t: ThreadId, priority: Priority)
      requires t < |threads|
      requires St().Waits(t) ==>
                 && St().ValidExcept(t) && St().ThreadLinked(t)
                 && St().AtLeastLow(t, priority) && St().AtMostHigh(t, priority)
                 && priority != threads[t].currentPriority
      modifies this
      ensures Graph(St()) == old(Graph(St())) && exact == old(exact)
      ensures old(St().Waits(t)) ==> St().Valid()
      ensures !old(St().Waits(t)) ==> St() == old(St()).SetPriority(t, priority)
      decreases St().Waits(t),
                if priority < threads[t].currentPriority then 0 else 1,
                Distance(threads, priority < threads[t].currentPriority)
    {
      ghost var s := St();
      PriorityKeepsGraph(s, t, priority);
      threads := threads[t := threads[t].(currentPriority := priority)];
      if threads[t].stat == Suspended {
        var pending := threads[t].pending;
        if pending.Some? {
          var m := pending.value;
          WaiterList(s, t, priority, m);
          Requeue(m, t);
          RequeueStep(s, t, priority, m, mutexes[m].waiters);
          Settled(s, t, priority, m, mutexes[m].waiters);
          var owner := mutexes[m].owner.value;
          var mutexPriority := ThreadGetMutexPriority(owner);
          OwnerStep(s, St(), t, priority, owner, mutexPriority);
          if mutexPriority != threads[owner].currentPriority {
            ThreadUpdatePriority(owner, mutexPriority);
          }
        }
      }
    }

    /** `rt_mutex_take`, waiting without limit (`wait`) or not at all. */
    method Take(self: ThreadId, m: MutexId, wait: bool) returns (result: TakeResult)
      requires St().Valid() && self < |threads| && m < |mutexes| && threads[self].stat == Live
      modifies this
      ensures St().Valid() && exact == old(exact)
      ensures result == TakeOutcome(old(St()), self, m, wait)
      ensures Graph(St()) == AfterTake(old(Graph(St())), self, m, wait)
      ensures OnlyThese(old(St()), St(), {self}, {m})
      ensures mutexes[m].ceiling == old(mutexes)[m].ceiling && threads[self].initPriority == old(threads)[self].initPriority
      ensures old(mutexes[m].owner) == Some(self) ==>
        && result == (if old(mutexes[m].hold) < HOLD_MAX then Acquired else Full)
        && mutexes[m].owner == Some(self) && threads[self].Ties() == old(threads)[self].Ties()
        && mutexes[m].hold == old(mutexes[m].hold) + if result == Acquired then 1 else 0
      ensures old(mutexes[m].owner) == None ==>
        && result == Acquired && mutexes[m].owner == Some(self) && mutexes[m].hold == 1
        && threads[self].taken == [m] + old(threads)[self].taken && threads[self].stat == Live && threads[self].pending == None
      ensures old(mutexes[m].owner) != None && old(mutexes[m].owner) != Some(self) ==>
        && result == (if wait then Blocked else TimedOut)
        && mutexes[m].Holding() == old(mutexes)[m].Holding() && threads[self].taken == old(threads)[self].taken
        && threads[self].stat == (if wait then Suspended else Live) && threads[self].pending == (if wait then Some(m) else None)
    {
      hide State.Linked, State.Queued, State.Bounded, State.ThreadLinked, State.MutexLinked, NoDuplicates, Graph, AfterTake, OnlyThese;
      ghost var s := St();
      LiveIsFree(s, self);
      result := TakeCases(self, m, wait);
      TakeEffect(s, St(), self, m, wait);
    }

    method TakeCases(self: ThreadId, m: MutexId, wait: bool) returns (result: TakeResult)
      requires St().Valid() && self < |threads| && m < |mutexes| && threads[self].stat == Live
      modifies this
      ensures St().Valid() && exact == old(exact)
      ensures result == TakeOutcome(old(St()), self, m, wait)
      ensures Graph(St()) == AfterTake(old(Graph(St())), self, m, wait)
    {
      hide State.Linked, State.Queued, State.Bounded, State.ThreadLinked, State.MutexLinked, NoDuplicates;
      ghost var s := St();
      if mutexes[m].owner == Some(self) {
        HeldFacts(s, self, m);
        if mutexes[m].hold < HOLD_MAX {
          mutexes := mutexes[m := mutexes[m].(hold := mutexes[m].hold + 1)];
          HoldKeepsValid(s, m, mutexes[m].hold);
          result := Acquired;
        } else {
          result := Full;
        }
      } else if mutexes[m].owner.None? {
        mutexes := mutexes[m := mutexes[m].(owner := Some(self), priority := LOWEST, hold := 1)];
        if mutexes[m].ceiling != LOWEST {
          if mutexes[m].ceiling < threads[self].currentPriority {
            ThreadUpdatePriority(self, mutexes[m].ceiling);
          }
        }
        threads := threads[self := threads[self].(taken := [m] + threads[self].taken)];
        AcquireKeepsValid(s, self, m);
        assert St() == Acquire(s, self, m);
        result := Acquired;
      } else if !wait {
        result := TimedOut;
      } else {
        Block(self, m);
        result := Blocked;
      }
    }

    /** The waiting branch of take. */
    method Block(self: ThreadId, m: MutexId)
      requires St().Valid() && self < |threads| && m < |mutexes| && threads[self].stat == Live
      requires mutexes[m].owner.Some? && mutexes[m].owner != Some(self)
      modifies this
      ensures St().Valid() && exact == old(exact)
      ensures Graph(St()) == Graph(Suspend(old(St()), self, Some(m)))
    {
      hide State.Linked, State.Queued, State.ThreadLinked, State.MutexLinked, State.Bounded, NoDuplicates, Graph;
      ghost var s := St();
      BlockFacts(s, self, m);
      var priority := threads[self].currentPriority;
      var waiters := mutexes[m].waiters;
      var n := FindPosition(waiters, self);
      EnqueueStep(s, self, m, n);
      EnqueueGraph(s, self, m, n);
      mutexes := mutexes[m := mutexes[m].(waiters := Insert(waiters, n, self))];
      threads := threads[self := threads[self].(stat := Suspended)];
      threads := threads[self := threads[self].(pending := Some(m))];
      if priority < mutexes[m].priority {
        mutexes := mutexes[m := mutexes[m].(priority := priority)];
        assert St() == Enqueue(s, self, m, n);
        var owner := mutexes[m].owner.value;
        if mutexes[m].priority < threads[owner].currentPriority {
          if !St().Waits(owner) {
            PriorityWithinBounds(St(), owner, priority);
          }
          ThreadUpdatePriority(owner, priority);
        }
      } else {
        assert St() == Enqueue(s, self, m, n);
      }
    }

    /** Remove `m` from the list of held mutexes and lower the priority if `m` had raised it. */
    method GiveUpMutex(self: ThreadId, m: MutexId) returns (ghost k: nat)
      requires St().Valid() && self < |threads| && m < |mutexes| && mutexes[m].owner == Some(self)
      modifies this`threads
      ensures k < |old(threads)[self].taken| && old(threads)[self].taken[k] == m
      ensures Without(old(threads)[self].taken, m) == Delete(old(threads)[self].taken, k)
      ensures |threads| == |old(threads)|
      ensures St() == GiveUp(old(St()), self, k, threads[self].currentPriority)
      ensures St().TakenKnown(self)
      ensures St().AtLeastLow(self, threads[self].currentPriority)
      ensures St().AtMostHigh(self, threads[self].currentPriority)
    {
      hide State.Linked, State.Queued, State.Bounded, State.ThreadLinked, State.MutexLinked, State.AtLeastLow, State.AtMostHigh;
      hide State.TakenKnown, State.Waits, NoDuplicates;
      ghost var s := St();
      HeldFacts(s, self, m);
      var taken := threads[self].taken;
      var i :| 0 <= i < |taken| && taken[i] == m;
      k := i;
      DeleteMembers(taken, k);
      WithoutIsDelete(taken, k);
      threads := threads[self := threads[self].(taken := Delete(taken, i))];
      assert St() == GiveUp(s, self, k, s.Current(self));
      GiveUpKnown(s, self, k);
      if mutexes[m].ceiling != LOWEST || threads[self].currentPriority == mutexes[m].priority {
        var priority := ThreadGetMutexPriority(self);
        RecomputeFits(s, self, k, priority);
        threads := threads[self := threads[self].(currentPriority := priority)];
      } else {
        NoRecomputeNeeded(s, self, m, k);
      }
    }

    /** Hand `m` to its front waiter or leave it free. */
    method HandOver(m: MutexId)
      requires m < |mutexes|
      requires mutexes[m].waiters != [] ==> mutexes[m].waiters[0] < |threads|
      requires forall j :: 0 <= j < |mutexes[m].waiters| ==> mutexes[m].waiters[j] < |threads|
      modifies this
      ensures St() == PassOn(old(St()), m)
    {
      if mutexes[m].waiters != [] {
        var next := mutexes[m].waiters[0];
        var rest := mutexes[m].waiters[1..];
        mutexes := mutexes[m := mutexes[m].(waiters := rest, owner := Some(next), hold := 1)];
        threads := threads[next := threads[next].(taken := [m] + threads[next].taken, pending := None, stat := Live)];
        var front := if rest != [] then threads[rest[0]].currentPriority else LOWEST;
        mutexes := mutexes[m := mutexes[m].(priority := front)];
        exact := exact && threads[next].currentPriority <= mutexes[m].ceiling;
      } else {
        mutexes := mutexes[m := mutexes[m].(owner := None, priority := LOWEST, hold := 0)];
      }
    }

    /** `rt_mutex_release`; `ok` is false when the caller is not the owner. */
    method Release(self: ThreadId, m: MutexId) returns (ok: bool)
      requires St().Valid() && self < |threads| && m < |mutexes| && threads[self].stat == Live
      modifies this
      ensures St().Valid()
      ensures ok == (old(mutexes[m].owner) == Some(self))
      ensures exact == (old(exact) && !Forgets(old(St()), self, m))
      ensures |threads| == |old(threads)| && forall t: ThreadId :: t != self ==> St().Current(t) == old(St()).Current(t)
      ensures Graph(St()) == Graph(AfterRelease(old(St()), self, m))
      ensures !ok ==> St() == old(St())
      ensures ok && old(mutexes[m].hold) > 1 ==>
        OnlyThese(old(St()), St(), {}, {m}) && mutexes[m].owner == Some(self) && mutexes[m].hold == old(mutexes[m].hold) - 1 && mutexes[m].ceiling == old(mutexes[m].ceiling)
      ensures ok && old(mutexes[m].hold) == 1 && old(mutexes[m].waiters) == [] ==>
        OnlyThese(old(St()), St(), {self}, {m}) && mutexes[m].owner == None && mutexes[m].hold == 0 && mutexes[m].ceiling == old(mutexes[m].ceiling)
      ensures ok && old(mutexes[m].hold) == 1 && old(mutexes[m].waiters) != [] ==>
        var next := old(mutexes[m].waiters[0]);
        && next < |threads| && OnlyThese(old(St()), St(), {self, next}, {m})
        && mutexes[m].owner == Some(next) && mutexes[m].hold == 1 && mutexes[m].ceiling == old(mutexes[m].ceiling)
        && threads[next].Ties() == old(threads)[next].(stat := Live, taken := [m] + old(threads)[next].taken, pending := None).Ties()
        && mutexes[m].waiters == old(mutexes[m].waiters)[1..]
      ensures ok && old(mutexes[m].hold) == 1 ==>
        var t := old(threads)[self]; threads[self].Ties() == t.(taken := Without(t.taken, m)).Ties()
      ensures ok ==> old(mutexes[m].hold) > 0
    {
      hide State.Linked, State.Queued, State.Bounded, NoDuplicates, Graph, AfterRelease, OnlyThese, Forgets;
      ghost var s := St();
      ok := ReleaseCases(self, m);
      if ok {
        BlockFacts(s, self, m);
        HeldFacts(s, self, m);
        FirstWaiterApart(s, self, m);
        ReleaseEffect(s, St(), self, m);
      }
    }

    method ReleaseCases(self: ThreadId, m: MutexId) returns (ok: bool)
      requires St().Valid() && self < |threads| && m < |mutexes| && threads[self].stat == Live
      modifies this
      ensures St().Valid()
      ensures ok == (old(mutexes[m].owner) == Some(self))
      ensures exact == (old(exact) && !Forgets(old(St()), self, m))
      ensures |threads| == |old(threads)| && forall t: ThreadId :: t != self ==> St().Current(t) == old(St()).Current(t)
      ensures Graph(St()) == Graph(AfterRelease(old(St()), self, m))
      ensures !ok ==> St() == old(St())
      ensures ok && old(mutexes[m].hold) == 1 && old(mutexes[m].waiters) != [] ==>
        m < |mutexes| && mutexes[m].waiters == old(mutexes[m].waiters)[1..]
    {
      hide State.Linked, State.Queued, State.Bounded, NoDuplicates;
      ghost var s := St();
      if mutexes[m].owner != Some(self) {
        return false;
      }
      BlockFacts(s, self, m);
      HeldFacts(s, self, m);
      var hold := mutexes[m].hold - 1;
      if hold == 0 {
        ghost var k := GiveUpMutex(self, m);
        ghost var p := threads[self].currentPriority;
        PassOnValid(s, self, m, k, p);
        PassOnGraph(s, self, m, k, p);
        PassOnCurrents(s, self, m, k, p);
        FirstWaiterApart(s, self, m);
        HandOver(m);
      } else {
        mutexes := mutexes[m := mutexes[m].(hold := hold)];
        HoldKeepsValid(s, m, hold);
      }
      return true;
    }

    /** Bring the owner of a mutex back into its bounds and propagate. */
    method Refresh(owner: ThreadId)
      requires owner < |threads| && St().ThreadLinked(owner) && St().ValidExcept(owner)
      modifies this
      ensures St().Valid() && exact == old(exact)
      ensures Graph(St()) == old(Graph(St()))
    {
      var priority := ThreadGetMutexPriority(owner);
      if priority != threads[owner].currentPriority {
        if !St().Waits(owner) {
          PriorityWithinBounds(St(), owner, priority);
        }
        ThreadUpdatePriority(owner, priority);
      } else {
        assert St().Bounded(owner);
      }
    }

    /** `rt_mutex_setprioceiling`; answers the old ceiling, or LOWEST when `ceiling` is no priority. */
    method SetPrioCeiling(m: MutexId, ceiling: Priority) returns (previous: Priority)
      requires St().Valid() && m < |mutexes|
      modifies this
      ensures St().Valid() && exact == old(exact)
      ensures ceiling < priorityMax ==> previous == old(mutexes[m].ceiling)
      ensures ceiling < priorityMax ==> Graph(St()) == Graph(WithCeiling(old(St()), m, ceiling))
      ensures ceiling >= priorityMax ==> previous == LOWEST && St() == old(St())
      ensures OnlyThese(old(St()), St(), {}, {m})
      ensures mutexes[m].owner == old(mutexes[m].owner) && mutexes[m].hold == old(mutexes[m].hold)
      ensures mutexes[m].ceiling == if ceiling < priorityMax then ceiling else old(mutexes[m].ceiling)
    {
      hide State.Linked, State.Queued, State.Bounded, Graph, WithCeiling;
      ghost var s := St();
      previous := CeilingCases(m, ceiling);
      if ceiling < priorityMax { CeilingEffect(s, St(), m, ceiling); }
    }

    method CeilingCases(m: MutexId, ceiling: Priority) returns (previous: Priority)
      requires St().Valid() && m < |mutexes|
      modifies this
      ensures St().Valid() && exact == old(exact)
      ensures ceiling < priorityMax ==> previous == old(mutexes[m].ceiling)
      ensures ceiling < priorityMax ==> Graph(St()) == Graph(WithCeiling(old(St()), m, ceiling))
      ensures ceiling >= priorityMax ==> previous == LOWEST && St() == old(St())
    {
      previous := LOWEST;
      if ceiling < priorityMax {
        previous := mutexes[m].ceiling;
        CeilingStep(St(), m, ceiling);
        mutexes := mutexes[m := mutexes[m].(ceiling := ceiling)];
        if mutexes[m].owner.Some? {
          Refresh(mutexes[m].owner.value);
        }
      }
    }

    /** `rt_mutex_drop_thread`: `t` has been unlinked from `m`. */
    method DropThread(m: MutexId, t: ThreadId)
      requires Dropping(St(), m, t)
      modifies this
      ensures St().Valid() && exact == old(exact)
      ensures Graph(St()) == old(Graph(St()))
    {
      ghost var s := St();
      assert s.MutexLinked(m);
      DropStep(s, m, t);
      var owner := mutexes[m].owner.value;
      var needUpdate := threads[owner].currentPriority == threads[t].currentPriority;
      assert forall j :: 0 <= j < |mutexes[m].waiters| ==> mutexes[m].waiters[j] in mutexes[m].waiters;
      if mutexes[m].waiters != [] {
        mutexes := mutexes[m := mutexes[m].(priority := threads[mutexes[m].waiters[0]].currentPriority)];
      } else {
        mutexes := mutexes[m := mutexes[m].(priority := LOWEST)];
      }
      assert St() == s.SetWaiters(m, s.mutexes[m].waiters);
      assert Graph(St()) == Graph(s);
      if needUpdate {
        Refresh(owner);
      }
    }

    /** `rt_thread_detach` / `rt_thread_delete` as far as mutexes are concerned. */
    method Detach(t: ThreadId)
      requires St().Valid() && t < |threads|
      modifies this
      ensures St().Valid() && exact == old(exact)
      ensures Graph(St()) == old(Graph(Close(St(), t)))
      ensures OnlyThese(old(St()), St(), {t}, {})
      ensures threads[t].stat == Closed && threads[t].taken == old(threads)[t].taken
      ensures threads[t].initPriority == old(threads)[t].initPriority
      ensures old(threads[t].stat) != Closed ==> threads[t].pending == None
    {
      hide State.Linked, State.Queued, State.Bounded, Graph, Close;
      ghost var s := St();
      DetachCases(t);
      CloseEffect(s, St(), t);
    }

    method DetachCases(t: ThreadId)
      requires St().Valid() && t < |threads|
      modifies this
      ensures St().Valid() && exact == old(exact)
      ensures Graph(St()) == old(Graph(Close(St(), t)))
    {
      if threads[t].stat == Closed {
        return;
      }
      ghost var s := St();
      assert s.ThreadLinked(t);
      if threads[t].stat == Suspended && threads[t].pending.Some? {
        var m := threads[t].pending.value;
        assert s.MutexLinked(m);
        var k :| 0 <= k < |mutexes[m].waiters| && mutexes[m].waiters[k] == t;
        LeaveStep(s, t, m, k);
        mutexes := mutexes[m := mutexes[m].(waiters := Delete(mutexes[m].waiters, k))];
        threads := threads[t := threads[t].(stat := Closed)];
        DropThread(m, t);
        SameGraphBlock(Leave(s, t, m, k), St(), t);
        CloseGraph(s, t, m, k);
        RestKeepsValid(St(), t, Closed, None);
        threads := threads[t := threads[t].(pending := None)];
      } else {
        RestKeepsValid(s, t, Closed, None);
        threads := threads[t := threads[t].(stat := Closed)];
      }
    }

    /** A thread goes to sleep on, or wakes up from, anything that is not a mutex. */
    method SleepElsewhere(self: ThreadId)
      requires St().Valid() && self < |threads| && threads[self].stat == Live
      modifies this`threads
      ensures St().Valid()
      ensures St() == Suspend(old(St()), self, None)
      ensures threads == old(threads)[self := old(threads)[self].(stat := Suspended, pending := None)]
    {
      assert St().ThreadLinked(self);
      RestKeepsValid(St(), self, Suspended, None);
      threads := threads[self := threads[self].(stat := Suspended)];
    }

    method WakeElsewhere(t: ThreadId)
      requires St().Valid() && t < |threads| && threads[t].stat == Suspended && threads[t].pending.None?
      modifies this`threads
      ensures St().Valid()
      ensures St() == old(St()).(threads := old(threads)[t := old(threads)[t].(stat := Live)])
    {
      RestKeepsValid(St(), t, Live, None);
      threads := threads[t := threads[t].(stat := Live)];
    }

    /** Any run of kernel calls; calls that make no sense in the current state are skipped.
      * Ceilings appear only through `rt_mutex_setprioceiling`. The state stays exact unless one of
      * the releases forgets a ceiling (`forgot`). */
    method Run(calls: seq<Call>) returns (ghost forgot: bool)
      requires St().Valid()
      modifies this
      ensures St().Valid()
      ensures |threads| == |old(threads)| && |mutexes| == |old(mutexes)|
      ensures exact == (old(exact) && !forgot)
      ensures old(NoCeilings(St())) && (forall j :: 0 <= j < |calls| ==> !calls[j].CallCeiling?) ==> NoCeilings(St())
    {
      hide State.Linked, State.Queued, State.Bounded, State.ThreadLinked, State.MutexLinked, Forgets;
      forgot := false;
      for i := 0 to |calls|
        invariant St().Valid()
        invariant |threads| == |old(threads)| && |mutexes| == |old(mutexes)|
        invariant exact == (old(exact) && !forgot)
        invariant old(NoCeilings(St())) && (forall j :: 0 <= j < i ==> !calls[j].CallCeiling?) ==> NoCeilings(St())
      {
        CeilingsInGraph(St());
        match calls[i] {
          case CallTake(self, m, wait) =>
            if self < |threads| && m < |mutexes| && threads[self].stat == Live {
              TakeKeepsCeilings(Graph(St()), self, m, wait);
              var _ := Take(self, m, wait);
            }
          case CallRelease(self, m) =>
            if self < |threads| && m < |mutexes| && threads[self].stat == Live {
              ReleaseKeepsCeilings(St(), self, m);
              forgot := forgot || Forgets(St(), self, m);
              var _ := Release(self, m);
            }
          case CallCeiling(m, ceiling) =>
            if m < |mutexes| {
              var _ := SetPrioCeiling(m, ceiling);
            }
          case CallDetach(t) =>
            if t < |threads| {
              CloseKeepsCeilings(St(), t);
              Detach(t);
            }
          case CallSleep(self) =>
            if self < |threads| && threads[self].stat == Live {
              SleepElsewhere(self);
            }
          case CallWake(t) =>
            if t < |threads| && threads[t].stat == Suspended && threads[t].pending.None? {
              WakeElsewhere(t);
            }
        }
        CeilingsInGraph(St());
      }
    }
  }
}
