/** The message queue of src/ipc.c as a transition system over its atomic sections.
  *
  * The interrupt lock is dropped around the copy of a message, so a send is: claim a free
  * node (locked), copy into it (unlocked), link it (locked); a receive is: take the first
  * node (locked), copy out of it (unlocked), give it back (locked).  In between, other
  * threads run any of their sections, sleepers time out, or the queue is reset.
  */
module MessageQueueModel {
  import opened Lists
  import opened Options

  type ThreadId = nat
  type Bytes = seq<bv8>

  const ENTRY_MAX: nat := 0xffff

  /** A sender between its two critical sections. */
  datatype Outgoing = Outgoing(node: nat, buffer: Bytes, urgent: bool, copied: bool)

  /** A receiver between its two critical sections. */
  datatype Incoming = Incoming(node: nat, message: Bytes, size: nat, buffer: Bytes, copied: bool)

  /** Where a message node is. */
  datatype Place = Free | Queued | Out(sender: ThreadId) | In(receiver: ThreadId)

  /** History of the queue in the order of its critical sections. */
  datatype Event = Sent(message: Bytes, urgent: bool) | Received(message: Bytes) | Cleared

  /** The double-ended queue that a history describes; None if a receive took anything but the front. */
  ghost function Replay(log: seq<Event>): Option<seq<Bytes>> {
    if log == [] then Some([])
    else
      match Replay(log[..|log| - 1])
      case None => None
      case Some(deque) =>
        match log[|log| - 1]
        case Sent(message, urgent) => Some(if urgent then [message] + deque else deque + [message])
        case Received(message) => if deque != [] && deque[0] == message then Some(deque[1..]) else None
        case Cleared => Some([])
  }

  lemma {:induction false} ReplayStep(log: seq<Event>, e: Event)
    ensures (log + [e])[..|log|] == log && (log + [e])[|log|] == e
  {
  }

  /** A list without duplicates over `n` nodes has at most `n` members. */
  lemma {:induction false} Pigeonhole(s: seq<nat>, n: nat)
    requires NoDuplicates(s) && forall i :: 0 <= i < |s| ==> s[i] < n
    ensures |s| <= n
  {
    if s != [] && n - 1 in s {
      var k :| 0 <= k < |s| && s[k] == n - 1;
      DeleteMembers(s, k);
      var r := Delete(s, k);
      forall i | 0 <= i < |r| ensures r[i] < n - 1 {
        assert r[i] in s && r[i] != n - 1;
      }
      Pigeonhole(r, n - 1);
    } else if s != [] {
      forall i | 0 <= i < |s| ensures s[i] < n - 1 {
        assert s[i] in s;
      }
      assert 0 <= s[0] < n - 1;
      Pigeonhole(s, n - 1);
    }
  }

  function Overwrite(area: Bytes, buffer: Bytes): Bytes
    requires |buffer| <= |area|
  {
    buffer + area[|buffer|..]
  }

  datatype Queue = Queue(
    msgSize: nat,
    area: seq<Bytes>,               // payload area of each node
    queued: seq<nat>,               // nodes from head to tail
    unused: seq<nat>,               // nodes on the free list
    place: seq<Place>,
    payload: seq<Bytes>,            // the message in each node
    receivers: seq<ThreadId>,       // asleep on an empty queue
    senders: seq<ThreadId>,         // asleep on an exhausted pool
    wokenReceivers: set<ThreadId>,  // resumed, but have not run yet
    wokenSenders: set<ThreadId>,
    sending: map<ThreadId, Outgoing>,
    receiving: map<ThreadId, Incoming>,
    log: seq<Event>)
  {
    ghost predicate Pool() {
      && |area| == |place| == |payload| <= ENTRY_MAX
      && forall n :: 0 <= n < |area| ==> |area[n]| == msgSize && |payload[n]| <= msgSize
    }

    ghost predicate Located(n: nat)
      requires n < |place|
    {
      match place[n]
      case Free => n in unused
      case Queued => n in queued
      case Out(t) => t in sending && sending[t].node == n
      case In(t) => t in receiving && receiving[t].node == n
    }

    /** Every node is in exactly one place: free, queued, or with one thread. */
    ghost predicate Partition() {
      && NoDuplicates(queued) && NoDuplicates(unused)
      && (forall n :: n in queued ==> n < |place| && place[n] == Queued)
      && (forall n :: n in unused ==> n < |place| && place[n] == Free)
      && (forall t :: t in sending ==> sending[t].node < |place| && place[sending[t].node] == Out(t))
      && (forall t :: t in receiving ==> receiving[t].node < |place| && place[receiving[t].node] == In(t))
      && forall n: nat :: n < |place| ==> Located(n)
    }

    /** The area of `n` starts with its message. */
    ghost predicate Holds(n: nat)
      requires Pool() && n < |place|
    {
      area[n][..|payload[n]|] == payload[n]
    }

    function Visible(n: nat, size: nat): Bytes
      requires n < |area|
    {
      area[n][..if size > |area[n]| then |area[n]| else size]
    }

    ghost predicate Outgoings()
      requires Pool() && Partition()
    {
      forall t :: t in sending ==>
        && |sending[t].buffer| <= msgSize
        && (sending[t].copied ==> Holds(sending[t].node) && payload[sending[t].node] == sending[t].buffer)
    }

    ghost predicate Incomings()
      requires Pool() && Partition()
    {
      forall t :: t in receiving ==>
        && Holds(receiving[t].node) && payload[receiving[t].node] == receiving[t].message
        && (receiving[t].copied ==> receiving[t].buffer == Visible(receiving[t].node, receiving[t].size))
    }

    /** Nodes hold exactly the bytes of their message from the copy in to the copy out. */
    ghost predicate Intact()
      requires Pool() && Partition()
    {
      (forall n :: n in queued ==> Holds(n)) && Outgoings() && Incomings()
    }

    ghost function Deque(): seq<Bytes>
      requires Pool() && Partition()
    {
      seq(|queued|, i requires 0 <= i < |queued| =>
        assert queued[i] in queued; payload[queued[i]])
    }

    predicate Idle(t: ThreadId) {
      && t !in receivers && t !in senders && t !in wokenReceivers && t !in wokenSenders
      && t !in sending && t !in receiving
    }

    /** Each thread is in at most one of its six possible situations. */
    ghost predicate Threads() {
      && NoDuplicates(receivers) && NoDuplicates(senders)
      && (forall t :: t in receivers ==> t !in senders && t !in wokenReceivers && t !in wokenSenders && t !in sending && t !in receiving)
      && (forall t :: t in senders ==> t !in wokenReceivers && t !in wokenSenders && t !in sending && t !in receiving)
      && (forall t :: t in wokenReceivers ==> t !in wokenSenders && t !in sending && t !in receiving)
      && (forall t :: t in wokenSenders ==> t !in sending && t !in receiving)
      && (forall t :: t in sending ==> t !in receiving)
    }

    /** While a receiver (sender) sleeps, every message (free node) is covered by a woken thread. */
    ghost predicate NoLostWakeUp() {
      && (receivers != [] ==> |queued| <= |wokenReceivers|)
      && (senders != [] ==> |unused| <= |wokenSenders|)
    }

    ghost predicate Consistent() {
      Pool() && Partition() && Intact() && Threads() && Replay(log) == Some(Deque())
    }

    ghost predicate Valid() {
      Consistent() && NoLostWakeUp()
    }
  }

  // ---------- the sections ----------

  function Claim(q: Queue, t: ThreadId, buffer: Bytes, urgent: bool): Queue
    requires q.unused != [] && q.unused[0] < |q.place|
  {
    var node := q.unused[0];
    q.(unused := q.unused[1..],
       place := q.place[node := Out(t)],
       sending := q.sending[t := Outgoing(node, buffer, urgent, false)])
  }

  function CopyIn(q: Queue, t: ThreadId): Queue
    requires t in q.sending
    requires var n := q.sending[t].node; n < |q.area| && n < |q.payload| && |q.sending[t].buffer| <= |q.area[n]|
  {
    var out := q.sending[t];
    q.(area := q.area[out.node := Overwrite(q.area[out.node], out.buffer)],
       payload := q.payload[out.node := out.buffer],
       sending := q.sending[t := out.(copied := true)])
  }

  function WakeReceiver(q: Queue): Queue {
    if q.receivers == [] then q
    else q.(receivers := q.receivers[1..], wokenReceivers := q.wokenReceivers + {q.receivers[0]})
  }

  function WakeSender(q: Queue): Queue {
    if q.senders == [] then q
    else q.(senders := q.senders[1..], wokenSenders := q.wokenSenders + {q.senders[0]})
  }

  /** Append the message, or put an urgent one in front. */
  function Append(q: Queue, t: ThreadId): Queue
    requires t in q.sending && q.sending[t].node < |q.place|
  {
    var out := q.sending[t];
    q.(queued := if out.urgent then [out.node] + q.queued else q.queued + [out.node],
       place := q.place[out.node := Queued],
       sending := q.sending - {t},
       log := q.log + [Sent(out.buffer, out.urgent)])
  }

  function Link(q: Queue, t: ThreadId): Queue
    requires t in q.sending && q.sending[t].node < |q.place|
  {
    WakeReceiver(Append(q, t))
  }

  function Take(q: Queue, t: ThreadId, size: nat): Queue
    requires q.queued != [] && q.queued[0] < |q.place| && q.queued[0] < |q.payload|
  {
    var node := q.queued[0];
    q.(queued := q.queued[1..],
       place := q.place[node := In(t)],
       receiving := q.receiving[t := Incoming(node, q.payload[node], size, [], false)],
       log := q.log + [Received(q.payload[node])])
  }

  function CopyOut(q: Queue, t: ThreadId): Queue
    requires t in q.receiving && q.receiving[t].node < |q.area|
  {
    var into := q.receiving[t];
    q.(receiving := q.receiving[t := into.(copied := true, buffer := q.Visible(into.node, into.size))])
  }

  function Free(q: Queue, t: ThreadId): Queue
    requires t in q.receiving && q.receiving[t].node < |q.place|
  {
    var node := q.receiving[t].node;
    q.(unused := [node] + q.unused,
       place := q.place[node := Place.Free],
       receiving := q.receiving - {t})
  }

  function GiveBack(q: Queue, t: ThreadId): Queue
    requires t in q.receiving && q.receiving[t].node < |q.place|
  {
    WakeSender(Free(q, t))
  }

  // ---------- every section keeps the queue consistent ----------

  /** Locations carry over for nodes that no list, thread or table entry has lost. */
  lemma {:induction false} StillLocated(q: Queue, r: Queue, moved: nat)
    requires |q.place| == |r.place| && moved < |q.place| && r.Located(moved)
    requires forall n: nat :: n < |q.place| ==> q.Located(n)
    requires forall n: nat :: n < |q.place| && n != moved ==> r.place[n] == q.place[n]
    requires forall n: nat :: n != moved ==> (n in q.queued ==> n in r.queued) && (n in q.unused ==> n in r.unused)
    requires forall t :: t in q.sending && q.sending[t].node != moved ==> t in r.sending && r.sending[t].node == q.sending[t].node
    requires forall t :: t in q.receiving && q.receiving[t].node != moved ==> t in r.receiving && r.receiving[t].node == q.receiving[t].node
    ensures forall n: nat :: n < |r.place| ==> r.Located(n)
  {
    forall n: nat | n < |r.place| ensures r.Located(n) {
      assert q.Located(n);
    }
  }

  ghost predicate Placed(q: Queue) {
    q.Pool() && q.Partition() && q.Threads()
  }

  /** Messages stay intact while areas and messages do not change and holders stay holders. */
  lemma {:induction false} StillIntact(q: Queue, r: Queue)
    requires Placed(q) && Placed(r) && q.Intact()
    requires r.area == q.area && r.payload == q.payload && r.msgSize == q.msgSize
    requires forall n :: n in r.queued ==> q.Holds(n)
    requires forall t :: t in r.sending ==>
      (t in q.sending && r.sending[t] == q.sending[t]) || (!r.sending[t].copied && |r.sending[t].buffer| <= r.msgSize)
    requires forall t :: t in r.receiving ==>
      (t in q.receiving && r.receiving[t] == q.receiving[t]) || (!r.receiving[t].copied && q.Holds(r.receiving[t].node) && r.receiving[t].message == q.payload[r.receiving[t].node])
    ensures r.Intact()
  {
    assert forall n: nat :: n < |r.place| && q.Holds(n) ==> r.Holds(n);
  }

  lemma {:induction false} ClaimPlaced(q: Queue, t: ThreadId, buffer: Bytes, urgent: bool)
    requires Placed(q) && q.Idle(t) && q.unused != [] && |buffer| <= q.msgSize
    ensures q.unused[0] in q.unused && Placed(Claim(q, t, buffer, urgent))
  {
    assert q.unused[0] in q.unused;
    TailMembers(q.unused);
    StillLocated(q, Claim(q, t, buffer, urgent), q.unused[0]);
  }

  lemma {:induction false} ClaimKeeps(q: Queue, t: ThreadId, buffer: Bytes, urgent: bool)
    requires q.Consistent() && q.Idle(t) && q.unused != [] && |buffer| <= q.msgSize
    ensures q.unused[0] in q.unused && Claim(q, t, buffer, urgent).Consistent()
    ensures Claim(q, t, buffer, urgent).Deque() == q.Deque()
  {
    ClaimPlaced(q, t, buffer, urgent);
    var r := Claim(q, t, buffer, urgent);
    StillIntact(q, r);
    assert r.Deque() == q.Deque();
  }

  lemma {:induction false} CopyInPlaced(q: Queue, t: ThreadId)
    requires Placed(q) && t in q.sending && |q.sending[t].buffer| <= q.msgSize
    ensures Placed(CopyIn(q, t))
    ensures q.sending[t].node !in q.queued
  {
    StillLocated(q, CopyIn(q, t), q.sending[t].node);
  }

  lemma {:induction false} CopyInHolds(q: Queue, t: ThreadId)
    requires Placed(q) && q.Intact() && t in q.sending && CopyIn(q, t).Pool()
    ensures var r, node := CopyIn(q, t), q.sending[t].node;
            r.Holds(node) && forall n: nat :: n < |r.place| && n != node && q.Holds(n) ==> r.Holds(n)
  {
    var out := q.sending[t];
    assert Overwrite(q.area[out.node], out.buffer)[..|out.buffer|] == out.buffer;
  }

  lemma {:induction false} CopyInKeeps(q: Queue, t: ThreadId)
    requires q.Consistent() && t in q.sending
    ensures CopyIn(q, t).Consistent()
    ensures CopyIn(q, t).Deque() == q.Deque()
  {
    hide Queue.Idle;
    hide NoDuplicates, Queue.Threads, Queue.Located, Replay, Overwrite, Queue.Holds;
    var r := CopyIn(q, t);
    var node := q.sending[t].node;
    CopyInPlaced(q, t);
    CopyInHolds(q, t);
    assert forall i :: 0 <= i < |q.queued| ==> q.queued[i] in q.queued;
    assert r.Deque() == q.Deque();
  }

  lemma {:induction false} AppendQueued(q: Queue, t: ThreadId)
    requires Placed(q) && t in q.sending
    ensures NoDuplicates(Append(q, t).queued)
    ensures forall n :: n in Append(q, t).queued <==> n in q.queued || n == q.sending[t].node
    ensures |q.queued| < |q.place|
  {
    var r, out := Append(q, t), q.sending[t];
    assert r.queued == Insert(q.queued, if out.urgent then 0 else |q.queued|, out.node);
    InsertMembers(q.queued, if out.urgent then 0 else |q.queued|, out.node);
    forall i | 0 <= i < |r.queued| ensures r.queued[i] < |r.place| {
      assert r.queued[i] in r.queued;
    }
    Pigeonhole(r.queued, |r.place|);
  }

  lemma {:induction false} AppendPlaced(q: Queue, t: ThreadId)
    requires Placed(q) && t in q.sending
    ensures Placed(Append(q, t))
  {
    AppendQueued(q, t);
    StillLocated(q, Append(q, t), q.sending[t].node);
  }

  lemma {:induction false} AppendKeeps(q: Queue, t: ThreadId)
    requires q.Consistent() && t in q.sending && q.sending[t].copied
    ensures Append(q, t).Consistent()
    ensures var out := q.sending[t];
            Append(q, t).Deque() == if out.urgent then [out.buffer] + q.Deque() else q.Deque() + [out.buffer]
    ensures |q.queued| < |q.place|
  {
    hide NoDuplicates, Queue.Threads, Queue.Idle;
    var r := Append(q, t);
    var out := q.sending[t];
    AppendQueued(q, t);
    AppendPlaced(q, t);
    StillIntact(q, r);
    assert r.Deque() == if out.urgent then [out.buffer] + q.Deque() else q.Deque() + [out.buffer];
    ReplayStep(q.log, Sent(out.buffer, out.urgent));
  }

  lemma {:induction false} TakePlaced(q: Queue, t: ThreadId, size: nat)
    requires Placed(q) && q.Idle(t) && q.queued != []
    ensures q.queued[0] in q.queued && Placed(Take(q, t, size))
  {
    assert q.queued[0] in q.queued;
    TailMembers(q.queued);
    StillLocated(q, Take(q, t, size), q.queued[0]);
  }

  lemma {:induction false} TakeKeeps(q: Queue, t: ThreadId, size: nat)
    requires q.Consistent() && q.Idle(t) && q.queued != []
    ensures q.queued[0] in q.queued && Take(q, t, size).Consistent()
    ensures [q.payload[q.queued[0]]] + Take(q, t, size).Deque() == q.Deque()
  {
    TakePlaced(q, t, size);
    var r := Take(q, t, size);
    TailMembers(q.queued);
    StillIntact(q, r);
    assert r.Deque() == q.Deque()[1..];
    ReplayStep(q.log, Received(q.payload[q.queued[0]]));
  }

  lemma {:induction false} CopyOutPlaced(q: Queue, t: ThreadId)
    requires Placed(q) && t in q.receiving
    ensures Placed(CopyOut(q, t))
  {
    StillLocated(q, CopyOut(q, t), q.receiving[t].node);
  }

  lemma {:induction false} CopyOutKeeps(q: Queue, t: ThreadId)
    requires q.Consistent() && t in q.receiving
    ensures CopyOut(q, t).Consistent()
    ensures CopyOut(q, t).Deque() == q.Deque()
  {
    var r := CopyOut(q, t);
    CopyOutPlaced(q, t);
    assert forall n: nat :: n < |r.place| && q.Holds(n) ==> r.Holds(n);
    assert r.Deque() == q.Deque();
  }

  lemma {:induction false} FreePlaced(q: Queue, t: ThreadId)
    requires Placed(q) && t in q.receiving
    ensures Placed(Free(q, t))
  {
    var r := Free(q, t);
    var node := q.receiving[t].node;
    assert r.unused == Insert(q.unused, 0, node);
    InsertMembers(q.unused, 0, node);
    StillLocated(q, r, node);
  }

  lemma {:induction false} FreeKeeps(q: Queue, t: ThreadId)
    requires q.Consistent() && t in q.receiving
    ensures Free(q, t).Consistent()
    ensures Free(q, t).Deque() == q.Deque()
  {
    var r := Free(q, t);
    FreePlaced(q, t);
    StillIntact(q, r);
    assert r.Deque() == q.Deque();
  }

  // ---------- waiting and waking ----------

  function SleepReceiver(q: Queue, t: ThreadId, pos: nat): Queue {
    if pos <= |q.receivers| then q.(receivers := Insert(q.receivers, pos, t)) else q.(receivers := q.receivers + [t])
  }

  function SleepSender(q: Queue, t: ThreadId, pos: nat): Queue {
    if pos <= |q.senders| then q.(senders := Insert(q.senders, pos, t)) else q.(senders := q.senders + [t])
  }

  /** All queued nodes go back to the free list, all sleepers leave with an error. */
  function Reset(q: Queue): Queue {
    q.(receivers := [], senders := [],
       queued := [], unused := Reverse(q.queued) + q.unused,
       place := seq(|q.place|, i requires 0 <= i < |q.place| => if q.place[i] == Queued then Place.Free else q.place[i]),
       log := q.log + [Cleared])
  }

  lemma {:induction false} SameMessages(q: Queue, r: Queue)
    requires q.Consistent() && Placed(r)
    requires r == q.(receivers := r.receivers, senders := r.senders,
                     wokenReceivers := r.wokenReceivers, wokenSenders := r.wokenSenders)
    ensures r.Consistent() && r.Deque() == q.Deque()
  {
    StillIntact(q, r);
    assert r.Deque() == q.Deque();
  }

  lemma {:induction false} StillPlaced(q: Queue, r: Queue)
    requires Placed(q) && r.Threads()
    requires r == q.(receivers := r.receivers, senders := r.senders,
                     wokenReceivers := r.wokenReceivers, wokenSenders := r.wokenSenders)
    ensures Placed(r)
  {
    forall n: nat | n < |r.place| ensures r.Located(n) {
      assert q.Located(n);
    }
  }

  lemma {:induction false} WakeReceiverKeeps(q: Queue)
    requires q.Consistent()
    ensures WakeReceiver(q).Consistent() && WakeReceiver(q).Deque() == q.Deque()
    ensures q.receivers != [] ==> |WakeReceiver(q).wokenReceivers| == |q.wokenReceivers| + 1
  {
    if q.receivers != [] {
      TailMembers(q.receivers);
      assert q.receivers[0] in q.receivers;
    }
    StillPlaced(q, WakeReceiver(q));
    SameMessages(q, WakeReceiver(q));
  }

  lemma {:induction false} WakeSenderKeeps(q: Queue)
    requires q.Consistent()
    ensures WakeSender(q).Consistent() && WakeSender(q).Deque() == q.Deque()
    ensures q.senders != [] ==> |WakeSender(q).wokenSenders| == |q.wokenSenders| + 1
  {
    if q.senders != [] {
      TailMembers(q.senders);
      assert q.senders[0] in q.senders;
    }
    StillPlaced(q, WakeSender(q));
    SameMessages(q, WakeSender(q));
  }

  lemma {:induction false} SleepReceiverKeeps(q: Queue, t: ThreadId, pos: nat)
    requires q.Consistent() && q.Idle(t)
    ensures SleepReceiver(q, t, pos).Consistent()
  {
    InsertMembers(q.receivers, if pos <= |q.receivers| then pos else |q.receivers|, t);
    assert Insert(q.receivers, |q.receivers|, t) == q.receivers + [t];
    StillPlaced(q, SleepReceiver(q, t, pos));
    SameMessages(q, SleepReceiver(q, t, pos));
  }

  lemma {:induction false} SleepSenderKeeps(q: Queue, t: ThreadId, pos: nat)
    requires q.Consistent() && q.Idle(t)
    ensures SleepSender(q, t, pos).Consistent()
  {
    InsertMembers(q.senders, if pos <= |q.senders| then pos else |q.senders|, t);
    assert Insert(q.senders, |q.senders|, t) == q.senders + [t];
    StillPlaced(q, SleepSender(q, t, pos));
    SameMessages(q, SleepSender(q, t, pos));
  }

  lemma {:induction false} LeaveKeeps(q: Queue, r: Queue)
    requires q.Consistent()
    requires r == q.(receivers := r.receivers, senders := r.senders,
                     wokenReceivers := r.wokenReceivers, wokenSenders := r.wokenSenders)
    requires NoDuplicates(r.receivers) && NoDuplicates(r.senders)
    requires (forall t :: t in r.receivers ==> t in q.receivers) && (forall t :: t in r.senders ==> t in q.senders)
    requires r.wokenReceivers <= q.wokenReceivers && r.wokenSenders <= q.wokenSenders
    ensures r.Consistent()
  {
    StillPlaced(q, r);
    SameMessages(q, r);
  }

  lemma {:induction false} ResetPlaced(q: Queue)
    requires Placed(q)
    ensures Placed(Reset(q))
  {
    var r := Reset(q);
    ReverseMembers(q.queued);
    AppendMembers(Reverse(q.queued), q.unused);
    forall n: nat | n < |r.place| ensures r.Located(n) {
      assert q.Located(n);
    }
  }

  lemma {:induction false} ResetKeeps(q: Queue)
    requires q.Valid()
    ensures Reset(q).Valid()
  {
    var r := Reset(q);
    ResetPlaced(q);
    StillIntact(q, r);
    assert r.Deque() == [];
    ReplayStep(q.log, Cleared);
  }

  // ---------- what the sections do to the messages ----------

  lemma {:induction false} SameDeque(q: Queue, r: Queue)
    requires q.Consistent() && r.Consistent() && r.queued == q.queued && r.payload == q.payload
    ensures r.Deque() == q.Deque()
  {
    assert forall i :: 0 <= i < |q.queued| ==> q.queued[i] in q.queued;
  }

  lemma {:induction false} LinkDeque(q: Queue, t: ThreadId)
    requires q.Consistent() && t in q.sending && q.sending[t].copied
    ensures Link(q, t).Consistent()
    ensures var buffer := q.sending[t].buffer;
            Link(q, t).Deque() == if q.sending[t].urgent then [buffer] + q.Deque() else q.Deque() + [buffer]
  {
    hide Append, WakeReceiver, Queue.Intact, Queue.Threads;
    AppendKeeps(q, t);
    WakeReceiverKeeps(Append(q, t));
  }

  lemma {:induction false} GiveBackDeque(q: Queue, t: ThreadId)
    requires q.Consistent() && t in q.receiving
    ensures GiveBack(q, t).Consistent() && GiveBack(q, t).Deque() == q.Deque()
  {
    hide Free, WakeSender, Queue.Intact, Queue.Threads;
    FreeKeeps(q, t);
    WakeSenderKeeps(Free(q, t));
  }

  lemma {:induction false} RunReceiverIdle(q: Queue, t: ThreadId)
    requires q.Consistent() && t in q.wokenReceivers
    ensures RunReceiver(q, t).Consistent() && RunReceiver(q, t).Idle(t)
  {
    hide Queue.Intact, Queue.Partition;
    LeaveKeeps(q, RunReceiver(q, t));
  }

  lemma {:induction false} TryRecvDeque(q: Queue, t: ThreadId, size: nat, mayWait: bool, pos: nat)
    requires q.Consistent() && q.Idle(t)
    ensures TryRecv(q, t, size, mayWait, pos).Consistent()
    ensures var r := TryRecv(q, t, size, mayWait, pos);
            if q.queued == [] then r.Deque() == q.Deque() == []
            else
              && q.Deque() != [] && r.Deque() == q.Deque()[1..]
              && r.receiving == q.receiving[t := Incoming(q.queued[0], q.Deque()[0], size, [], false)]
  {
    hide Queue.Idle;
    if q.queued == [] {
      SleepReceiverKeeps(q, t, pos);
    } else {
      TakeKeeps(q, t, size);
    }
  }

  // ---------- runs ----------

  datatype Action =
    | Send(t: ThreadId, buffer: Bytes, urgent: bool, mayWait: bool, pos: nat)
    | ResumeSend(t: ThreadId, buffer: Bytes, timeLeft: bool, pos: nat)
    | SendCopy(t: ThreadId)
    | SendLink(t: ThreadId)
    | SendTimeout(t: ThreadId)
    | Recv(t: ThreadId, size: nat, mayWait: bool, pos: nat)
    | ResumeRecv(t: ThreadId, size: nat, timeLeft: bool, pos: nat)
    | RecvCopy(t: ThreadId)
    | RecvGiveBack(t: ThreadId)
    | RecvTimeout(t: ThreadId)
    | ResetAll

  /** The first section of a send, once the size has been checked. */
  ghost function TrySend(q: Queue, t: ThreadId, buffer: Bytes, urgent: bool, mayWait: bool, pos: nat): Queue
    requires q.Consistent()
  {
    if q.unused == [] then if mayWait then SleepSender(q, t, pos) else q
    else assert q.unused[0] in q.unused; Claim(q, t, buffer, urgent)
  }

  /** The first section of a receive. */
  ghost function TryRecv(q: Queue, t: ThreadId, size: nat, mayWait: bool, pos: nat): Queue
    requires q.Consistent()
  {
    if q.queued == [] then if mayWait then SleepReceiver(q, t, pos) else q
    else assert q.queued[0] in q.queued; Take(q, t, size)
  }

  function RunSender(q: Queue, t: ThreadId): Queue {
    q.(wokenSenders := q.wokenSenders - {t})
  }

  function RunReceiver(q: Queue, t: ThreadId): Queue {
    q.(wokenReceivers := q.wokenReceivers - {t})
  }

  lemma {:induction false} TrySendKeeps(q: Queue, t: ThreadId, buffer: Bytes, urgent: bool, mayWait: bool, pos: nat)
    requires q.Consistent() && q.Idle(t) && |buffer| <= q.msgSize
    requires q.receivers != [] ==> |q.queued| <= |q.wokenReceivers|
    requires q.senders != [] ==> |q.unused| <= |q.wokenSenders| + 1
    requires q.unused == [] && q.senders != [] ==> |q.unused| <= |q.wokenSenders|
    ensures TrySend(q, t, buffer, urgent, mayWait, pos).Valid()
  {
    if q.unused == [] {
      SleepSenderKeeps(q, t, pos);
    } else {
      ClaimKeeps(q, t, buffer, urgent);
    }
  }

  lemma {:induction false} TryRecvKeeps(q: Queue, t: ThreadId, size: nat, mayWait: bool, pos: nat)
    requires q.Consistent() && q.Idle(t)
    requires q.receivers != [] ==> |q.queued| <= |q.wokenReceivers| + 1
    requires q.senders != [] ==> |q.unused| <= |q.wokenSenders|
    ensures TryRecv(q, t, size, mayWait, pos).Valid()
  {
    if q.queued == [] {
      SleepReceiverKeeps(q, t, pos);
    } else {
      TakeKeeps(q, t, size);
    }
  }

  /** One atomic section; actions of threads that are not at that point change nothing. */
  ghost function Apply(q: Queue, a: Action): Queue
    requires q.Valid()
  {
    match a
    case Send(t, buffer, urgent, mayWait, pos) =>
      if q.Idle(t) && |buffer| <= q.msgSize then TrySend(q, t, buffer, urgent, mayWait && !urgent, pos) else q
    case ResumeSend(t, buffer, timeLeft, pos) =>
      if t in q.wokenSenders && |buffer| <= q.msgSize then
        LeaveKeeps(q, RunSender(q, t));
        TrySend(RunSender(q, t), t, buffer, false, timeLeft, pos)
      else q
    case SendCopy(t) => if t in q.sending then CopyIn(q, t) else q
    case SendLink(t) => if t in q.sending && q.sending[t].copied then Link(q, t) else q
    case SendTimeout(t) => if t in q.senders then q.(senders := Without(q.senders, t)) else q
    case Recv(t, size, mayWait, pos) =>
      if q.Idle(t) then TryRecv(q, t, size, mayWait, pos) else q
    case ResumeRecv(t, size, timeLeft, pos) =>
      if t in q.wokenReceivers then
        LeaveKeeps(q, RunReceiver(q, t));
        TryRecv(RunReceiver(q, t), t, size, timeLeft, pos)
      else q
    case RecvCopy(t) => if t in q.receiving then CopyOut(q, t) else q
    case RecvGiveBack(t) => if t in q.receiving && q.receiving[t].copied then GiveBack(q, t) else q
    case RecvTimeout(t) => if t in q.receivers then q.(receivers := Without(q.receivers, t)) else q
    case ResetAll => Reset(q)
  }

  lemma {:induction false} ResumeKeeps(q: Queue, t: ThreadId, buffer: Bytes, size: nat, timeLeft: bool, pos: nat)
    requires q.Valid() && |buffer| <= q.msgSize
    ensures t in q.wokenSenders ==>
      RunSender(q, t).Consistent() && TrySend(RunSender(q, t), t, buffer, false, timeLeft, pos).Valid()
    ensures t in q.wokenReceivers ==>
      RunReceiver(q, t).Consistent() && TryRecv(RunReceiver(q, t), t, size, timeLeft, pos).Valid()
  {
    if t in q.wokenSenders {
      LeaveKeeps(q, RunSender(q, t));
      TrySendKeeps(RunSender(q, t), t, buffer, false, timeLeft, pos);
    }
    if t in q.wokenReceivers {
      LeaveKeeps(q, RunReceiver(q, t));
      TryRecvKeeps(RunReceiver(q, t), t, size, timeLeft, pos);
    }
  }

  lemma {:induction false} LinkKeeps(q: Queue, t: ThreadId)
    requires q.Valid() && t in q.sending && q.sending[t].copied
    ensures Link(q, t).Valid()
    ensures |q.queued| < |q.place| <= ENTRY_MAX
  {
    AppendKeeps(q, t);
    WakeReceiverKeeps(Append(q, t));
  }

  lemma {:induction false} GiveBackKeeps(q: Queue, t: ThreadId)
    requires q.Valid() && t in q.receiving
    ensures GiveBack(q, t).Valid()
  {
    FreeKeeps(q, t);
    WakeSenderKeeps(Free(q, t));
  }

  lemma {:induction false} TimeoutKeeps(q: Queue, t: ThreadId)
    requires q.Valid()
    ensures t in q.senders ==> q.(senders := Without(q.senders, t)).Valid()
    ensures t in q.receivers ==> q.(receivers := Without(q.receivers, t)).Valid()
  {
    if t in q.senders {
      WithoutMembers(q.senders, t);
      LeaveKeeps(q, q.(senders := Without(q.senders, t)));
    }
    if t in q.receivers {
      WithoutMembers(q.receivers, t);
      LeaveKeeps(q, q.(receivers := Without(q.receivers, t)));
    }
  }

  lemma {:induction false} ApplyKeeps(q: Queue, a: Action)
    requires q.Valid()
    ensures Apply(q, a).Valid()
  {
    hide Queue.Consistent;
    match a {
      case Send(t, buffer, urgent, mayWait, pos) =>
        if q.Idle(t) && |buffer| <= q.msgSize {
          TrySendKeeps(q, t, buffer, urgent, mayWait && !urgent, pos);
        }
      case ResumeSend(t, buffer, timeLeft, pos) =>
        if |buffer| <= q.msgSize { ResumeKeeps(q, t, buffer, 0, timeLeft, pos); }
      case SendCopy(t) => if t in q.sending { CopyInKeeps(q, t); }
      case SendLink(t) => if t in q.sending && q.sending[t].copied { LinkKeeps(q, t); }
      case SendTimeout(t) => TimeoutKeeps(q, t);
      case Recv(t, size, mayWait, pos) => if q.Idle(t) { TryRecvKeeps(q, t, size, mayWait, pos); }
      case ResumeRecv(t, size, timeLeft, pos) => ResumeKeeps(q, t, [], size, timeLeft, pos);
      case RecvCopy(t) => if t in q.receiving { CopyOutKeeps(q, t); }
      case RecvGiveBack(t) => if t in q.receiving { GiveBackKeeps(q, t); }
      case RecvTimeout(t) => TimeoutKeeps(q, t);
      case ResetAll => ResetKeeps(q);
    }
  }

  ghost function Run(q: Queue, actions: seq<Action>): Queue
    requires q.Valid()
    decreases actions
  {
    if actions == [] then q else ApplyKeeps(q, actions[0]); Run(Apply(q, actions[0]), actions[1..])
  }

  /** Whatever the interleaving: nodes stay partitioned, messages intact, receives follow the
    * deque order of the sends, and no wake-up is lost. */
  lemma {:induction false} EveryRun(q: Queue, actions: seq<Action>)
    requires q.Valid()
    ensures Run(q, actions).Valid()
    decreases actions
  {
    if actions != [] {
      ApplyKeeps(q, actions[0]);
      EveryRun(Apply(q, actions[0]), actions[1..]);
    }
  }

  function Fresh(msgSize: nat, nodes: nat): Queue {
    Queue(msgSize, seq(nodes, i => seq(msgSize, j => 0)), [],
          seq(nodes, i requires 0 <= i < nodes => nodes - 1 - i),
          seq(nodes, i => Place.Free), seq(nodes, i => []), [], [], {}, {}, map[], map[], [])
  }

  lemma {:induction false} FreshIsValid(msgSize: nat, nodes: nat)
    requires nodes <= ENTRY_MAX
    ensures Fresh(msgSize, nodes).Valid()
  {
    var q := Fresh(msgSize, nodes);
    forall n: nat | n < nodes ensures q.Located(n) {
      assert q.unused[nodes - 1 - n] == n;
    }
    assert q.Deque() == [];
  }

  // ---------- what a history with a deque means ----------

  /** What a receiver has copied is the message it took, as far as both reach. */
  lemma {:induction false} Delivered(q: Queue, t: ThreadId)
    requires q.Valid() && t in q.receiving && q.receiving[t].copied
    ensures var into := q.receiving[t];
            && |into.buffer| == (if into.size > q.msgSize then q.msgSize else into.size)
            && (forall i :: 0 <= i < |into.buffer| && i < |into.message| ==> into.buffer[i] == into.message[i])
            && (into.size >= q.msgSize ==> into.message <= into.buffer)
  {
    var into := q.receiving[t];
    assert q.Holds(into.node);
    assert forall i :: 0 <= i < |into.message| ==> q.area[into.node][..|into.message|][i] == q.area[into.node][i];
  }

  function Sents(log: seq<Event>): seq<Bytes> {
    if log == [] then []
    else
      var rest, last := Sents(log[..|log| - 1]), log[|log| - 1];
      if last.Sent? then rest + [last.message] else rest
  }

  function Receipts(log: seq<Event>): seq<Bytes> {
    if log == [] then []
    else
      var rest, last := Receipts(log[..|log| - 1]), log[|log| - 1];
      if last.Received? then rest + [last.message] else rest
  }

  /** Without urgent messages and resets, what has been received is a prefix of what has been
    * sent, and the queue holds the rest in order. */
  lemma {:induction false} FifoOrder(log: seq<Event>)
    requires Replay(log).Some?
    requires forall e <- log :: !e.Cleared? && !(e.Sent? && e.urgent)
    ensures Sents(log) == Receipts(log) + Replay(log).value
  {
    if log != [] {
      var before, last := log[..|log| - 1], log[|log| - 1];
      assert last in log && forall e <- before :: e in log;
      FifoOrder(before);
      var deque := Replay(before).value;
      if last.Received? {
        Regroup(Receipts(before), [deque[0]], deque[1..]);
        assert deque == [deque[0]] + deque[1..];
      } else {
        Regroup(Receipts(before), deque, [last.message]);
      }
    }
  }

  lemma {:induction false} CountIn<T>(sents: seq<T>, receipts: seq<T>, deque: seq<T>, x: T)
    requires multiset(sents) == multiset(receipts) + multiset(deque)
    ensures multiset(sents + [x]) == multiset(receipts) + multiset(deque + [x])
    ensures multiset(sents + [x]) == multiset(receipts) + multiset([x] + deque)
  {
  }

  lemma {:induction false} CountOut<T>(sents: seq<T>, receipts: seq<T>, deque: seq<T>)
    requires multiset(sents) == multiset(receipts) + multiset(deque) && deque != []
    ensures multiset(sents) == multiset(receipts + [deque[0]]) + multiset(deque[1..])
  {
    assert deque == [deque[0]] + deque[1..];
  }

  /** Urgent messages only change the order: without resets nothing is lost or invented. */
  lemma {:induction false} Conservation(log: seq<Event>)
    requires Replay(log).Some?
    requires forall i :: 0 <= i < |log| ==> !log[i].Cleared?
    ensures multiset(Sents(log)) == multiset(Receipts(log)) + multiset(Replay(log).value)
  {
    if log != [] {
      var before, last := log[..|log| - 1], log[|log| - 1];
      Conservation(before);
      var deque := Replay(before).value;
      if last.Sent? {
        CountIn(Sents(before), Receipts(before), deque, last.message);
      } else {
        CountOut(Sents(before), Receipts(before), deque);
      }
    }
  }
}
