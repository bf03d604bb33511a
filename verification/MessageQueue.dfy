/** The linked message queue of src/ipc.c; each method is one atomic section or the unlocked copy. */
module MessageQueues {
  import opened Lists
  import opened MessageQueueModel
  import opened Options

  const NULL := -1

  datatype Status = Done | Asleep | Error | Full | TimedOut

  /** What follows the `i`-th node of a list. */
  function Succ(s: seq<nat>, i: nat): int
    requires i < |s|
  {
    if i == |s| - 1 then NULL else s[i + 1]
  }

  /** `first` leads through `next` to exactly the nodes of `s` and then to NULL. */
  ghost predicate IsList(next: seq<int>, first: int, s: seq<nat>) {
    && (forall i :: 0 <= i < |s| ==> s[i] < |next| && next[s[i]] == Succ(s, i))
    && first == (if s == [] then NULL else s[0])
  }

  function Last(s: seq<nat>): int {
    if s == [] then NULL else s[|s| - 1]
  }

  lemma {:induction false} ListUnaffected(next: seq<int>, first: int, s: seq<nat>, x: nat, y: int)
    requires IsList(next, first, s) && x < |next| && x !in s
    ensures IsList(next[x := y], first, s)
  {
  }

  lemma {:induction false} ListAppend(next: seq<int>, first: int, s: seq<nat>, x: nat)
    requires IsList(next, first, s) && NoDuplicates(s) && x < |next| && x !in s && next[x] == NULL
    ensures s != [] ==> IsList(next[s[|s| - 1] := x], first, s + [x])
    ensures s == [] ==> IsList(next, x, s + [x])
  {
  }

  lemma {:induction false} ListPush(next: seq<int>, first: int, s: seq<nat>, x: nat)
    requires IsList(next, first, s) && x < |next| && x !in s
    ensures IsList(next[x := first], x, [x] + s)
  {
    var r := [x] + s;
    forall i | 0 <= i < |r| ensures r[i] < |next| && next[x := first][r[i]] == Succ(r, i) {
      if i > 0 {
        assert r[i] == s[i - 1] && s[i - 1] in s && next[s[i - 1]] == Succ(s, i - 1);
      }
    }
  }

  lemma {:induction false} ListPop(next: seq<int>, first: int, s: seq<nat>)
    requires IsList(next, first, s) && s != []
    ensures 0 <= first < |next| && first == s[0] && IsList(next, next[first], s[1..])
  {
    var r := s[1..];
    assert next[s[0]] == Succ(s, 0);
    forall i | 0 <= i < |r| ensures r[i] < |next| && next[r[i]] == Succ(r, i) {
      assert r[i] == s[i + 1] && next[s[i + 1]] == Succ(s, i + 1);
    }
  }

  /** A node that a thread holds is on neither list. */
  lemma {:induction false} InFlight(q: Queue, t: ThreadId, n: nat)
    requires q.Consistent()
    requires (t in q.sending && q.sending[t].node == n) || (t in q.receiving && q.receiving[t].node == n)
    ensures |q.area| == |q.place| == |q.payload| && n < |q.place|
    ensures n !in q.queued && n !in q.unused
    ensures t in q.sending ==> |q.sending[t].buffer| <= |q.area[n]|
    ensures forall u :: u in q.sending && u != t ==> q.sending[u].node != n
    ensures t in q.receiving ==> t !in q.sending
  {
  }

  lemma {:induction false} FirstIs(next: seq<int>, first: int, s: seq<nat>)
    requires IsList(next, first, s)
    ensures first == if s == [] then NULL else s[0]
  {
  }

  lemma {:induction false} EmptyList(next: seq<int>, first: int)
    requires IsList(next, first, [])
    ensures first == NULL
  {
  }

  lemma {:induction false} TerminatedAt(q: Queue, next: seq<int>, t: ThreadId)
    requires Terminated(q, next) && t in q.sending && q.sending[t].copied && !q.sending[t].urgent
    ensures q.sending[t].node < |next| && next[q.sending[t].node] == NULL
  {
  }

  lemma {:induction false} Apart(q: Queue)
    requires q.Consistent()
    ensures NoDuplicates(q.queued) && forall n <- q.queued :: n !in q.unused
    ensures q.queued != [] ==> q.queued[0] < |q.place|
    ensures q.unused != [] ==> q.unused[0] < |q.place|
  {
    assert q.queued != [] ==> q.queued[0] in q.queued;
    assert q.unused != [] ==> q.unused[0] in q.unused;
  }

  /** A message on its way to the tail already ends the list. */
  ghost predicate Terminated(q: Queue, next: seq<int>) {
    forall t :: t in q.sending && q.sending[t].copied && !q.sending[t].urgent ==>
      q.sending[t].node < |next| && next[q.sending[t].node] == NULL
  }

  /** Links of queued nodes and of `x` may change without touching messages in flight. */
  lemma {:induction false} StillTerminated(q: Queue, r: Queue, before: seq<int>, after: seq<int>, x: int)
    requires q.Consistent() && Terminated(q, before) && |after| == |before|
    requires forall n :: 0 <= n < |before| && n !in q.queued && n != x ==> after[n] == before[n]
    requires forall t :: t in r.sending && r.sending[t].copied ==> t in q.sending && r.sending[t] == q.sending[t] && q.sending[t].node != x
    ensures Terminated(r, after)
  {
  }

  lemma {:induction false} TerminatedCopy(q: Queue, t: ThreadId, before: seq<int>, after: seq<int>)
    requires q.Consistent() && Terminated(q, before) && t in q.sending
    requires var n := q.sending[t].node; n < |q.area| && n < |q.payload| && |q.sending[t].buffer| <= |q.area[n]|
    requires q.sending[t].node < |before|
    requires after == if q.sending[t].urgent then before else before[q.sending[t].node := NULL]
    ensures Terminated(CopyIn(q, t), after)
  {
  }

  class MessageQueue {
    const msgSize: nat
    // the message pool: per node the link and the payload area
    var next: seq<int>
    var pool: seq<Bytes>
    var head: int
    var tail: int
    var free: int
    var entry: nat
    var receivers: seq<ThreadId>
    var senders: seq<ThreadId>
    ghost var model: Queue

    /** The fields represent the state `model` of the transition system. */
    ghost predicate Represents()
      reads this
    {
      && model.msgSize == msgSize && model.area == pool && |next| == |model.place|
      && model.receivers == receivers && model.senders == senders
      && Hold(model.queued, model.unused)
      && Terminated(model, next)
    }

    ghost predicate Valid()
      reads this
    {
      model.Valid() && Represents()
    }

    ghost predicate Hold(queued: seq<nat>, unused: seq<nat>)
      reads this
    {
      && IsList(next, head, queued)
      && IsList(next, free, unused)
      && tail == Last(queued)
      && entry == |queued|
    }

    /** `rt_mq_init`: every node is pushed on the free list in turn. */
    constructor (msgSize: nat, maxMsgs: nat)
      requires 0 < maxMsgs <= ENTRY_MAX
      ensures Valid() && model == Fresh(msgSize, maxMsgs)
    {
      this.msgSize := msgSize;
      pool := seq(maxMsgs, i => seq(msgSize, j => 0));
      head, tail, entry, receivers, senders := NULL, NULL, 0, [], [];
      var links: seq<int> := seq(maxMsgs, i => NULL);
      var first := NULL;
      for temp := 0 to maxMsgs
        invariant |links| == maxMsgs && first == temp - 1
        invariant forall i :: 0 <= i < temp ==> links[i] == i - 1
      {
        links := links[temp := first];
        first := temp;
      }
      next, free := links, first;
      model := Fresh(msgSize, maxMsgs);
      new;
      FreshIsValid(msgSize, maxMsgs);
    }

    // ---------- list surgery under the lock ----------

    method PopFree(ghost queued: seq<nat>, ghost unused: seq<nat>) returns (msg: nat)
      requires Hold(queued, unused) && free != NULL
      modifies this`free
      ensures unused != [] && msg == unused[0] && Hold(queued, unused[1..])
    {
      ListPop(next, free, unused);
      msg := free;
      free := next[msg];
    }

    method PushFree(ghost queued: seq<nat>, ghost unused: seq<nat>, msg: nat)
      requires Hold(queued, unused) && msg < |next| && msg !in queued && msg !in unused
      modifies this`free, this`next
      ensures Hold(queued, [msg] + unused)
      ensures next == old(next)[msg := next[msg]]
    {
      ListPush(next, free, unused, msg);
      ListUnaffected(next, head, queued, msg, free);
      next := next[msg := free];
      free := msg;
    }

    /** Link `msg` behind the tail; the entry counter cannot overflow. */
    method PushTail(ghost queued: seq<nat>, ghost unused: seq<nat>, msg: nat) returns (ok: bool)
      requires Hold(queued, unused) && msg < |next| && msg !in queued && msg !in unused
      requires next[msg] == NULL && NoDuplicates(queued) && |queued| < ENTRY_MAX
      requires forall n <- queued :: n !in unused
      modifies this`head, this`tail, this`next, this`entry
      ensures ok && Hold(queued + [msg], unused)
      ensures |next| == |old(next)| && forall n :: 0 <= n < |next| && n !in queued ==> next[n] == old(next)[n]
    {
      ListAppend(next, head, queued, msg);
      if tail != NULL {
        assert queued[|queued| - 1] in queued;
        ListUnaffected(next, free, unused, tail, msg);
        next := next[tail := msg];
      }
      tail := msg;
      if head == NULL {
        head := msg;
      }
      ok := entry < ENTRY_MAX;
      if ok {
        entry := entry + 1;
      }
    }

    /** Link `msg` before the head; the entry counter cannot overflow. */
    method PushHead(ghost queued: seq<nat>, ghost unused: seq<nat>, msg: nat) returns (ok: bool)
      requires Hold(queued, unused) && msg < |next| && msg !in queued && msg !in unused
      requires |queued| < ENTRY_MAX
      modifies this`head, this`tail, this`next, this`entry
      ensures ok && Hold([msg] + queued, unused)
      ensures next == old(next)[msg := next[msg]]
    {
      ListPush(next, head, queued, msg);
      ListUnaffected(next, free, unused, msg, head);
      next := next[msg := head];
      head := msg;
      if tail == NULL {
        tail := msg;
      }
      ok := entry < ENTRY_MAX;
      if ok {
        entry := entry + 1;
      }
    }

    method PopHead(ghost queued: seq<nat>, ghost unused: seq<nat>) returns (msg: nat)
      requires Hold(queued, unused) && entry > 0 && NoDuplicates(queued)
      modifies this`head, this`tail, this`entry
      ensures msg == queued[0] && Hold(queued[1..], unused)
    {
      hide IsList;
      FirstIs(next, head, queued);
      ListPop(next, head, queued);
      msg := head;
      head := next[msg];
      if tail == msg {
        tail := NULL;
      }
      if entry > 0 {
        entry := entry - 1;
      }
    }

    method MoveHeadToFree(ghost rest: seq<nat>, ghost unused: seq<nat>)
      requires IsList(next, head, rest) && IsList(next, free, unused) && tail == Last(rest) && head != NULL
      requires rest != [] && rest[0] !in rest[1..] && rest[0] !in unused
      modifies this`head, this`tail, this`next, this`free
      ensures IsList(next, head, rest[1..]) && IsList(next, free, [rest[0]] + unused)
      ensures tail == if Last(rest) == rest[0] then NULL else Last(rest)
      ensures rest[0] < |old(next)| && next == old(next)[rest[0] := next[rest[0]]]
    {
      ListPop(next, head, rest);
      var msg := head;
      head := next[msg];
      if tail == msg {
        tail := NULL;
      }
      ListPush(next, free, unused, msg);
      ListUnaffected(next, head, rest[1..], msg, free);
      next := next[msg := free];
      free := msg;
    }

    /** The loop of RT_IPC_CMD_RESET: move every queued node to the free list. */
    method FreeAll(ghost queued: seq<nat>, ghost unused: seq<nat>)
      requires Hold(queued, unused) && NoDuplicates(queued) && forall n <- queued :: n !in unused
      modifies this`head, this`tail, this`next, this`free, this`entry
      ensures Hold([], Reverse(queued) + unused)
      ensures |next| == |old(next)| && forall n :: 0 <= n < |next| && n !in queued ==> next[n] == old(next)[n]
    {
      hide NoDuplicates;
      ghost var k := 0;
      ghost var rest, freed := queued, unused;
      assert freed == Freed(queued, unused, 0);
      while head != NULL
        invariant k <= |queued| && rest == queued[k..] && freed == Freed(queued, unused, k)
        invariant |next| == |old(next)|
        invariant IsList(next, head, rest) && IsList(next, free, freed) && tail == Last(rest)
        invariant forall n :: 0 <= n < |next| && n !in queued ==> next[n] == old(next)[n]
        decreases |queued| - k
      {
        FreeStep(queued, unused, k);
        MoveHeadToFree(rest, freed);
        k, rest, freed := k + 1, rest[1..], [rest[0]] + freed;
      }
      assert queued[..k] == queued;
      entry := 0;
    }

    // ---------- the sections ----------

    /** First section of `_rt_mq_send_wait` and `rt_mq_urgent`: claim a free node, or sleep, or give up.
      * `pos` is where the order of the wait list puts the thread. */
    method SendClaim(t: ThreadId, buffer: Bytes, urgent: bool, mayWait: bool, pos: nat) returns (status: Status, msg: int)
      requires Valid() && model.Idle(t) && buffer != [] && (urgent ==> !mayWait) && pos <= |senders|
      modifies this`free, this`senders, this`model
      ensures Valid()
      ensures model == Apply(old(model), Send(t, buffer, urgent, mayWait, pos))
      ensures status == Error <==> |buffer| > msgSize
      ensures status == Done <==> |buffer| <= msgSize && old(free) != NULL
      ensures status == Done ==> t in model.sending && msg == model.sending[t].node
      ensures status == Asleep ==> t in senders
      ensures status == if |buffer| > msgSize then Error else if old(free) != NULL then Done else if mayWait then Asleep else Full
      ensures senders == if status == Asleep then Insert(old(senders), pos, t) else old(senders)
      ensures status == Done ==> msg == old(free) && model.sending == old(model.sending)[t := Outgoing(msg, buffer, urgent, false)]
      ensures status != Done ==> model.sending == old(model.sending)
      ensures model.wokenSenders == old(model.wokenSenders)
      ensures model.queued == old(model.queued) && model.payload == old(model.payload) && model.log == old(model.log)
      ensures model.receiving == old(model.receiving) && model.wokenReceivers == old(model.wokenReceivers)
    {
      hide Queue.Consistent;
      hide IsList, Terminated, NoDuplicates;
      FirstIs(next, free, model.unused);
      Apart(model);
      msg := NULL;
      if |buffer| > msgSize {
        return Error, msg;
      }
      TrySendKeeps(model, t, buffer, urgent, mayWait, pos);
      model := TrySend(model, t, buffer, urgent, mayWait, pos);
      StillTerminated(old(model), model, next, next, NULL);
      status, msg := ClaimOrSleep(old(model), t, mayWait, pos);
    }

    /** What both rounds of the loop have in common. */
    method ClaimOrSleep(ghost q: Queue, t: ThreadId, mayWait: bool, pos: nat) returns (status: Status, msg: int)
      requires Hold(q.queued, q.unused) && pos <= |senders|
      modifies this`free, this`senders
      ensures status == Done <==> old(free) != NULL
      ensures status == Done ==> q.unused != [] && msg == q.unused[0] && Hold(q.queued, q.unused[1..])
      ensures status != Done ==> q.unused == [] && Hold(q.queued, q.unused)
      ensures status == Asleep <==> old(free) == NULL && mayWait
      ensures status == Asleep || status == Done || status == Full
      ensures senders == if status == Asleep then Insert(old(senders), pos, t) else old(senders)
      ensures status == Asleep ==> t in senders
    {
      msg := NULL;
      if free == NULL {
        if !mayWait {
          return Full, msg;
        }
        senders := Insert(senders, pos, t);
        assert senders[pos] == t;
        return Asleep, msg;
      }
      msg := PopFree(q.queued, q.unused);
      status := Done;
    }

    /** A woken sender goes round the loop of `_rt_mq_send_wait` again. */
    method SendResume(t: ThreadId, buffer: Bytes, timeLeft: bool, pos: nat) returns (status: Status, msg: int)
      requires Valid() && t in model.wokenSenders && |buffer| <= msgSize && pos <= |senders|
      modifies this`free, this`senders, this`model
      ensures Valid()
      ensures model == Apply(old(model), ResumeSend(t, buffer, timeLeft, pos))
      ensures status == Done <==> old(free) != NULL
      ensures status == Done ==> t in model.sending && msg == model.sending[t].node
      ensures status == Asleep ==> t in senders
      ensures status == if old(free) != NULL then Done else if timeLeft then Asleep else Full
      ensures senders == if status == Asleep then Insert(old(senders), pos, t) else old(senders)
      ensures status == Done ==> msg == old(free) && model.sending == old(model.sending)[t := Outgoing(msg, buffer, false, false)]
      ensures status != Done ==> model.sending == old(model.sending)
      ensures model.wokenSenders == old(model.wokenSenders) - {t}
      ensures model.queued == old(model.queued) && model.payload == old(model.payload) && model.log == old(model.log)
      ensures model.receiving == old(model.receiving) && model.wokenReceivers == old(model.wokenReceivers)
    {
      hide Queue.Consistent;
      hide IsList, Terminated, NoDuplicates;
      FirstIs(next, free, model.unused);
      Apart(model);
      ghost var q := model;
      ResumeKeeps(q, t, buffer, 0, timeLeft, pos);
      model := TrySend(RunSender(q, t), t, buffer, false, timeLeft, pos);
      StillTerminated(q, model, next, next, NULL);
      status, msg := ClaimOrSleep(q, t, timeLeft, pos);
    }

    /** Between the sections, without the lock: fill the claimed node; a message for the tail ends the list. */
    method CopyMessageIn(t: ThreadId, msg: nat, buffer: Bytes, urgent: bool)
      requires Valid() && t in model.sending
      requires model.sending[t].node == msg && model.sending[t].buffer == buffer && model.sending[t].urgent == urgent
      modifies this`next, this`pool, this`model
      ensures Valid()
      ensures model == Apply(old(model), SendCopy(t))
      ensures msg < |old(pool)| && |buffer| <= |old(pool)[msg]|
      ensures pool == old(pool)[msg := buffer + old(pool)[msg][|buffer|..]]
      ensures model.sending == old(model.sending)[t := Outgoing(msg, buffer, urgent, true)]
      ensures model.Deque() == old(model.Deque()) && model.receiving == old(model.receiving)
    {
      hide Queue.Consistent;
      hide IsList, Terminated, NoDuplicates;
      Apart(model);
      ghost var q := model;
      CopyInKeeps(q, t);
      InFlight(q, t, msg);
      ListUnaffected(next, head, q.queued, msg, NULL);
      ListUnaffected(next, free, q.unused, msg, NULL);
      if !urgent {
        next := next[msg := NULL];
      }
      pool := pool[msg := Overwrite(pool[msg], buffer)];
      model := CopyIn(q, t);
      TerminatedCopy(q, t, old(next), next);
    }

    /** Wake the first sleeping receiver. */
    method ResumeReceiver()
      modifies this`receivers
      ensures receivers == if old(receivers) == [] then [] else old(receivers)[1..]
    {
      if receivers != [] {
        receivers := receivers[1..];
      }
    }

    /** Second section of a send: link the message at the tail, an urgent one at the head,
      * count it and wake a receiver. The overflow branch is never taken. */
    method LinkMessage(t: ThreadId, msg: nat, urgent: bool) returns (status: Status)
      requires Valid() && t in model.sending && model.sending[t].copied
      requires model.sending[t].node == msg && model.sending[t].urgent == urgent
      modifies this`head, this`tail, this`next, this`entry, this`receivers, this`model
      ensures Valid()
      ensures model == Apply(old(model), SendLink(t))
      ensures status == Done && entry == old(entry) + 1
      ensures var buffer := old(model.sending[t].buffer);
        model.Deque() == if urgent then [buffer] + old(model.Deque()) else old(model.Deque()) + [buffer]
      ensures model.sending == old(model.sending) - {t} && model.receiving == old(model.receiving)
      ensures old(receivers) == [] ==> receivers == [] && model.wokenReceivers == old(model.wokenReceivers)
      ensures old(receivers) != [] ==>
        receivers == old(receivers)[1..] && model.wokenReceivers == old(model.wokenReceivers) + {old(receivers)[0]}
    {
      hide Queue.Consistent;
      hide IsList, Terminated, NoDuplicates;
      Apart(model);
      ghost var q := model;
      LinkKeeps(q, t);
      InFlight(q, t, msg);
      var ok;
      if urgent {
        ok := PushHead(q.queued, q.unused, msg);
      } else {
        TerminatedAt(q, next, t);
        ok := PushTail(q.queued, q.unused, msg);
      }
      StillTerminated(q, Link(q, t), old(next), next, msg);
      if !ok {
        return Full;
      }
      ResumeReceiver();
      model := Link(q, t);
      status := Done;
      LinkDeque(q, t);
    }

    method TakeOrSleep(ghost q: Queue, t: ThreadId, mayWait: bool, pos: nat) returns (status: Status, msg: int)
      requires Hold(q.queued, q.unused) && pos <= |receivers| && NoDuplicates(q.queued)
      modifies this`head, this`tail, this`entry, this`receivers
      ensures status == Done <==> q.queued != []
      ensures status == Done ==> msg == q.queued[0] && Hold(q.queued[1..], q.unused)
      ensures status != Done ==> Hold(q.queued, q.unused)
      ensures status == Asleep <==> q.queued == [] && mayWait
      ensures status == Asleep || status == Done || status == TimedOut
      ensures receivers == if status == Asleep then Insert(old(receivers), pos, t) else old(receivers)
      ensures status == Asleep ==> t in receivers
    {
      msg := NULL;
      if entry == 0 {
        if !mayWait {
          return TimedOut, msg;
        }
        receivers := Insert(receivers, pos, t);
        assert receivers[pos] == t;
        return Asleep, msg;
      }
      msg := PopHead(q.queued, q.unused);
      status := Done;
    }

    /** First section of `_rt_mq_recv`: take the first message, or sleep, or give up. */
    method RecvTake(t: ThreadId, size: nat, mayWait: bool, pos: nat) returns (status: Status, msg: int)
      requires Valid() && model.Idle(t) && size > 0 && pos <= |receivers|
      modifies this`head, this`tail, this`entry, this`receivers, this`model
      ensures Valid()
      ensures model == Apply(old(model), Recv(t, size, mayWait, pos))
      ensures status == Done <==> old(entry) > 0
      ensures status == Done ==> t in model.receiving && msg == model.receiving[t].node
      ensures status == Asleep ==> t in receivers
      ensures status == if old(entry) > 0 then Done else if mayWait then Asleep else TimedOut
      ensures model.wokenReceivers == old(model.wokenReceivers)
      ensures receivers == if status == Asleep then Insert(old(receivers), pos, t) else old(receivers)
      ensures status == Done ==>
        && old(model.Deque()) != [] && msg == old(head) && model.Deque() == old(model.Deque())[1..]
        && model.receiving == old(model.receiving)[t := Incoming(msg, old(model.Deque())[0], size, [], false)]
      ensures status != Done ==> model.Deque() == old(model.Deque()) && model.receiving == old(model.receiving)
      ensures model.sending == old(model.sending) && model.wokenSenders == old(model.wokenSenders)
    {
      hide Queue.Consistent;
      hide IsList, Terminated, NoDuplicates;
      FirstIs(next, head, model.queued);
      Apart(model);
      ghost var q := model;
      TryRecvKeeps(q, t, size, mayWait, pos);
      model := TryRecv(q, t, size, mayWait, pos);
      StillTerminated(q, model, next, next, NULL);
      status, msg := TakeOrSleep(q, t, mayWait, pos);
      TryRecvDeque(q, t, size, mayWait, pos);
    }

    /** A woken receiver goes round the loop of `_rt_mq_recv` again. */
    method RecvResume(t: ThreadId, size: nat, timeLeft: bool, pos: nat) returns (status: Status, msg: int)
      requires Valid() && t in model.wokenReceivers && size > 0 && pos <= |receivers|
      modifies this`head, this`tail, this`entry, this`receivers, this`model
      ensures Valid()
      ensures model == Apply(old(model), ResumeRecv(t, size, timeLeft, pos))
      ensures status == Done <==> old(entry) > 0
      ensures status == Done ==> t in model.receiving && msg == model.receiving[t].node
      ensures status == Asleep ==> t in receivers
      ensures status == if old(entry) > 0 then Done else if timeLeft then Asleep else TimedOut
      ensures model.wokenReceivers == old(model.wokenReceivers) - {t}
      ensures receivers == if status == Asleep then Insert(old(receivers), pos, t) else old(receivers)
      ensures status == Done ==>
        && old(model.Deque()) != [] && msg == old(head) && model.Deque() == old(model.Deque())[1..]
        && model.receiving == old(model.receiving)[t := Incoming(msg, old(model.Deque())[0], size, [], false)]
      ensures status != Done ==> model.Deque() == old(model.Deque()) && model.receiving == old(model.receiving)
      ensures model.sending == old(model.sending) && model.wokenSenders == old(model.wokenSenders)
    {
      hide Queue.Consistent;
      hide IsList, Terminated, NoDuplicates;
      FirstIs(next, head, model.queued);
      RunReceiverIdle(model, t);
      Apart(model);
      ghost var q := model;
      ResumeKeeps(q, t, [], size, timeLeft, pos);
      model := TryRecv(RunReceiver(q, t), t, size, timeLeft, pos);
      StillTerminated(q, model, next, next, NULL);
      status, msg := TakeOrSleep(q, t, timeLeft, pos);
      TryRecvDeque(RunReceiver(q, t), t, size, timeLeft, pos);
      SameDeque(q, RunReceiver(q, t));
    }

    /** Between the sections, without the lock: copy the message out. */
    method CopyMessageOut(t: ThreadId, msg: nat, size: nat) returns (buffer: Bytes)
      requires Valid() && t in model.receiving && model.receiving[t].node == msg && model.receiving[t].size == size
      modifies this`model
      ensures Valid()
      ensures model == Apply(old(model), RecvCopy(t))
      ensures var message := old(model).receiving[t].message;
              && |buffer| == (if size > msgSize then msgSize else size)
              && forall i :: 0 <= i < |buffer| && i < |message| ==> buffer[i] == message[i]
      ensures model.receiving == old(model.receiving)[t := old(model.receiving)[t].(copied := true, buffer := buffer)]
      ensures model.Deque() == old(model.Deque()) && model.sending == old(model.sending)
    {
      hide Queue.Consistent;
      hide IsList, Terminated, NoDuplicates;
      Apart(model);
      ghost var q := model;
      CopyOutKeeps(q, t);
      InFlight(q, t, msg);
      Delivered(CopyOut(q, t), t);
      buffer := pool[msg][..if size > msgSize then msgSize else size];
      StillTerminated(q, CopyOut(q, t), next, next, NULL);
      model := CopyOut(q, t);
    }

    /** Second section of a receive: push the node on the free list and wake a sender. */
    method ReturnNode(t: ThreadId, msg: nat)
      requires Valid() && t in model.receiving && model.receiving[t].copied && model.receiving[t].node == msg
      modifies this`next, this`free, this`senders, this`model
      ensures Valid()
      ensures model == Apply(old(model), RecvGiveBack(t))
      ensures free == msg && model.receiving == old(model.receiving) - {t} && model.sending == old(model.sending)
      ensures model.Deque() == old(model.Deque())
      ensures old(senders) == [] ==> senders == [] && model.wokenSenders == old(model.wokenSenders)
      ensures old(senders) != [] ==>
        senders == old(senders)[1..] && model.wokenSenders == old(model.wokenSenders) + {old(senders)[0]}
    {
      hide Queue.Consistent;
      hide IsList, Terminated, NoDuplicates;
      Apart(model);
      ghost var q := model;
      GiveBackKeeps(q, t);
      InFlight(q, t, msg);
      PushFree(q.queued, q.unused, msg);
      FirstIs(next, free, [msg] + q.unused);
      StillTerminated(q, GiveBack(q, t), old(next), next, msg);
      if senders != [] {
        senders := senders[1..];
      }
      model := GiveBack(q, t);
      GiveBackDeque(q, t);
    }

    /** The timer of a sleeping thread fires (`_thread_timeout`). */
    method Timeout(t: ThreadId)
      requires Valid() && (t in receivers || t in senders)
      modifies this`receivers, this`senders, this`model
      ensures Valid()
      ensures model == Apply(old(model), if t in old(receivers) then RecvTimeout(t) else SendTimeout(t))
      ensures receivers == (if t in old(receivers) then Without(old(receivers), t) else old(receivers))
      ensures senders == (if t in old(receivers) then old(senders) else Without(old(senders), t))
      ensures model == old(model).(receivers := receivers, senders := senders)
    {
      hide Queue.Consistent;
      hide IsList, Terminated, NoDuplicates;
      Apart(model);
      ghost var q := model;
      TimeoutKeeps(q, t);
      if t in receivers {
        receivers := Without(receivers, t);
        model := q.(receivers := receivers);
        StillTerminated(q, model, next, next, NULL);
      } else {
        senders := Without(senders, t);
        model := q.(senders := senders);
        StillTerminated(q, model, next, next, NULL);
      }
    }

    /** `rt_mq_control(RT_IPC_CMD_RESET)`: every sleeper leaves, every queued node is freed. */
    method ResetQueue()
      requires Valid()
      modifies this`receivers, this`senders, this`head, this`tail, this`next, this`free, this`entry, this`model
      ensures Valid()
      ensures model == Apply(old(model), ResetAll)
      ensures entry == 0 && head == NULL && receivers == [] && senders == []
      ensures model.Deque() == [] && model.sending == old(model.sending) && model.receiving == old(model.receiving)
      ensures model.wokenReceivers == old(model.wokenReceivers) && model.wokenSenders == old(model.wokenSenders)
    {
      hide Queue.Consistent;
      hide IsList, Terminated, NoDuplicates;
      Apart(model);
      ghost var q := model;
      ResetKeeps(q);
      receivers, senders := [], [];
      FreeAll(q.queued, q.unused);
      EmptyList(next, head);
      StillTerminated(q, Reset(q), old(next), next, NULL);
      model := Reset(q);
    }
  }

  /** The free list once the first `k` queued nodes have moved to it. */
  ghost function Freed(queued: seq<nat>, unused: seq<nat>, k: nat): seq<nat>
    requires k <= |queued|
  {
    Reverse(queued[..k]) + unused
  }

  lemma {:induction false} ReverseAppend<T>(s: seq<T>, x: T)
    ensures Reverse(s + [x]) == [x] + Reverse(s)
  {
    if s != [] {
      ReverseAppend(s[1..], x);
      assert (s + [x])[1..] == s[1..] + [x];
    } else {
      assert s + [x] == [x];
    }
  }

  /** The node freed next is on neither of the two lists that shrink and grow. */
  lemma {:induction false} FreeStep(queued: seq<nat>, unused: seq<nat>, k: nat)
    requires NoDuplicates(queued) && (forall n <- queued :: n !in unused) && k < |queued|
    ensures var rest := queued[k..];
            && rest[0] in queued && rest[0] !in rest[1..] && rest[0] !in Freed(queued, unused, k)
            && rest[1..] == queued[k + 1..]
            && Last(rest[1..]) == (if Last(rest) == rest[0] then NULL else Last(rest))
            && Freed(queued, unused, k + 1) == [rest[0]] + Freed(queued, unused, k)
  {
    var done, rest := queued[..k], queued[k..];
    var x := rest[0];
    assert x == queued[k];
    ReverseMembers(done);
    ReverseAppend(done, x);
    assert queued[..k + 1] == done + [x];
    AppendMembers(Reverse(done), unused);
    forall i | 0 <= i < |done| ensures done[i] != x {
      assert done[i] == queued[i];
    }
    forall i | 0 <= i < |rest[1..]| ensures rest[1..][i] != x {
      assert rest[1..][i] == queued[k + 1 + i];
    }
    assert |rest| > 1 ==> rest[|rest| - 1] == queued[|queued| - 1];
  }
}
