/** Mailboxes (src/ipc.c): each method is one atomic section, run by a thread that comes for the first time or
    that has been woken. The pass through the waiting loop after a wake-up is the same section again. Timers and
    signals take a sleeper off its list without a grant. */
module Mailboxes {
  import opened Lists
  import opened Waiting

  type Value = nat // rt_ubase_t

  datatype Outcome = Done | Full | TimedOut | Asleep

  // Positions in the ring; x is less than twice the size.
  function Wrap(x: nat, size: nat): nat { if x >= size then x - size else x }

  // The entries of the ring from `out` on.
  function Contents(pool: seq<Value>, out: nat, entry: nat): (r: seq<Value>)
    requires entry <= |pool| && (out < |pool| || entry == 0)
    ensures |r| == entry
    decreases entry
  {
    if entry == 0 then [] else [pool[out]] + Contents(pool, Wrap(out + 1, |pool|), entry - 1)
  }

  lemma {:induction false} ContentsAt(pool: seq<Value>, out: nat, entry: nat, i: nat)
    requires i < entry <= |pool| && out < |pool|
    ensures Contents(pool, out, entry)[i] == pool[Wrap(out + i, |pool|)]
    decreases entry
  {
    if i > 0 {
      ContentsAt(pool, Wrap(out + 1, |pool|), entry - 1, i - 1);
      assert Wrap(Wrap(out + 1, |pool|) + (i - 1), |pool|) == Wrap(out + i, |pool|);
    }
  }

  lemma {:induction false} PushBack(pool: seq<Value>, out: nat, entry: nat, v: Value)
    requires entry < |pool| && out < |pool|
    ensures Contents(pool[Wrap(out + entry, |pool|) := v], out, entry + 1) == Contents(pool, out, entry) + [v]
  {
    hide Contents;
    var pool1 := pool[Wrap(out + entry, |pool|) := v];
    var a, b := Contents(pool1, out, entry + 1), Contents(pool, out, entry) + [v];
    forall i | 0 <= i < entry + 1 ensures a[i] == b[i] {
      ContentsAt(pool1, out, entry + 1, i);
      if i < entry { ContentsAt(pool, out, entry, i); }
    }
  }

  function Back(out: nat, size: nat): nat
    requires size > 0
  {
    if out > 0 then out - 1 else size - 1
  }

  lemma {:induction false} PushFront(pool: seq<Value>, out: nat, entry: nat, v: Value)
    requires entry < |pool| && out < |pool|
    ensures Contents(pool[Back(out, |pool|) := v], Back(out, |pool|), entry + 1) == [v] + Contents(pool, out, entry)
  {
    hide Contents;
    var front := Back(out, |pool|);
    var pool1 := pool[front := v];
    var a, b := Contents(pool1, front, entry + 1), [v] + Contents(pool, out, entry);
    forall i | 0 <= i < entry + 1 ensures a[i] == b[i] {
      ContentsAt(pool1, front, entry + 1, i);
      if i > 0 { ContentsAt(pool, out, entry, i - 1); }
    }
  }

  lemma {:induction false} PopFront(pool: seq<Value>, out: nat, entry: nat)
    requires 0 < entry <= |pool| && out < |pool|
    ensures Contents(pool, out, entry)[0] == pool[out]
    ensures Contents(pool, Wrap(out + 1, |pool|), entry - 1) == Contents(pool, out, entry)[1..]
  {
  }

  datatype Call =
    | Sending(t: ThreadId, value: Value, wait: bool, pos: nat)
    | Urging(value: Value)
    | Receiving(t: ThreadId, wait: bool, pos: nat)
    | GivingUp(t: ThreadId)
    | Resetting

  class Mailbox {
    const size: nat // rt_uint16_t
    var pool: seq<Value>
    var inOffset: nat
    var outOffset: nat
    var entry: nat
    var receivers: seq<ThreadId>
    var senders: seq<ThreadId>
    ghost var wokenReceivers: set<ThreadId>
    ghost var wokenSenders: set<ThreadId>

    // The ring: `entry` messages from outOffset on, up to inOffset.
    ghost predicate Ringed()
      reads this`pool, this`inOffset, this`outOffset, this`entry
    {
      && |pool| == size && entry <= size <= 0xFFFF
      && (if size == 0 then inOffset == outOffset == 0 else inOffset < size && outOffset < size)
      && inOffset == Wrap(outOffset + entry, size)
    }

    // The bounded deque the ring stands for.
    ghost function Messages(): seq<Value>
      requires Ringed()
      reads this`pool, this`inOffset, this`outOffset, this`entry
    {
      Contents(pool, outOffset, entry)
    }

    ghost predicate Valid()
      reads this
    {
      && Ringed()
      && Sound(receivers, wokenReceivers, entry)
      && Sound(senders, wokenSenders, size - entry)
    }

    constructor (size: nat)
      requires size <= 0xFFFF
      ensures Valid() && Messages() == [] && this.size == size && receivers == [] && senders == []
    {
      this.size := size;
      pool := seq(size, i => 0);
      inOffset := 0;
      outOffset := 0;
      entry := 0;
      receivers := [];
      senders := [];
      wokenReceivers := {};
      wokenSenders := {};
    }

    // rt_mb_send_wait: appends, or with a full mailbox sleeps, or gives up when it may not wait.
    method Send(t: ThreadId, value: Value, wait: bool, pos: nat) returns (r: Outcome)
      requires Valid() && t !in senders && pos <= |senders|
      modifies this`pool, this`inOffset, this`entry, this`receivers, this`senders, this`wokenReceivers, this`wokenSenders
      ensures Valid()
      ensures r == if |old(Messages())| < size then Done else if wait then Asleep else Full
      ensures Messages() == if r == Done then old(Messages()) + [value] else old(Messages())
      ensures senders == if r == Asleep then Insert(old(senders), pos, t) else old(senders)
      ensures wokenSenders == old(wokenSenders) - {t}
      ensures r == Done && old(receivers) != [] ==>
        receivers == old(receivers)[1..] && wokenReceivers == old(wokenReceivers) + {old(receivers)[0]}
      ensures r != Done || old(receivers) == [] ==> receivers == old(receivers) && wokenReceivers == old(wokenReceivers)
    {
      hide Sound, Contents;
      ghost var was := Messages();
      if entry == size {
        LeaveEmpty(senders, wokenSenders, size - entry, t);
        if !wait {
          wokenSenders := wokenSenders - {t};
          return Full;
        }
        Sleep(senders, wokenSenders, size - entry, t, pos);
        senders := Insert(senders, pos, t);
        wokenSenders := wokenSenders - {t};
        return Asleep;
      }
      OfferOne(receivers, wokenReceivers, entry);
      TakeOne(senders, wokenSenders, size - entry, t);
      PushBack(pool, outOffset, entry, value);
      pool := pool[inOffset := value];
      inOffset := inOffset + 1;
      if inOffset >= size {
        inOffset := 0;
      }
      entry := entry + 1; // the overflow test cannot fail: size is a 16-bit number
      wokenSenders := wokenSenders - {t};
      assert Messages() == was + [value];
      WakeReceiver();
      r := Done;
    }

    method WakeReceiver()
      modifies this`receivers, this`wokenReceivers
      ensures old(receivers) != [] ==>
        receivers == old(receivers)[1..] && wokenReceivers == old(wokenReceivers) + {old(receivers)[0]}
      ensures old(receivers) == [] ==> receivers == [] && wokenReceivers == old(wokenReceivers)
    {
      if receivers != [] {
        wokenReceivers := wokenReceivers + {receivers[0]};
        receivers := receivers[1..];
      }
    }

    method WakeSender()
      modifies this`senders, this`wokenSenders
      ensures old(senders) != [] ==>
        senders == old(senders)[1..] && wokenSenders == old(wokenSenders) + {old(senders)[0]}
      ensures old(senders) == [] ==> senders == [] && wokenSenders == old(wokenSenders)
    {
      if senders != [] {
        wokenSenders := wokenSenders + {senders[0]};
        senders := senders[1..];
      }
    }

    // rt_mb_urgent: puts the value in front.
    method Urgent(value: Value) returns (r: Outcome)
      requires Valid()
      modifies this`pool, this`outOffset, this`entry, this`receivers, this`wokenReceivers
      ensures Valid()
      ensures r == if |old(Messages())| < size then Done else Full
      ensures Messages() == if r == Done then [value] + old(Messages()) else old(Messages())
      ensures r == Done && old(receivers) != [] ==>
        receivers == old(receivers)[1..] && wokenReceivers == old(wokenReceivers) + {old(receivers)[0]}
      ensures r != Done || old(receivers) == [] ==> receivers == old(receivers) && wokenReceivers == old(wokenReceivers)
    {
      hide Sound, Contents;
      ghost var was := Messages();
      if entry == size {
        return Full;
      }
      OfferOne(receivers, wokenReceivers, entry);
      LessOffered(senders, wokenSenders, size - entry);
      PushFront(pool, outOffset, entry, value);
      if outOffset > 0 {
        outOffset := outOffset - 1;
      } else {
        outOffset := size - 1;
      }
      pool := pool[outOffset := value];
      entry := entry + 1;
      assert Messages() == [value] + was;
      WakeReceiver();
      r := Done;
    }

    // rt_mb_recv: takes the front, or with an empty mailbox sleeps, or gives up when it may not wait.
    method Recv(t: ThreadId, wait: bool, pos: nat) returns (r: Outcome, value: Value)
      requires Valid() && t !in receivers && pos <= |receivers|
      modifies this`outOffset, this`entry, this`receivers, this`senders, this`wokenReceivers, this`wokenSenders
      ensures Valid()
      ensures r == if old(Messages()) != [] then Done else if wait then Asleep else TimedOut
      ensures r == Done ==> value == old(Messages())[0] && Messages() == old(Messages())[1..]
      ensures r != Done ==> Messages() == old(Messages())
      ensures receivers == if r == Asleep then Insert(old(receivers), pos, t) else old(receivers)
      ensures wokenReceivers == old(wokenReceivers) - {t}
      ensures r == Done && old(senders) != [] ==>
        senders == old(senders)[1..] && wokenSenders == old(wokenSenders) + {old(senders)[0]}
      ensures r != Done || old(senders) == [] ==> senders == old(senders) && wokenSenders == old(wokenSenders)
    {
      hide Sound, Contents, Insert;
      ghost var was := Messages();
      value := 0;
      if entry > 0 { PopFront(pool, outOffset, entry); }
      if entry == 0 {
        LeaveEmpty(receivers, wokenReceivers, entry, t);
        if !wait {
          wokenReceivers := wokenReceivers - {t};
          return TimedOut, value;
        }
        Sleep(receivers, wokenReceivers, entry, t, pos);
        receivers := Insert(receivers, pos, t);
        wokenReceivers := wokenReceivers - {t};
        return Asleep, value;
      }
      OfferOne(senders, wokenSenders, size - entry);
      TakeOne(receivers, wokenReceivers, entry, t);
      value := pool[outOffset];
      outOffset := outOffset + 1;
      if outOffset >= size {
        outOffset := 0;
      }
      entry := entry - 1;
      wokenReceivers := wokenReceivers - {t};
      assert Messages() == was[1..];
      WakeSender();
      r := Done;
    }

    // A timeout or a signal ends the sleep of a thread; it returns with an error and takes nothing.
    method GiveUp(t: ThreadId)
      requires Valid()
      modifies this`receivers, this`senders
      ensures Valid()
      ensures receivers == Without(old(receivers), t) && senders == Without(old(senders), t)
    {
      Depart(receivers, wokenReceivers, entry, t);
      Depart(senders, wokenSenders, size - entry, t);
      receivers := Without(receivers, t);
      senders := Without(senders, t);
    }

    // rt_mb_control with RT_IPC_CMD_RESET: everybody is sent away with an error.
    method Reset()
      requires Valid()
      modifies this`receivers, this`senders, this`entry, this`inOffset, this`outOffset
      ensures Valid() && Messages() == [] && receivers == [] && senders == []
    {
      receivers := [];
      senders := [];
      entry := 0;
      inOffset := 0;
      outOffset := 0;
    }

    // Any calls in any order; those of threads that are asleep are skipped. No sleeper is passed over: while
    // a receiver (sender) sleeps, as many woken threads are on their way as there are messages (slots). And
    // without urgent values and resets, what was received is what was there and was sent, in that order.
    method Run(calls: seq<Call>) returns (sent: seq<Value>, received: seq<Value>)
      requires Valid()
      modifies this
      ensures Valid()
      ensures receivers != [] ==> |Messages()| <= |wokenReceivers|
      ensures senders != [] ==> size - |Messages()| <= |wokenSenders|
      ensures (forall c <- calls :: !c.Urging? && !c.Resetting?) ==> old(Messages()) + sent == received + Messages()
    {
      hide Ringed, Apart;
      sent, received := [], [];
      for i := 0 to |calls|
        invariant Valid()
        invariant (forall j :: 0 <= j < i ==> !calls[j].Urging? && !calls[j].Resetting?) ==>
          old(Messages()) + sent == received + Messages()
      {
        ghost var before := Messages();
        match calls[i] {
          case Sending(t, value, wait, pos) =>
            if t !in senders && pos <= |senders| {
              var r := Send(t, value, wait, pos);
              if r == Done {
                Regroup(old(Messages()), sent, [value]);
                Regroup(received, before, [value]);
                sent := sent + [value];
              }
            }
          case Urging(value) =>
            var _ := Urgent(value);
          case Receiving(t, wait, pos) =>
            if t !in receivers && pos <= |receivers| {
              var r, value := Recv(t, wait, pos);
              if r == Done {
                assert before == [value] + Messages();
                Regroup(received, [value], Messages());
                received := received + [value];
              }
            }
          case GivingUp(t) => GiveUp(t);
          case Resetting => Reset();
        }
      }
    }
  }

  lemma {:induction false} LessOffered(sleepers: seq<ThreadId>, woken: set<ThreadId>, offered: int)
    requires Sound(sleepers, woken, offered)
    ensures Sound(sleepers, woken, offered - 1)
  {
  }
}
