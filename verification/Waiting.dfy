/** Threads asleep on a list while others, woken already, are on their way to what is on offer. */
module Waiting {
  import opened Lists

  type ThreadId = nat

  // While somebody sleeps, everything on offer is covered by threads that were woken and have not run yet.
  ghost predicate Covered(sleepers: seq<ThreadId>, woken: set<ThreadId>, offered: int) {
    sleepers != [] ==> offered <= |woken|
  }

  ghost predicate Apart(sleepers: seq<ThreadId>, woken: set<ThreadId>) {
    NoDuplicates(sleepers) && forall t: ThreadId :: t in sleepers ==> t !in woken
  }

  ghost predicate Sound(sleepers: seq<ThreadId>, woken: set<ThreadId>, offered: int) {
    Apart(sleepers, woken) && Covered(sleepers, woken, offered)
  }

  // One more on offer and the first sleeper woken, if there is one.
  lemma {:induction false} OfferOne(sleepers: seq<ThreadId>, woken: set<ThreadId>, offered: int)
    requires Sound(sleepers, woken, offered)
    ensures sleepers != [] ==> Sound(sleepers[1..], woken + {sleepers[0]}, offered + 1)
    ensures sleepers == [] ==> Sound(sleepers, woken, offered + 1)
  {
    if sleepers != [] {
      TailMembers(sleepers);
      assert sleepers[0] in sleepers;
      assert |woken + {sleepers[0]}| == |woken| + 1;
    }
  }

  // A thread takes one.
  lemma {:induction false} TakeOne(sleepers: seq<ThreadId>, woken: set<ThreadId>, offered: int, t: ThreadId)
    requires Sound(sleepers, woken, offered)
    ensures Sound(sleepers, woken - {t}, offered - 1)
  {
    if t in woken { assert |woken - {t}| == |woken| - 1; } else { assert woken - {t} == woken; }
  }

  // Less on offer, or a woken thread leaving with nothing on offer.
  lemma {:induction false} LeaveEmpty(sleepers: seq<ThreadId>, woken: set<ThreadId>, offered: int, t: ThreadId)
    requires Sound(sleepers, woken, offered) && offered <= 0
    ensures Sound(sleepers, woken - {t}, offered)
  {
  }

  // With nothing on offer a thread may go to sleep, anywhere on the list.
  lemma {:induction false} Sleep(sleepers: seq<ThreadId>, woken: set<ThreadId>, offered: int, t: ThreadId, pos: nat)
    requires Sound(sleepers, woken, offered) && offered <= 0 && t !in sleepers && pos <= |sleepers|
    ensures Sound(Insert(sleepers, pos, t), woken - {t}, offered)
  {
    InsertMembers(sleepers, pos, t);
  }

  // A timeout or a signal ends one sleep.
  lemma {:induction false} Depart(sleepers: seq<ThreadId>, woken: set<ThreadId>, offered: int, t: ThreadId)
    requires Sound(sleepers, woken, offered)
    ensures Sound(Without(sleepers, t), woken, offered)
  {
    WithoutMembers(sleepers, t);
    assert Without([], t) == [];
  }
}
