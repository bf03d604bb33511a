/** Event sets (src/ipc.c). A send goes through the sleepers once, in order; each one it wakes may clear bits
    before the next is looked at. */
module EventSets {
  import opened Lists

  type ThreadId = nat
  type Set = bv32

  function Both(a: Set, b: Set): Set { a & b }

  function Either(a: Set, b: Set): Set { a | b }

  function Minus(a: Set, b: Set): Set { a & !b }

  predicate Within(a: Set, b: Set) { a & b == a }

  // k is a single event: a set has it or has nothing of it.
  ghost predicate One(k: Set) { k != 0 && forall s: Set :: Both(s, k) == 0 || Both(s, k) == k }

  ghost predicate Has(s: Set, k: Set) { One(k) && Both(s, k) != 0 }

  function Only(b: Set): Set { if b < 32 then (1 as bv32) << b else 0 }

  lemma {:induction false} OneIs(b: Set)
    requires b < 32
    ensures One(Only(b))
  {
    hide Only, Both;
    var k := Only(b);
    forall s: Set ensures Both(s, k) == 0 || Both(s, k) == k { OnlyApart(s, b); }
    OnlyApart(k, b);
  }

  lemma {:induction false} OnlyApart(s: Set, b: Set)
    requires b < 32
    ensures Only(b) != 0 && (Both(s, Only(b)) == 0 || Both(s, Only(b)) == Only(b))
  {
  }

  lemma {:induction false} MinusApart(a: Set, b: Set, k: Set)
    ensures Both(b, k) == 0 ==> Both(Minus(a, b), k) == Both(a, k)
    ensures Both(b, k) == k ==> Both(Minus(a, b), k) == 0
  {
  }

  lemma {:induction false} BothApart(a: Set, b: Set, k: Set)
    ensures Both(b, k) == 0 ==> Both(Both(a, b), k) == 0
    ensures Both(b, k) == k ==> Both(Both(a, b), k) == Both(a, k)
  {
  }

  lemma {:induction false} EitherApart(a: Set, b: Set, k: Set)
    ensures Both(Either(a, b), k) == Either(Both(a, k), Both(b, k))
  {
  }

  lemma {:induction false} EitherZero(a: Set, b: Set)
    ensures Either(a, b) == 0 <==> a == 0 && b == 0
  {
  }

  lemma {:induction false} NothingBoth(k: Set)
    ensures Both(0, k) == 0
  {
  }

  // An event is in a set less another if it is in the one and not in the other; and so on.
  lemma {:induction false} MinusHas(a: Set, b: Set, k: Set)
    ensures Has(Minus(a, b), k) <==> Has(a, k) && !Has(b, k)
  {
    hide Both, Minus;
    if One(k) {
      MinusApart(a, b, k);
      assert Both(b, k) == 0 || Both(b, k) == k;
    }
  }

  lemma {:induction false} EitherHas(a: Set, b: Set, k: Set)
    ensures Has(Either(a, b), k) <==> Has(a, k) || Has(b, k)
  {
    hide Both, Either;
    EitherApart(a, b, k);
    EitherZero(Both(a, k), Both(b, k));
  }

  lemma {:induction false} BothHas(a: Set, b: Set, k: Set)
    ensures Has(Both(a, b), k) <==> Has(a, k) && Has(b, k)
  {
    hide Both;
    if One(k) {
      BothApart(a, b, k);
      assert Both(b, k) == 0 || Both(b, k) == k;
    }
  }

  lemma {:induction false} NothingHas(k: Set)
    ensures !Has(0, k)
  {
    hide Both;
    NothingBoth(k);
  }

  // Clearing takes off what both sets have in common, and nothing else.
  lemma {:induction false} MinusIs(a: Set, b: Set)
    ensures Minus(a, b) & b == 0 && Minus(a, b) | (a & b) == a
  {
  }

  // What a sleeper asked for: event_set and event_info.
  datatype Wish = Wish(bits: Set, all: bool, clear: bool)

  predicate Satisfied(w: Wish, now: Set) {
    if w.all then Both(w.bits, now) == w.bits else Both(w.bits, now) != 0
  }

  // What the woken thread finds in event_set: for an OR wish the bits that were there.
  function Granted(w: Wish, now: Set): Set {
    if w.all then w.bits else Both(w.bits, now)
  }

  lemma {:induction false} MinusWithin(a: Set, b: Set)
    ensures Within(Minus(a, b), a)
  {
  }

  lemma {:induction false} WithinTrans(a: Set, b: Set, c: Set)
    requires Within(a, b) && Within(b, c)
    ensures Within(a, c)
  {
  }

  lemma {:induction false} WithinSelf(a: Set)
    ensures Within(a, a)
  {
  }

  lemma {:induction false} LessSatisfiesLess(bits: Set, less: Set, more: Set)
    requires Within(less, more)
    ensures Both(bits, less) == bits ==> Both(bits, more) == bits
    ensures Both(bits, less) != 0 ==> Both(bits, more) != 0
  {
  }

  // Not all of an AND wish, or nothing of an OR wish, is in the set.
  predicate Unmet(w: Wish, now: Set) {
    if w.all then Both(w.bits, now) != w.bits else Both(w.bits, now) == 0
  }

  lemma {:induction false} NothingIsHad(bits: Set)
    ensures bits == 0 ==> forall k :: !Has(bits, k)
  {
    hide Both;
    if bits == 0 {
      forall k ensures !Has(bits, k) { NothingHas(k); }
    }
  }

  lemma {:induction false} SatisfiedIs(w: Wish, now: Set)
    ensures Unmet(w, now) <==> !Satisfied(w, now)
  {
    hide Both;
  }

  // An AND wish is satisfied only by sets with all of its events, an OR wish by sets with one of them.
  lemma {:induction false} SatisfiedHas(w: Wish, now: Set, k: Set)
    requires Has(w.bits, k)
    ensures w.all && Satisfied(w, now) ==> Has(now, k)
    ensures !w.all && Has(now, k) ==> Satisfied(w, now)
  {
    BothHas(w.bits, now, k);
    if Has(now, k) { SomeBoth(w.bits, now, k); }
  }

  lemma {:induction false} SomeBoth(a: Set, b: Set, k: Set)
    requires Has(a, k) && Has(b, k)
    ensures Both(a, b) != 0
  {
    hide Both;
    BothHas(a, b, k);
    NothingHas(k);
  }

  // A satisfied wish is granted the events it has in common with the set.
  lemma {:induction false} GrantHas(w: Wish, now: Set, k: Set)
    requires Satisfied(w, now)
    ensures Has(Granted(w, now), k) <==> Has(w.bits, k) && Has(now, k)
  {
    BothHas(w.bits, now, k);
  }

  // With fewer bits set, fewer wishes are satisfied.
  lemma {:induction false} FewerBits(w: Wish, less: Set, more: Set)
    requires Within(less, more) && Satisfied(w, less)
    ensures Satisfied(w, more)
  {
    hide Within, Both;
    LessSatisfiesLess(w.bits, less, more);
  }

  // What a granted wish gets was all there, and is what it asked for: every bit, or at least one.
  lemma {:induction false} GrantIsThere(w: Wish, now: Set)
    requires Satisfied(w, now)
    ensures Within(Granted(w, now), now) && Within(Granted(w, now), w.bits)
    ensures if w.all then Granted(w, now) == w.bits else Granted(w, now) != 0
  {
    if w.all { AllThere(w.bits, now); } else { SomeThere(w.bits, now); }
  }

  lemma {:induction false} AllThere(bits: Set, now: Set)
    requires Both(bits, now) == bits
    ensures Within(bits, now) && Within(bits, bits)
  {
  }

  lemma {:induction false} SomeThere(bits: Set, now: Set)
    ensures Within(Both(bits, now), now) && Within(Both(bits, now), bits)
  {
  }

  // The set after one sleeper has been looked at.
  function AfterTurn(w: Wish, now: Set): Set {
    if Satisfied(w, now) && w.clear then Minus(now, Granted(w, now)) else now
  }

  ghost predicate Known(list: seq<ThreadId>, wishes: map<ThreadId, Wish>) {
    forall t :: t in list ==> t in wishes
  }

  // The set when the turn of sleeper number i comes.
  ghost function AtTurn(list: seq<ThreadId>, wishes: map<ThreadId, Wish>, now: Set, i: nat): Set
    requires i <= |list| && Known(list, wishes)
  {
    if i == 0 then now else AfterTurn(wishes[list[i - 1]], AtTurn(list, wishes, now, i - 1))
  }

  // The sleepers among the first i that are not woken, in order.
  ghost function Left(list: seq<ThreadId>, wishes: map<ThreadId, Wish>, now: Set, i: nat): seq<ThreadId>
    requires i <= |list| && Known(list, wishes)
  {
    if i == 0 then []
    else
      var left := Left(list, wishes, now, i - 1);
      if Satisfied(wishes[list[i - 1]], AtTurn(list, wishes, now, i - 1)) then left else left + [list[i - 1]]
  }

  // Sleeper number k is satisfied at its turn.
  ghost predicate Woken(list: seq<ThreadId>, wishes: map<ThreadId, Wish>, now: Set, k: nat)
    requires k < |list| && Known(list, wishes)
  {
    Satisfied(wishes[list[k]], AtTurn(list, wishes, now, k))
  }

  lemma {:induction false} TurnStep(list: seq<ThreadId>, wishes: map<ThreadId, Wish>, now: Set, k: nat)
    requires k < |list| && Known(list, wishes)
    ensures list[k] in wishes
    ensures var at := AtTurn(list, wishes, now, k); var w := wishes[list[k]];
      AtTurn(list, wishes, now, k + 1) == if Satisfied(w, at) && w.clear then Minus(at, Granted(w, at)) else at
    ensures var left := Left(list, wishes, now, k);
      Left(list, wishes, now, k + 1) == if Woken(list, wishes, now, k) then left else left + [list[k]]
  {
    hide Satisfied, Granted, Minus;
  }

  // Turns only ever clear bits.
  lemma {:induction false} TurnsClear(list: seq<ThreadId>, wishes: map<ThreadId, Wish>, now: Set, i: nat, j: nat)
    requires i <= j <= |list| && Known(list, wishes)
    ensures Within(AtTurn(list, wishes, now, j), AtTurn(list, wishes, now, i))
    decreases j
  {
    hide Within, Both, Minus;
    var at := AtTurn(list, wishes, now, i);
    if i == j {
      WithinSelf(at);
    } else {
      TurnsClear(list, wishes, now, i, j - 1);
      var before := AtTurn(list, wishes, now, j - 1);
      var w := wishes[list[j - 1]];
      if Satisfied(w, before) && w.clear {
        MinusWithin(before, Granted(w, before));
        WithinTrans(Minus(before, Granted(w, before)), before, at);
      }
    }
  }

  // A sleeper left behind at its turn is not satisfied by the set at the end either.
  lemma {:induction false} LeftUnsatisfied(list: seq<ThreadId>, wishes: map<ThreadId, Wish>, now: Set, i: nat, t: ThreadId)
    requires i <= |list| && Known(list, wishes) && t in Left(list, wishes, now, i)
    ensures t in list && t in wishes && !Satisfied(wishes[t], AtTurn(list, wishes, now, i))
    decreases i
  {
    hide Satisfied, AfterTurn, Within;
    if i > 0 {
      TurnsClear(list, wishes, now, i - 1, i);
      var u := list[i - 1];
      if t in Left(list, wishes, now, i - 1) {
        LeftUnsatisfied(list, wishes, now, i - 1, t);
      }
      if Satisfied(wishes[t], AtTurn(list, wishes, now, i)) {
        FewerBits(wishes[t], AtTurn(list, wishes, now, i), AtTurn(list, wishes, now, i - 1));
      }
    }
  }

  // Exactly the sleepers satisfied at their turn are woken.
  lemma {:induction false} LeftExactly(list: seq<ThreadId>, wishes: map<ThreadId, Wish>, now: Set, i: nat)
    requires i <= |list| && NoDuplicates(list) && Known(list, wishes)
    ensures NoDuplicates(Left(list, wishes, now, i))
    ensures forall k :: 0 <= k < i ==> (list[k] in Left(list, wishes, now, i) <==> !Woken(list, wishes, now, k))
    ensures forall t :: t in Left(list, wishes, now, i) ==> t in list[..i]
    decreases i
  {
    hide Woken, Left;
    if i > 0 {
      LeftExactly(list, wishes, now, i - 1);
      TurnStep(list, wishes, now, i - 1);
      var left := Left(list, wishes, now, i - 1);
      assert list[i - 1] !in list[..i - 1];
      InsertMembers(left, |left|, list[i - 1]);
      assert Insert(left, |left|, list[i - 1]) == left + [list[i - 1]];
      assert list[..i] == list[..i - 1] + [list[i - 1]];
      forall k | 0 <= k < i ensures list[k] in Left(list, wishes, now, i) <==> !Woken(list, wishes, now, k) {
        if k < i - 1 { assert list[k] != list[i - 1]; }
      }
    } else {
      LeftNone(list, wishes, now);
    }
  }

  // An event is in the set after i turns if it was at the start and no one woken till then has cleared it.
  lemma {:induction false} TurnHas(list: seq<ThreadId>, wishes: map<ThreadId, Wish>, now: Set, i: nat, k: Set)
    requires i <= |list| && Known(list, wishes)
    ensures Has(AtTurn(list, wishes, now, i), k) <==>
      Has(now, k) && forall j :: 0 <= j < i && Woken(list, wishes, now, j) ==> !Clears(list, wishes, now, j, k)
    decreases i
  {
    hide Satisfied, Granted, Minus, Has, Woken;
    if i > 0 {
      TurnHas(list, wishes, now, i - 1, k);
      TurnStep(list, wishes, now, i - 1);
      WokenIs(list, wishes, now, i - 1);
      var at := AtTurn(list, wishes, now, i - 1);
      MinusHas(at, Granted(wishes[list[i - 1]], at), k);
    }
  }

  // Sleeper number j is granted event k and clears what it is granted.
  ghost predicate Clears(list: seq<ThreadId>, wishes: map<ThreadId, Wish>, now: Set, j: nat, k: Set)
    requires j < |list| && Known(list, wishes)
  {
    wishes[list[j]].clear && Has(Granted(wishes[list[j]], AtTurn(list, wishes, now, j)), k)
  }

  // The same in terms of who is left and what the others were granted.
  lemma {:induction false} SentHas(list: seq<ThreadId>, wishes: map<ThreadId, Wish>, now: Set, granted: map<ThreadId, Set>, k: Set)
    requires NoDuplicates(list) && Known(list, wishes) && Grants(list, wishes, now, granted)
    ensures var left := Left(list, wishes, now, |list|);
      && (forall t :: t in list && t !in left ==> t in granted)
      && (Has(AtTurn(list, wishes, now, |list|), k) <==>
        Has(now, k) && forall t :: t in list && t !in left && wishes[t].clear ==> !Has(granted[t], k))
  {
    hide Satisfied, Granted, Minus, Has, Woken, AtTurn, Left;
    var left := Left(list, wishes, now, |list|);
    LeftExactly(list, wishes, now, |list|);
    TurnHas(list, wishes, now, |list|, k);
    forall j | 0 <= j < |list| ensures list[j] !in left ==>
      list[j] in granted && (Clears(list, wishes, now, j, k) <==> wishes[list[j]].clear && Has(granted[list[j]], k))
    {
      assert list[j] !in left ==> Woken(list, wishes, now, j) && GrantedAt(list, wishes, now, granted, j);
    }
  }

  lemma {:induction false} LeftNone(list: seq<ThreadId>, wishes: map<ThreadId, Wish>, now: Set)
    requires Known(list, wishes)
    ensures Left(list, wishes, now, 0) == [] && AtTurn(list, wishes, now, 0) == now
  {
  }

  datatype Outcome = Received(bits: Set) | Refused | TimedOut | Asleep

  class Event {
    var now: Set
    var sleepers: seq<ThreadId>
    var wishes: map<ThreadId, Wish>  // of the sleepers
    var granted: map<ThreadId, Set>  // event_set of the threads woken

    // No sleeper's wish is satisfied by the current set.
    ghost predicate Valid()
      reads this
    {
      && NoDuplicates(sleepers)
      && (forall t :: t in sleepers ==> t in wishes)
      && forall t :: t in sleepers ==> !Satisfied(wishes[t], now)
    }

    constructor ()
      ensures Valid() && now == 0 && sleepers == []
    {
      now := 0;
      sleepers := [];
      wishes := map[];
      granted := map[];
    }

    // rt_event_send; false for an empty set.
    method Send(bits: Set) returns (ok: bool)
      requires Valid()
      modifies this`now, this`sleepers, this`granted
      ensures Valid() && ok == (bits != 0)
      ensures !ok ==> now == old(now) && sleepers == old(sleepers) && granted == old(granted)
      ensures ok ==> now == AtTurn(old(sleepers), wishes, Either(old(now), bits), |old(sleepers)|)
      ensures ok ==> sleepers == Left(old(sleepers), wishes, Either(old(now), bits), |old(sleepers)|)
      ensures ok ==> Grants(old(sleepers), wishes, Either(old(now), bits), granted)
      // The sleepers left are not satisfied; those woken hold what they were granted; and an event is in the set now
      // if it was or was sent, and none of those woken was granted and cleared it.
      ensures forall t :: t in sleepers ==>
        t in old(sleepers) && t in wishes && Unmet(wishes[t], now)
      ensures ok ==> forall t :: t in old(sleepers) && t !in sleepers ==> t in wishes && t in granted
      ensures ok ==> forall k :: Has(now, k) <==>
        && (Has(old(now), k) || Has(bits, k))
        && forall t :: t in old(sleepers) && t !in sleepers && wishes[t].clear ==> !Has(granted[t], k)
    {
      hide Satisfied, Unmet, Granted, Either, Minus, Has, Swept, AtTurn, Left, Grants;
      if bits == 0 {
        forall t | t in sleepers ensures Unmet(wishes[t], now) { SatisfiedIs(wishes[t], now); }
        return false;
      }
      ghost var list := sleepers;
      now := Either(now, bits);
      ghost var start := now;
      var i := 0;
      ghost var k := 0;
      SweptStart(list, wishes, start, granted);
      while i < |sleepers|
        invariant i <= |sleepers| && Swept(list, wishes, start, k, i, now, sleepers, granted)
        decreases |sleepers| - i
      {
        SweptStep(list, wishes, start, k, i, now, sleepers, granted);
        var t := sleepers[i];
        if Satisfied(wishes[t], now) {
          var got := Granted(wishes[t], now);
          granted := granted[t := got];
          if wishes[t].clear {
            now := Minus(now, got);
          }
          sleepers := sleepers[..i] + sleepers[i + 1..];
        } else {
          i := i + 1;
        }
        k := k + 1;
      }
      SweptAll(list, wishes, start, k, i, now, sleepers, granted);
      SendKeeps(list, wishes, start);
      forall k ensures Has(now, k) <==>
        && (Has(old(now), k) || Has(bits, k))
        && forall t :: t in list && t !in sleepers && wishes[t].clear ==> t in granted && !Has(granted[t], k)
      {
        SentHas(list, wishes, start, granted, k);
        EitherHas(old(now), bits, k);
      }
      forall t | t in sleepers ensures t in list && Unmet(wishes[t], now) {
        LeftUnsatisfied(list, wishes, start, |list|, t);
        SatisfiedIs(wishes[t], now);
      }
      forall t | t in list && t !in sleepers ensures t in granted { SentHas(list, wishes, start, granted, 0); }
      ok := true;
    }

    // rt_event_recv: takes what is there, or sleeps, or gives up. `all` is RT_EVENT_FLAG_AND, `pos` the place on
    // the list that the object's flag gives.
    method Recv(t: ThreadId, bits: Set, all: bool, clear: bool, wait: bool, pos: nat) returns (r: Outcome)
      requires Valid() && t !in sleepers && pos <= |sleepers|
      modifies this`now, this`sleepers, this`wishes
      ensures Valid()
      ensures var w := Wish(bits, all, clear);
        if bits == 0 then r == Refused && now == old(now)
        else if Satisfied(w, old(now)) then r == Received(Both(old(now), bits)) && now == if clear then Minus(old(now), bits) else old(now)
        else r == (if wait then Asleep else TimedOut) && now == old(now)
      ensures sleepers == if r == Asleep then Insert(old(sleepers), pos, t) else old(sleepers)
      ensures var there := if all then Both(bits, old(now)) == bits else Both(bits, old(now)) != 0;
        && r == (if bits == 0 then Refused else if there then Received(Both(old(now), bits)) else if wait then Asleep else TimedOut)
        && forall k :: Has(now, k) <==> Has(old(now), k) && !(there && clear && Has(bits, k))
      ensures wishes == if r == Asleep then old(wishes)[t := Wish(bits, all, clear)] else old(wishes)
    {
      hide Satisfied, Minus, Has, Both;
      SatisfiedIs(Wish(bits, all, clear), now);
      NothingIsHad(bits);
      forall k ensures Has(Minus(now, bits), k) <==> Has(now, k) && !Has(bits, k) { MinusHas(now, bits, k); }
      var w := Wish(bits, all, clear);
      if bits == 0 {
        r := Refused;
      } else if Satisfied(w, now) {
        r := Received(Both(now, bits));
        if clear {
          MinusWithin(now, bits);
          FewerForAll(sleepers, wishes, Minus(now, bits), now);
          now := Minus(now, bits);
        }
      } else if !wait {
        r := TimedOut;
      } else {
        InsertMembers(sleepers, pos, t);
        wishes := wishes[t := w];
        sleepers := Insert(sleepers, pos, t);
        r := Asleep;
      }
    }

    // A timeout or a signal ends the sleep of a thread.
    method GiveUp(t: ThreadId)
      requires Valid()
      modifies this`sleepers
      ensures Valid() && sleepers == Without(old(sleepers), t)
    {
      WithoutMembers(sleepers, t);
      sleepers := Without(sleepers, t);
    }

    // rt_event_control with RT_IPC_CMD_RESET: everybody is sent away with an error.
    method Reset()
      requires Valid()
      modifies this`now, this`sleepers
      ensures Valid() && now == 0 && sleepers == []
    {
      sleepers := [];
      now := 0;
    }
  }

  // Each thread woken finds what its wish was granted at its turn.
  ghost predicate Grants(list: seq<ThreadId>, wishes: map<ThreadId, Wish>, now: Set, granted: map<ThreadId, Set>)
    requires Known(list, wishes)
  {
    forall k :: 0 <= k < |list| && Woken(list, wishes, now, k) ==> GrantedAt(list, wishes, now, granted, k)
  }

  ghost predicate GrantedAt(list: seq<ThreadId>, wishes: map<ThreadId, Wish>, now: Set, granted: map<ThreadId, Set>, k: nat)
    requires k < |list| && Known(list, wishes)
  {
    list[k] in granted && granted[list[k]] == Granted(wishes[list[k]], AtTurn(list, wishes, now, k))
  }

  lemma {:induction false} WokenIs(list: seq<ThreadId>, wishes: map<ThreadId, Wish>, now: Set, k: nat)
    requires k < |list| && Known(list, wishes)
    ensures Woken(list, wishes, now, k) == Satisfied(wishes[list[k]], AtTurn(list, wishes, now, k))
  {
  }

  // A grant to sleeper number k leaves the grants of those before it.
  lemma {:induction false} GrantNext(list: seq<ThreadId>, wishes: map<ThreadId, Wish>, now: Set, granted: map<ThreadId, Set>, k: nat)
    requires k < |list| && Known(list, wishes) && NoDuplicates(list)
    ensures var got := Granted(wishes[list[k]], AtTurn(list, wishes, now, k)); var granted1 := granted[list[k] := got];
      && GrantedAt(list, wishes, now, granted1, k)
      && forall j :: 0 <= j < k && GrantedAt(list, wishes, now, granted, j) ==> GrantedAt(list, wishes, now, granted1, j)
  {
    hide Granted, AtTurn;
  }

  // A traversal that has looked at k sleepers and left the first i of those now on the list.
  ghost predicate Swept(list: seq<ThreadId>, wishes: map<ThreadId, Wish>, start: Set, k: nat, i: nat,
      now: Set, sleepers: seq<ThreadId>, granted: map<ThreadId, Set>)
  {
    && Known(list, wishes) && NoDuplicates(list)
    && k <= |list| && i <= |sleepers| && now == AtTurn(list, wishes, start, k)
    && sleepers[..i] == Left(list, wishes, start, k) && sleepers[i..] == list[k..]
    && forall j :: 0 <= j < k && Woken(list, wishes, start, j) ==> GrantedAt(list, wishes, start, granted, j)
  }

  lemma {:induction false} SweptStart(list: seq<ThreadId>, wishes: map<ThreadId, Wish>, start: Set, granted: map<ThreadId, Set>)
    requires Known(list, wishes) && NoDuplicates(list)
    ensures Swept(list, wishes, start, 0, 0, start, list, granted)
  {
    LeftNone(list, wishes, start);
  }

  lemma {:induction false} SweptStep(list: seq<ThreadId>, wishes: map<ThreadId, Wish>, start: Set, k: nat, i: nat,
      now: Set, sleepers: seq<ThreadId>, granted: map<ThreadId, Set>)
    requires Swept(list, wishes, start, k, i, now, sleepers, granted) && i < |sleepers|
    ensures sleepers[i] in wishes
    ensures var t := sleepers[i]; var got := Granted(wishes[t], now);
      if Satisfied(wishes[t], now)
      then Swept(list, wishes, start, k + 1, i, if wishes[t].clear then Minus(now, got) else now,
        sleepers[..i] + sleepers[i + 1..], granted[t := got])
      else Swept(list, wishes, start, k + 1, i + 1, now, sleepers, granted)
  {
    hide Satisfied, Granted, Minus, AtTurn, Left, Woken, GrantedAt;
    var t := sleepers[i];
    assert t == sleepers[i..][0] == list[k];
    TurnStep(list, wishes, start, k);
    WokenIs(list, wishes, start, k);
    assert list[k + 1..] == list[k..][1..];
    if Satisfied(wishes[t], now) {
      GrantNext(list, wishes, start, granted, k);
      var rest := sleepers[..i] + sleepers[i + 1..];
      assert rest[..i] == sleepers[..i] && rest[i..] == sleepers[i..][1..];
    } else {
      assert sleepers[..i + 1] == sleepers[..i] + [t] && sleepers[i + 1..] == sleepers[i..][1..];
    }
  }

  lemma {:induction false} SweptAll(list: seq<ThreadId>, wishes: map<ThreadId, Wish>, start: Set, k: nat, i: nat,
      now: Set, sleepers: seq<ThreadId>, granted: map<ThreadId, Set>)
    requires Swept(list, wishes, start, k, i, now, sleepers, granted) && i == |sleepers|
    ensures now == AtTurn(list, wishes, start, |list|) && sleepers == Left(list, wishes, start, |list|)
    ensures Grants(list, wishes, start, granted)
  {
    hide AtTurn, Left, Woken, GrantedAt;
    assert sleepers[..i] == sleepers && |sleepers[i..]| == 0 == |list[k..]|;
  }

  lemma {:induction false} SendKeeps(list: seq<ThreadId>, wishes: map<ThreadId, Wish>, now: Set)
    requires NoDuplicates(list) && Known(list, wishes)
    ensures var left := Left(list, wishes, now, |list|);
      NoDuplicates(left) && (forall t :: t in left ==> t in wishes && !Satisfied(wishes[t], AtTurn(list, wishes, now, |list|)))
  {
    hide Satisfied, AfterTurn;
    LeftExactly(list, wishes, now, |list|);
    forall t | t in Left(list, wishes, now, |list|) ensures t in wishes && !Satisfied(wishes[t], AtTurn(list, wishes, now, |list|)) {
      LeftUnsatisfied(list, wishes, now, |list|, t);
    }
  }

  lemma {:induction false} FewerForAll(list: seq<ThreadId>, wishes: map<ThreadId, Wish>, less: Set, more: Set)
    requires Within(less, more) && (forall t :: t in list ==> t in wishes && !Satisfied(wishes[t], more))
    ensures forall t :: t in list ==> !Satisfied(wishes[t], less)
  {
    hide Satisfied, Within;
    forall t | t in list ensures !Satisfied(wishes[t], less) {
      if Satisfied(wishes[t], less) { FewerBits(wishes[t], less, more); }
    }
  }
}
