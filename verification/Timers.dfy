/** The timer skip list of src/timer.c: rows of timers ordered by wrapping 32-bit ticks. */
module Timers {
  import opened Lists

  const TICKS: int := 0x1_0000_0000
  const TICK_MAX: int := 0xffff_ffff
  const HALF: int := TICK_MAX / 2

  type Tick = t: int | 0 <= t < TICKS
  type TimerId = nat

  datatype Timer = Timer(timeoutTick: Tick, initTick: Tick, active: bool, periodic: bool)

  datatype Status = Ok | Error

  /** Unsigned 32-bit difference. */
  function Diff(a: Tick, b: Tick): Tick {
    (a - b) % TICKS
  }

  function Add(a: Tick, b: Tick): Tick {
    (a + b) % TICKS
  }

  // ---------- wrapping order ----------

  /** All of the ticks fit in a window of less than HALF ticks that starts at `base`. */
  ghost predicate InWindow(base: Tick, t: Tick) {
    Diff(t, base) < HALF
  }

  /** Inside a window the wrapping comparison is the order of the offsets. */
  lemma {:induction false} WindowOrder(base: Tick, a: Tick, b: Tick)
    requires InWindow(base, a) && InWindow(base, b)
    ensures Diff(a, b) == 0 <==> a == b
    ensures Diff(a, base) == Diff(b, base) <==> a == b
    ensures Diff(a, b) < HALF <==> Diff(b, base) <= Diff(a, base)
  {
    var x, y := Diff(a, base), Diff(b, base);
    assert a == base + x || a == base + x - TICKS;
    assert b == base + y || b == base + y - TICKS;
    if x >= y {
      assert Diff(a, b) == x - y;
    } else {
      assert Diff(a, b) == x - y + TICKS;
    }
  }

  // ---------- rows ----------

  /** The members of `s` that reach height `h`. */
  ghost function Tall(s: seq<TimerId>, height: seq<nat>, h: nat): seq<TimerId> {
    if s == [] then []
    else
      var rest := Tall(s[1..], height, h);
      if s[0] < |height| && height[s[0]] >= h then [s[0]] + rest else rest
  }

  ghost predicate Member(s: seq<TimerId>, height: seq<nat>, h: nat, t: TimerId) {
    t in s && t < |height| && height[t] >= h
  }

  lemma {:induction false} TallMembers(s: seq<TimerId>, height: seq<nat>, h: nat)
    ensures forall t :: t in Tall(s, height, h) <==> Member(s, height, h, t)
    ensures NoDuplicates(s) ==> NoDuplicates(Tall(s, height, h))
  {
    if s != [] {
      TallMembers(s[1..], height, h);
      assert s == [s[0]] + s[1..];
      if NoDuplicates(s) {
        TailMembers(s);
        var rest := Tall(s[1..], height, h);
        assert forall j :: 0 <= j < |rest| ==> rest[j] in rest;
      }
    }
  }

  lemma {:induction false} TallConcat(a: seq<TimerId>, b: seq<TimerId>, height: seq<nat>, h: nat)
    ensures Tall(a + b, height, h) == Tall(a, height, h) + Tall(b, height, h)
  {
    if a == [] {
      assert a + b == b;
    } else {
      assert (a + b)[1..] == a[1..] + b;
      TallConcat(a[1..], b, height, h);
    }
  }

  lemma {:induction false} TallSame(s: seq<TimerId>, height: seq<nat>, height': seq<nat>, h: nat)
    requires |height| == |height'| && forall t :: t in s && t < |height| ==> height[t] == height'[t]
    ensures Tall(s, height, h) == Tall(s, height', h)
  {
    if s != [] {
      assert s[0] in s && forall t :: t in s[1..] ==> t in s;
      TallSame(s[1..], height, height', h);
    }
  }

  lemma {:induction false} TallAll(s: seq<TimerId>, height: seq<nat>, h: nat)
    requires forall t :: t in s ==> t < |height| && height[t] >= h
    ensures Tall(s, height, h) == s
  {
    if s != [] {
      assert s[0] in s && forall t :: t in s[1..] ==> t in s;
      TallAll(s[1..], height, h);
    }
  }

  /** `s` is what remains of `t` when some members are left out. */
  predicate Subsequence(s: seq<TimerId>, t: seq<TimerId>) {
    if s == [] then true
    else if t == [] then false
    else if s[0] == t[0] then Subsequence(s[1..], t[1..])
    else Subsequence(s, t[1..])
  }

  /** Fewer members reach a greater height. */
  lemma {:induction false} TallerIsSubsequence(s: seq<TimerId>, height: seq<nat>, h: nat, k: nat)
    requires h <= k
    requires NoDuplicates(s)
    ensures Subsequence(Tall(s, height, k), Tall(s, height, h))
  {
    if s != [] {
      TailMembers(s);
      TallerIsSubsequence(s[1..], height, h, k);
      TallMembers(s[1..], height, k);
      var low, high := Tall(s[1..], height, h), Tall(s[1..], height, k);
      if s[0] < |height| && height[s[0]] >= h {
        assert ([s[0]] + low)[1..] == low;
        if height[s[0]] >= k {
          assert ([s[0]] + high)[1..] == high;
        } else if high != [] {
          assert high[0] in high;
        }
      }
    }
  }

  /** Later or equal in wrapping order. */
  predicate NotBefore(timers: seq<Timer>, u: TimerId, t: TimerId)
    requires u < |timers| && t < |timers|
  {
    Diff(timers[u].timeoutTick, timers[t].timeoutTick) < HALF
  }

  ghost predicate Known(timers: seq<Timer>, s: seq<TimerId>) {
    forall i :: 0 <= i < |s| ==> s[i] < |timers|
  }

  ghost predicate Ordered(timers: seq<Timer>, s: seq<TimerId>)
    requires Known(timers, s)
  {
    forall i, j :: 0 <= i < j < |s| ==> NotBefore(timers, s[j], s[i])
  }

  ghost predicate Windowed(timers: seq<Timer>, base: Tick, s: seq<TimerId>)
    requires Known(timers, s)
  {
    forall i :: 0 <= i < |s| ==> InWindow(base, timers[s[i]].timeoutTick)
  }

  /** A new timer `t` goes before `u`: `u` is strictly later. */
  predicate Passes(timers: seq<Timer>, t: TimerId, u: TimerId)
    requires u < |timers| && t < |timers|
  {
    var d := Diff(timers[u].timeoutTick, timers[t].timeoutTick);
    d != 0 && d < HALF
  }

  /** Position `n` separates the timers that fire no later than `t` from the later ones. */
  ghost predicate Splits(timers: seq<Timer>, s: seq<TimerId>, n: nat, t: TimerId)
    requires Known(timers, s) && t < |timers|
  {
    && n <= |s|
    && (forall i :: 0 <= i < n ==> !Passes(timers, t, s[i]))
    && forall i :: n <= i < |s| ==> Passes(timers, t, s[i])
  }

  // ---------- the list ----------

  /** The rows hold, from top to bottom, the timers of `bottom` that reach each row's height. */
  ghost predicate RowsOf(rows: seq<seq<TimerId>>, bottom: seq<TimerId>, height: seq<nat>) {
    && 0 < |rows|
    && forall lvl :: 0 <= lvl < |rows| ==> rows[lvl] == Tall(bottom, height, |rows| - lvl)
  }

  /** All live timers are linked, each at least in the bottom row, in firing order. */
  ghost predicate Consistent(timers: seq<Timer>, rows: seq<seq<TimerId>>, bottom: seq<TimerId>, height: seq<nat>) {
    && |height| == |timers|
    && NoDuplicates(bottom)
    && Known(timers, bottom)
    && (forall t :: t in bottom ==> t < |timers| && 1 <= height[t])
    && RowsOf(rows, bottom, height)
    && Ordered(timers, bottom)
    && forall t: TimerId :: t < |timers| ==> (timers[t].active <==> t in bottom)
  }

  lemma {:induction false} BottomRow(rows: seq<seq<TimerId>>, bottom: seq<TimerId>, height: seq<nat>)
    requires RowsOf(rows, bottom, height)
    requires forall t :: t in bottom ==> t < |height| && 1 <= height[t]
    ensures 0 < |rows| && rows[|rows| - 1] == bottom
  {
    TallAll(bottom, height, 1);
  }

  /** Each row is a subsequence of the row below it. */
  lemma {:induction false} RowsNest(rows: seq<seq<TimerId>>, bottom: seq<TimerId>, height: seq<nat>, lvl: nat)
    requires RowsOf(rows, bottom, height) && NoDuplicates(bottom) && lvl + 1 < |rows|
    ensures Subsequence(rows[lvl], rows[lvl + 1])
  {
    TallerIsSubsequence(bottom, height, |rows| - (lvl + 1), |rows| - lvl);
  }

  // ---------- removal ----------

  lemma {:induction false} TallWithout(s: seq<TimerId>, height: seq<nat>, h: nat, t: TimerId)
    requires NoDuplicates(s)
    ensures Without(Tall(s, height, h), t) == Tall(Without(s, t), height, h)
  {
    if s != [] {
      TailMembers(s);
      TallWithout(s[1..], height, h, t);
      TallMembers(s[1..], height, h);
      if s[0] == t {
        WithoutAbsent(Tall(s[1..], height, h), t);
      }
      var rest := Tall(s[1..], height, h);
      assert ([s[0]] + rest)[1..] == rest;
      assert ([s[0]] + Without(s[1..], t))[1..] == Without(s[1..], t);
    }
  }

  lemma {:induction false} WithoutOrdered(timers: seq<Timer>, s: seq<TimerId>, t: TimerId)
    requires NoDuplicates(s) && Known(timers, s) && Ordered(timers, s)
    ensures Known(timers, Without(s, t)) && Ordered(timers, Without(s, t))
  {
    if t in s {
      var k :| 0 <= k < |s| && s[k] == t;
      WithoutIsDelete(s, k);
      DeleteOrdered(timers, s, k);
    } else {
      WithoutAbsent(s, t);
    }
  }

  lemma {:induction false} DeleteOrdered(timers: seq<Timer>, s: seq<TimerId>, k: nat)
    requires k < |s| && Known(timers, s) && Ordered(timers, s)
    ensures Known(timers, Delete(s, k)) && Ordered(timers, Delete(s, k))
  {
    var r := Delete(s, k);
    forall i, j | 0 <= i < j < |r| ensures r[i] < |timers| && r[j] < |timers| && NotBefore(timers, r[j], r[i]) {
      assert r[i] == s[if i < k then i else i + 1] && r[j] == s[if j < k then j else j + 1];
    }
  }

  // ---------- insertion ----------

  /** A tall part of a split list is split at the tall part of the front. */
  lemma {:induction false} TallSplit(s: seq<TimerId>, n: nat, height: seq<nat>, h: nat)
    requires n <= |s|
    ensures Tall(s, height, h) == Tall(s[..n], height, h) + Tall(s[n..], height, h)
  {
    assert s == s[..n] + s[n..];
    TallConcat(s[..n], s[n..], height, h);
  }

  lemma {:induction false} TallInsert(s: seq<TimerId>, n: nat, t: TimerId, height: seq<nat>, h: nat)
    requires n <= |s| && t < |height|
    ensures var k := |Tall(s[..n], height, h)|;
            && k <= |Tall(s, height, h)|
            && Tall(Insert(s, n, t), height, h) ==
                 if height[t] >= h then Insert(Tall(s, height, h), k, t) else Tall(s, height, h)
  {
    TallSplit(s, n, height, h);
    TallConcat(s[..n] + [t], s[n..], height, h);
    TallConcat(s[..n], [t], height, h);
    assert Tall([t], height, h) == if height[t] >= h then [t] else [];
  }

  lemma {:induction false} SplitsTall(timers: seq<Timer>, s: seq<TimerId>, n: nat, t: TimerId, height: seq<nat>, h: nat, k: nat)
    requires Known(timers, s) && t < |timers| && Splits(timers, s, n, t)
    requires Known(timers, Tall(s, height, h)) && Splits(timers, Tall(s, height, h), k, t)
    ensures k == |Tall(s[..n], height, h)|
  {
    TallSplit(s, n, height, h);
    var front, back, all := Tall(s[..n], height, h), Tall(s[n..], height, h), Tall(s, height, h);
    TallMembers(s[..n], height, h);
    TallMembers(s[n..], height, h);
    forall i | 0 <= i < |front| ensures all[i] < |timers| && !Passes(timers, t, all[i]) {
      assert all[i] == front[i] && front[i] in front && front[i] in s[..n];
    }
    forall i | |front| <= i < |all| ensures all[i] < |timers| && Passes(timers, t, all[i]) {
      assert all[i] == back[i - |front|] && back[i - |front|] in back && back[i - |front|] in s[n..];
    }
    UniqueSplit(timers, all, |front|, k, t);
  }

  lemma {:induction false} UniqueSplit(timers: seq<Timer>, s: seq<TimerId>, n: nat, k: nat, t: TimerId)
    requires Known(timers, s) && t < |timers| && Splits(timers, s, n, t) && Splits(timers, s, k, t)
    ensures n == k
  {
    var atN := Nth(s, n);
    var atK := Nth(s, k);
  }

  function Nth(s: seq<TimerId>, i: nat): TimerId {
    if i < |s| then s[i] else 0
  }

  /** Inside a window, passing is the order of the offsets, so the search may stop at the first later timer. */
  lemma {:induction false} PassesIsMonotone(timers: seq<Timer>, base: Tick, s: seq<TimerId>, t: TimerId, i: nat, j: nat)
    requires Known(timers, s) && t < |timers| && i <= j < |s|
    requires Ordered(timers, s) && Windowed(timers, base, s) && InWindow(base, timers[t].timeoutTick)
    ensures Passes(timers, t, s[i]) ==> Passes(timers, t, s[j])
  {
    if i < j {
      assert NotBefore(timers, s[j], s[i]);
      var a, b, c := timers[s[i]].timeoutTick, timers[s[j]].timeoutTick, timers[t].timeoutTick;
      WindowOrder(base, b, a);
      WindowOrder(base, a, c);
      WindowOrder(base, b, c);
    }
  }

  lemma {:induction false} PrefixesOrdered(timers: seq<Timer>, s: seq<TimerId>)
    requires Known(timers, s) && Ordered(timers, s)
    ensures forall n :: 0 <= n <= |s| ==> Known(timers, s[..n]) && Ordered(timers, s[..n])
  {
    forall n | 0 <= n <= |s| ensures Known(timers, s[..n]) {
      forall t | t in s[..n] ensures t < |timers| {
        assert t in s;
      }
    }
  }

  lemma {:induction false} InsertOrdered(timers: seq<Timer>, base: Tick, s: seq<TimerId>, n: nat, t: TimerId)
    requires Known(timers, s) && t < |timers| && Splits(timers, s, n, t)
    requires Ordered(timers, s) && Windowed(timers, base, s) && InWindow(base, timers[t].timeoutTick)
    ensures Known(timers, Insert(s, n, t)) && Ordered(timers, Insert(s, n, t))
  {
    var r := Insert(s, n, t);
    forall i, j | 0 <= i < j < |r| ensures NotBefore(timers, r[j], r[i]) {
      assert r[i] == if i < n then s[i] else if i == n then t else s[i - 1];
      assert r[j] == if j < n then s[j] else if j == n then t else s[j - 1];
      WindowOrder(base, timers[r[j]].timeoutTick, timers[r[i]].timeoutTick);
      if j == n {
        assert !Passes(timers, t, s[i]);
        WindowOrder(base, timers[s[i]].timeoutTick, timers[t].timeoutTick);
      } else if i == n {
        assert Passes(timers, t, s[j - 1]);
      } else if j > n > i || (i < j < n) || (n < i < j) {
        assert NotBefore(timers, r[j], r[i]);
      }
    }
  }

  lemma {:induction false} TallOrdered(timers: seq<Timer>, s: seq<TimerId>, height: seq<nat>, h: nat)
    requires Known(timers, s) && Ordered(timers, s)
    ensures Known(timers, Tall(s, height, h)) && Ordered(timers, Tall(s, height, h))
  {
    if s != [] {
      var rest := Tall(s[1..], height, h);
      assert forall i, j :: 0 <= i < j < |s[1..]| ==> s[1..][i] == s[i + 1] && s[1..][j] == s[j + 1];
      TallOrdered(timers, s[1..], height, h);
      TallMembers(s[1..], height, h);
      forall j | 0 <= j < |rest| ensures NotBefore(timers, rest[j], s[0]) {
        assert rest[j] in rest && rest[j] in s[1..];
        var k :| 0 <= k < |s[1..]| && s[1..][k] == rest[j];
        assert s[k + 1] == rest[j];
      }
    }
  }

  /** Once `t` passes one member it passes all later ones. */
  ghost predicate Monotone(timers: seq<Timer>, t: TimerId, row: seq<TimerId>)
    requires Known(timers, row) && t < |timers|
  {
    forall i, j :: 0 <= i <= j < |row| && Passes(timers, t, row[i]) ==> Passes(timers, t, row[j])
  }

  /** What the search needs to know of one row. */
  lemma {:induction false} RowFacts(timers: seq<Timer>, base: Tick, bottom: seq<TimerId>, height: seq<nat>, h: nat, t: TimerId)
    requires Known(timers, bottom) && Ordered(timers, bottom) && Windowed(timers, base, bottom)
    requires t < |timers| && InWindow(base, timers[t].timeoutTick)
    ensures Known(timers, Tall(bottom, height, h))
    ensures Monotone(timers, t, Tall(bottom, height, h))
  {
    var row := Tall(bottom, height, h);
    TallOrdered(timers, bottom, height, h);
    TallMembers(bottom, height, h);
    assert Windowed(timers, base, row) by {
      assert forall i :: 0 <= i < |row| ==> row[i] in row && row[i] in bottom;
    }
    forall i, j | 0 <= i <= j < |row| && Passes(timers, t, row[i]) ensures Passes(timers, t, row[j]) {
      PassesIsMonotone(timers, base, row, t, i, j);
    }
  }

  /** Linking `t` at the found positions of the lowest `k` rows gives it height `k`. */
  lemma {:induction false} RowsInsert(timers: seq<Timer>, rows: seq<seq<TimerId>>, bottom: seq<TimerId>, height: seq<nat>, pos: seq<nat>, t: TimerId, k: nat, rows': seq<seq<TimerId>>)
    requires RowsOf(rows, bottom, height) && |height| == |timers| && t < |timers| && t !in bottom
    requires Known(timers, bottom) && rows[|rows| - 1] == bottom
    requires |pos| == |rows| == |rows'| && 1 <= k <= |rows| && pos[|pos| - 1] <= |bottom|
    requires forall lvl :: 0 <= lvl < |rows| ==>
      && pos[lvl] <= |rows[lvl]| && Known(timers, rows[lvl]) && Splits(timers, rows[lvl], pos[lvl], t)
      && rows'[lvl] == if lvl >= |rows| - k then Insert(rows[lvl], pos[lvl], t) else rows[lvl]
    ensures RowsOf(rows', Insert(bottom, pos[|pos| - 1], t), height[t := k])
  {
    hide Splits, Known, NoDuplicates;
    var n, height' := pos[|pos| - 1], height[t := k];
    assert rows[|rows| - 1] == bottom;
    forall lvl | 0 <= lvl < |rows| ensures rows'[lvl] == Tall(Insert(bottom, n, t), height', |rows| - lvl) {
      var h := |rows| - lvl;
      TallSame(bottom, height, height', h);
      assert rows[lvl] == Tall(bottom, height', h);
      SplitsTall(timers, bottom, n, t, height', h, pos[lvl]);
      TallInsert(bottom, n, t, height', h);
    }
  }

  lemma {:induction false} RowsWithout(rows: seq<seq<TimerId>>, rows': seq<seq<TimerId>>, bottom: seq<TimerId>, height: seq<nat>, t: TimerId)
    requires RowsOf(rows, bottom, height) && NoDuplicates(bottom) && |rows'| == |rows|
    requires forall lvl :: 0 <= lvl < |rows| ==> rows'[lvl] == Without(rows[lvl], t)
    ensures RowsOf(rows', Without(bottom, t), height)
  {
    hide NoDuplicates, Without, Tall;
    var n := |rows|;
    forall lvl | 0 <= lvl < n ensures rows'[lvl] == Tall(Without(bottom, t), height, n - lvl) {
      var row := rows[lvl];
      assert row == Tall(bottom, height, n - lvl);
      assert rows'[lvl] == Without(row, t);
      TallWithout(bottom, height, n - lvl, t);
    }
  }

  /** All of the timers in `s` are due no later than `t`, or all later, in ticks from `base`. */
  ghost predicate NoLater(timers: seq<Timer>, base: Tick, s: seq<TimerId>, t: TimerId) {
    forall u <- s :: u < |timers| && t < |timers| && Diff(timers[u].timeoutTick, base) <= Diff(timers[t].timeoutTick, base)
  }

  ghost predicate Later(timers: seq<Timer>, base: Tick, s: seq<TimerId>, t: TimerId) {
    forall u <- s :: u < |timers| && t < |timers| && Diff(timers[u].timeoutTick, base) > Diff(timers[t].timeoutTick, base)
  }

  lemma {:induction false} SplitsByOffset(timers: seq<Timer>, base: Tick, s: seq<TimerId>, n: nat, t: TimerId)
    requires Known(timers, s) && t < |timers| && Splits(timers, s, n, t)
    requires Windowed(timers, base, s) && InWindow(base, timers[t].timeoutTick)
    ensures NoLater(timers, base, s[..n], t) && Later(timers, base, s[n..], t)
  {
    hide InWindow, Diff;
    forall u | u in s[..n] ensures u < |timers| && Diff(timers[u].timeoutTick, base) <= Diff(timers[t].timeoutTick, base) {
      var i :| 0 <= i < n && s[i] == u;
      WindowOrder(base, timers[u].timeoutTick, timers[t].timeoutTick);
    }
    forall u | u in s[n..] ensures u < |timers| && Diff(timers[u].timeoutTick, base) > Diff(timers[t].timeoutTick, base) {
      var i :| n <= i < |s| && s[i] == u;
      WindowOrder(base, timers[u].timeoutTick, timers[t].timeoutTick);
    }
  }

  lemma {:induction false} SameOffsets(was: seq<Timer>, timers: seq<Timer>, base: Tick, s: seq<TimerId>, n: nat, t: TimerId)
    requires n <= |s| && |timers| == |was| && t < |was| && timers == was[t := was[t].(active := true)]
    requires NoLater(was, base, s[..n], t) && Later(was, base, s[n..], t)
    ensures NoLater(timers, base, s[..n], t) && Later(timers, base, s[n..], t)
  {
    hide Diff;
  }

  /** Expiry and order in ticks from the start of the window. */
  lemma {:induction false} ByOffset(timers: seq<Timer>, base: Tick, s: seq<TimerId>, now: Tick)
    requires Known(timers, s) && Windowed(timers, base, s) && InWindow(base, now)
    ensures forall i :: 0 <= i < |s| ==>
      (Expired(timers[s[i]], now) <==> Diff(timers[s[i]].timeoutTick, base) <= Diff(now, base))
    ensures Ordered(timers, s) ==> forall i, j :: 0 <= i < j < |s| ==>
      Diff(timers[s[i]].timeoutTick, base) <= Diff(timers[s[j]].timeoutTick, base)
  {
    hide InWindow, Diff;
    forall i | 0 <= i < |s| ensures Expired(timers[s[i]], now) <==> Diff(timers[s[i]].timeoutTick, base) <= Diff(now, base) {
      WindowOrder(base, now, timers[s[i]].timeoutTick);
    }
    if Ordered(timers, s) {
      forall i, j | 0 <= i < j < |s| ensures Diff(timers[s[i]].timeoutTick, base) <= Diff(timers[s[j]].timeoutTick, base) {
        WindowOrder(base, timers[s[j]].timeoutTick, timers[s[i]].timeoutTick);
      }
    }
  }

  lemma {:induction false} ByFired(was: seq<Timer>, timers: seq<Timer>, fired: seq<TimerId>, now: Tick)
    requires |timers| == |was| && Known(was, fired) && forall t <- fired :: t < |was| && timers[t] == Fired(was[t], now)
    ensures forall t <- fired :: timers[t].active == was[t].periodic
    ensures forall t <- fired ::
      timers[t].timeoutTick == if was[t].periodic then Add(now, was[t].initTick) else was[t].timeoutTick
  {
  }

  class TimerList {
    const mask: nat
    var timers: seq<Timer>
    var rows: seq<seq<TimerId>>
    var randomNr: Tick
    ghost var bottom: seq<TimerId>
    ghost var height: seq<nat>

    ghost predicate Valid()
      reads this
    {
      Consistent(timers, rows, bottom, height) && (mask == 1 || mask == 3)
    }

    constructor (levels: nat, mask: nat, timers: seq<Timer>)
      requires 0 < levels && (mask == 1 || mask == 3)
      requires forall i :: 0 <= i < |timers| ==> !timers[i].active
      ensures Valid() && this.timers == timers && bottom == [] && |rows| == levels
    {
      this.mask, this.timers := mask, timers;
      rows := seq(levels, i => []);
      randomNr, bottom := 0, [];
      height := seq(|timers|, i => 0);
    }

    /** `_timer_remove`: unlink a timer from every row. */
    method TimerRemove(t: TimerId)
      requires RowsOf(rows, bottom, height) && NoDuplicates(bottom)
      modifies this`rows, this`bottom
      ensures RowsOf(rows, bottom, height) && |rows| == |old(rows)|
      ensures bottom == Without(old(bottom), t)
    {
      ghost var before := rows;
      for i := 0 to |rows|
        invariant |rows| == |before| && bottom == old(bottom)
        invariant forall lvl :: 0 <= lvl < |rows| ==> rows[lvl] == if lvl < i then Without(before[lvl], t) else before[lvl]
      {
        rows := rows[i := Without(rows[i], t)];
      }
      RowsWithout(before, rows, bottom, height, t);
      bottom := Without(bottom, t);
    }

    /** Where the node of `u` in one row sits in the row below. */
    method Below(row: seq<TimerId>, u: TimerId) returns (k: nat)
      requires u in row
      ensures k < |row| && row[k] == u
    {
      k :| 0 <= k < |row| && row[k] == u;
    }

    /** The search of `rt_timer_start`: row by row, from where the row above stopped. */
    method Search(t: TimerId, ghost base: Tick) returns (pos: seq<nat>)
      requires RowsOf(rows, bottom, height) && Known(timers, bottom) && t < |timers|
      requires Ordered(timers, bottom) && Windowed(timers, base, bottom) && InWindow(base, timers[t].timeoutTick)
      ensures |pos| == |rows|
      ensures forall lvl :: 0 <= lvl < |rows| ==>
        pos[lvl] <= |rows[lvl]| && Known(timers, rows[lvl]) && Splits(timers, rows[lvl], pos[lvl], t)
    {
      pos := [];
      for lvl := 0 to |rows|
        invariant |pos| == lvl
        invariant forall l :: 0 <= l < lvl ==> Known(timers, rows[l]) && Splits(timers, rows[l], pos[l], t)
      {
        var row := rows[lvl];
        RowFacts(timers, base, bottom, height, |rows| - lvl, t);
        var p := 0;
        if lvl > 0 && pos[lvl - 1] > 0 {
          var u := rows[lvl - 1][pos[lvl - 1] - 1];
          StillBelow(bottom, height, |rows| - lvl, u, rows[lvl - 1]);
          var k := Below(row, u);
          p := k + 1;
        }
        while p < |row| && !Passes(timers, t, row[p])
          invariant p <= |row|
          invariant forall i :: 0 <= i < p ==> !Passes(timers, t, row[i])
        {
          p := p + 1;
        }
        pos := pos + [p];
      }
    }

    lemma {:induction false} StillBelow(bottom: seq<TimerId>, height: seq<nat>, h: nat, u: TimerId, above: seq<TimerId>)
      requires above == Tall(bottom, height, h + 1) && u in above
      ensures u in Tall(bottom, height, h)
    {
      TallMembers(bottom, height, h);
      TallMembers(bottom, height, h + 1);
    }

    /** Link `t` in the bottom row and, as the insertion counter decides, in rows above it. */
    method InsertRows(t: TimerId, pos: seq<nat>)
      requires RowsOf(rows, bottom, height) && |height| == |timers| && t < |timers| && t !in bottom
      requires Known(timers, bottom) && rows[|rows| - 1] == bottom
      requires 0 < |rows| == |pos| && pos[|pos| - 1] <= |bottom|
      requires forall lvl :: 0 <= lvl < |rows| ==>
        pos[lvl] <= |rows[lvl]| && Known(timers, rows[lvl]) && Splits(timers, rows[lvl], pos[lvl], t)
      modifies this`rows, this`randomNr, this`bottom, this`height
      ensures RowsOf(rows, bottom, height) && |rows| == |old(rows)|
      ensures bottom == Insert(old(bottom), pos[|pos| - 1], t)
      ensures |height| == |old(height)| && 1 <= height[t] <= |rows| && height == old(height)[t := height[t]]
      ensures randomNr == Add(old(randomNr), 1)
    {
      hide RowsOf, NoDuplicates, Splits, Known;
      ghost var before := rows;
      var levels := |rows|;
      randomNr := Add(randomNr, 1);
      var tst: int := randomNr;
      rows := rows[levels - 1 := Insert(rows[levels - 1], pos[levels - 1], t)];
      var rowLvl := 2;
      while rowLvl <= levels && tst % (mask + 1) == 0
        invariant 2 <= rowLvl <= levels + 1 && |rows| == levels
        invariant bottom == old(bottom) && height == old(height) && randomNr == Add(old(randomNr), 1)
        invariant forall lvl :: 0 <= lvl < levels ==>
          rows[lvl] == if lvl >= levels - (rowLvl - 1) then Insert(before[lvl], pos[lvl], t) else before[lvl]
      {
        rows := rows[levels - rowLvl := Insert(rows[levels - rowLvl], pos[levels - rowLvl], t)];
        tst := tst / (mask + 1);
        rowLvl := rowLvl + 1;
      }
      RowsInsert(timers, before, bottom, height, pos, t, rowLvl - 1, rows);
      bottom := Insert(bottom, pos[levels - 1], t);
      height := height[t := rowLvl - 1];
    }
  
    /** `rt_timer_start` at tick `now`: afterwards the timer follows every timer that fires no later
      * and precedes every later one. `base` witnesses the half-range window of the live timeouts. */
    method Start(t: TimerId, now: Tick, ghost base: Tick)
      requires Valid() && t < |timers|
      requires Windowed(timers, base, bottom) && InWindow(base, Add(now, timers[t].initTick))
      modifies this`timers, this`rows, this`randomNr, this`bottom, this`height
      ensures Valid() && |rows| == |old(rows)|
      ensures timers == old(timers)[t := old(timers)[t].(active := true, timeoutTick := Add(now, old(timers)[t].initTick))]
      ensures exists n :: 0 <= n <= |Without(old(bottom), t)| && bottom == Insert(Without(old(bottom), t), n, t) &&
                Known(timers, Without(old(bottom), t)) && Splits(timers, Without(old(bottom), t), n, t) &&
                NoLater(timers, base, Without(old(bottom), t)[..n], t) && Later(timers, base, Without(old(bottom), t)[n..], t)
      ensures Windowed(timers, base, bottom)
    {
      hide NoDuplicates, Ordered, Windowed, Splits, RowsOf, Known, InWindow, Without, Insert, Add;
      ghost var s, wasTimers := bottom, timers;
      TimerRemove(t);
      timers := timers[t := timers[t].(active := false)];
      timers := timers[t := timers[t].(timeoutTick := Add(now, timers[t].initTick))];
      RemovedFacts(wasTimers, timers, base, s, t);
      BottomRow(rows, bottom, height);
      var pos := Search(t, base);
      ghost var n := pos[|rows| - 1];
      InsertRows(t, pos);
      ghost var wasStarted := timers;
      SplitsByOffset(timers, base, Without(s, t), n, t);
      StartedFacts(timers, base, Without(s, t), n, t);
      timers := timers[t := timers[t].(active := true)];
      SameOffsets(wasStarted, timers, base, Without(s, t), n, t);
      InsertMembers(Without(s, t), n, t);
    }

    /** `rt_timer_stop`. */
    method Stop(t: TimerId) returns (status: Status)
      requires Valid() && t < |timers|
      modifies this`timers, this`rows, this`bottom
      ensures Valid()
      ensures status == Ok <==> old(timers)[t].active
      ensures timers == old(timers)[t := old(timers)[t].(active := false)]
      ensures bottom == Without(old(bottom), t)
    {
      hide NoDuplicates, Ordered, RowsOf, Known, Without;
      if !timers[t].active {
        WithoutAbsent(bottom, t);
        assert timers[t].(active := false) == timers[t];
        return Error;
      }
      Detach(t);
      status := Ok;
    }

    /** Unlink a timer and mark it inactive. */
    method Detach(t: TimerId)
      requires Valid() && t < |timers|
      modifies this`timers, this`rows, this`bottom
      ensures Valid() && |rows| == |old(rows)|
      ensures timers == old(timers)[t := old(timers)[t].(active := false)]
      ensures bottom == Without(old(bottom), t)
    {
      hide NoDuplicates, Ordered, RowsOf, Known, Without;
      ghost var s, wasTimers := bottom, timers;
      TimerRemove(t);
      timers := timers[t := timers[t].(active := false)];
      DetachedFacts(wasTimers, timers, s, t);
    }

    /** The body of the loop of `rt_timer_check` for an expired first timer. The callback, which
      * may not touch timers or the tick, happens where the timer joins `fired`. */
    method FireFirst(now: Tick, ghost base: Tick) returns (t: TimerId)
      requires Valid() && bottom != []
      requires Windowed(timers, base, bottom)
      requires bottom[0] < |timers|
      requires timers[bottom[0]].periodic ==> InWindow(base, Add(now, timers[bottom[0]].initTick))
      modifies this`timers, this`rows, this`randomNr, this`bottom, this`height
      ensures Valid() && Windowed(timers, base, bottom)
      ensures t == old(bottom)[0] && t < |old(timers)|
      ensures timers == old(timers)[t := Fired(old(timers)[t], now)]
      ensures if old(timers)[t].periodic
              then exists n :: 0 <= n < |old(bottom)| && bottom == Insert(old(bottom)[1..], n, t)
              else bottom == old(bottom)[1..]
    {
      hide NoDuplicates, Ordered, Windowed, Splits, RowsOf, Known, InWindow, Without, Insert;
      BottomRow(rows, bottom, height);
      t := rows[|rows| - 1][0];
      ghost var s, wasTimers := bottom, timers;
      FirstWithout(s);
      var periodic := timers[t].periodic;
      // a one-shot timer goes inactive before its callback, a periodic one between callback and restart
      Detach(t);
      DetachedWindow(wasTimers, timers, base, s, t);
      if periodic {
        WithoutAbsent(bottom, t);
        Start(t, now, base);
      }
    }

    /** `rt_timer_check` at tick `now`. */
    method Check(now: Tick, ghost base: Tick) returns (fired: seq<TimerId>)
      requires Valid() && Windowed(timers, base, bottom) && InWindow(base, now)
      requires forall t :: t in bottom && t < |timers| && timers[t].periodic ==>
                 1 <= timers[t].initTick < HALF && InWindow(base, Add(now, timers[t].initTick))
      modifies this`timers, this`rows, this`randomNr, this`bottom, this`height
      ensures Valid()
      ensures fired <= old(bottom)
      ensures Known(old(timers), fired) && Ordered(old(timers), fired)
      ensures forall i :: 0 <= i < |old(bottom)| ==>
                (i < |fired| <==> Expired(old(timers)[old(bottom)[i]], now))
      ensures |timers| == |old(timers)| && forall t: TimerId :: t < |timers| ==>
                timers[t] == if t in fired then Fired(old(timers)[t], now) else old(timers)[t]
      ensures forall t :: t in bottom ==> t < |timers| && !Expired(timers[t], now)
      // In ticks from the start of the window: exactly the timers due at `now` have fired, the earlier before the
      // later; a periodic one is due `initTick` from now, a one-shot one is off; and what is left is due later.
      ensures forall i :: 0 <= i < |old(bottom)| ==>
                (i < |fired| <==> Diff(old(timers)[old(bottom)[i]].timeoutTick, base) <= Diff(now, base))
      ensures forall i, j :: 0 <= i < j < |fired| ==>
                Diff(old(timers)[fired[i]].timeoutTick, base) <= Diff(old(timers)[fired[j]].timeoutTick, base)
      ensures forall t <- fired :: t < |timers| && timers[t].active == old(timers)[t].periodic
      ensures forall t <- fired :: t < |timers| &&
                timers[t].timeoutTick == if old(timers)[t].periodic then Add(now, old(timers)[t].initTick) else old(timers)[t].timeoutTick
      ensures forall t <- bottom :: t < |timers| && Diff(timers[t].timeoutTick, base) > Diff(now, base)
    {
      hide Consistent, Windowed, Ordered, NoDuplicates, Expired, Fired, Diff;
      ghost var was, first := timers, bottom;
      ListFacts(timers, rows, bottom, height);
      fired := FireAll(now, base);
      ByOffset(was, base, first, now);
      ByOffset(timers, base, bottom, now);
      ByFired(was, timers, fired, now);
    }

    /** Its loop. */
    method FireAll(now: Tick, ghost base: Tick) returns (fired: seq<TimerId>)
      requires Valid() && Windowed(timers, base, bottom) && InWindow(base, now)
      requires forall t :: t in bottom && t < |timers| && timers[t].periodic ==>
                 1 <= timers[t].initTick < HALF && InWindow(base, Add(now, timers[t].initTick))
      modifies this`timers, this`rows, this`randomNr, this`bottom, this`height
      ensures Valid()
      ensures fired <= old(bottom)
      ensures Known(old(timers), fired) && Ordered(old(timers), fired)
      ensures forall i :: 0 <= i < |old(bottom)| ==>
                (i < |fired| <==> Expired(old(timers)[old(bottom)[i]], now))
      ensures |timers| == |old(timers)| && forall t: TimerId :: t < |timers| ==>
                timers[t] == if t in fired then Fired(old(timers)[t], now) else old(timers)[t]
      ensures forall t :: t in bottom ==> t < |timers| && !Expired(timers[t], now)
      ensures Known(timers, bottom) && Windowed(timers, base, bottom)
    {
      hide Consistent, Windowed, Ordered, NoDuplicates, Expired, Fired, Unfired, InWindow, Add;
      fired := [];
      ghost var first, wasTimers := bottom, timers;
      NoneFired(first);
      ListFacts(timers, rows, bottom, height);
      PrefixesOrdered(timers, bottom);
      while rows[|rows| - 1] != []
        invariant Valid() && Known(timers, bottom) && Windowed(timers, base, bottom) && |timers| == |wasTimers|
        invariant 0 < |rows| && rows[|rows| - 1] == bottom
        invariant |fired| <= |first| && fired == first[..|fired|] && Unfired(bottom, fired) == first[|fired|..]
        invariant forall i :: 0 <= i < |fired| ==> Expired(wasTimers[first[i]], now)
        invariant forall t: TimerId :: t < |timers| ==>
          timers[t] == if t in fired then Fired(wasTimers[t], now) else wasTimers[t]
        invariant forall t :: t in bottom ==> t in first
        decreases |first| - |fired|
      {
        ghost var s, f := bottom, fired;
        ListFacts(timers, rows, bottom, height);
        if Expired(timers[rows[|rows| - 1][0]], now) {
          NextFired(wasTimers, now, base, first, f, s, timers);
          var t := FireFirst(now, base);
          FiredStep(first, f, s, bottom, t);
          fired := fired + [t];
          ListFacts(timers, rows, bottom, height);
        } else {
          break;
        }
      }
      ListFacts(timers, rows, bottom, height);
      NothingLeft(timers, now, base, bottom);
      UnfiredNotExpired(wasTimers, timers, now, first, fired, bottom);
    }
  }

  lemma {:induction false} ListFacts(timers: seq<Timer>, rows: seq<seq<TimerId>>, bottom: seq<TimerId>, height: seq<nat>)
    requires Consistent(timers, rows, bottom, height)
    ensures 0 < |rows| && rows[|rows| - 1] == bottom
    ensures NoDuplicates(bottom) && Known(timers, bottom) && Ordered(timers, bottom)
    ensures forall t :: t in bottom ==> t < |timers| && timers[t].active
    ensures bottom != [] ==> bottom[0] in bottom
  {
    BottomRow(rows, bottom, height);
  }

  predicate Expired(timer: Timer, now: Tick) {
    Diff(now, timer.timeoutTick) < HALF
  }

  /** A timer after it has fired: a periodic one is armed again, a one-shot one is inactive. */
  function Fired(timer: Timer, now: Tick): Timer {
    if timer.periodic then timer.(active := true, timeoutTick := Add(now, timer.initTick))
    else timer.(active := false)
  }

  /** The members of `s` that have not fired yet. */
  ghost function Unfired(s: seq<TimerId>, fired: seq<TimerId>): seq<TimerId> {
    if s == [] then []
    else if s[0] in fired then Unfired(s[1..], fired)
    else [s[0]] + Unfired(s[1..], fired)
  }

  lemma {:induction false} NoneFired(s: seq<TimerId>)
    ensures Unfired(s, []) == s
  {
    if s != [] {
      NoneFired(s[1..]);
    }
  }

  lemma {:induction false} UnfiredMembers(s: seq<TimerId>, fired: seq<TimerId>)
    ensures forall t :: t in Unfired(s, fired) <==> t in s && t !in fired
  {
    if s != [] {
      UnfiredMembers(s[1..], fired);
      assert s == [s[0]] + s[1..];
    }
  }

  lemma {:induction false} UnfiredConcat(a: seq<TimerId>, b: seq<TimerId>, fired: seq<TimerId>)
    ensures Unfired(a + b, fired) == Unfired(a, fired) + Unfired(b, fired)
  {
    if a == [] {
      assert a + b == b;
    } else {
      assert (a + b)[1..] == a[1..] + b;
      UnfiredConcat(a[1..], b, fired);
    }
  }

  /** Re-arming a fired timer leaves the order of the others alone. */
  lemma {:induction false} UnfiredInsert(s: seq<TimerId>, n: nat, t: TimerId, fired: seq<TimerId>)
    requires n <= |s| && t in fired
    ensures Unfired(Insert(s, n, t), fired) == Unfired(s, fired)
  {
    assert s == s[..n] + s[n..];
    UnfiredConcat(s[..n], s[n..], fired);
    UnfiredConcat(s[..n] + [t], s[n..], fired);
    UnfiredConcat(s[..n], [t], fired);
  }

  lemma {:induction false} UnfiredMore(s: seq<TimerId>, fired: seq<TimerId>, t: TimerId)
    requires t !in s
    ensures Unfired(s, fired + [t]) == Unfired(s, fired)
  {
    if s != [] {
      assert s[0] in s && forall u :: u in s[1..] ==> u in s;
      UnfiredMore(s[1..], fired, t);
    }
  }

  /** An expired first timer has not fired before, so it is the next one in the original order. */
  lemma {:induction false} NextFired(wasTimers: seq<Timer>, now: Tick, base: Tick, first: seq<TimerId>, fired: seq<TimerId>, s: seq<TimerId>, timers: seq<Timer>)
    requires |timers| == |wasTimers| && s != [] && s[0] < |timers| && Expired(timers[s[0]], now)
    requires |fired| <= |first| && Unfired(s, fired) == first[|fired|..]
    requires forall t: TimerId :: t < |timers| ==>
      timers[t] == if t in fired then Fired(wasTimers[t], now) else wasTimers[t]
    requires wasTimers[s[0]].periodic ==> 1 <= wasTimers[s[0]].initTick < HALF
    requires timers[s[0]].active
    ensures s[0] !in fired && timers[s[0]] == wasTimers[s[0]]
    ensures |fired| < |first| && first[|fired|] == s[0]
  {
    var t := s[0];
    if t in fired {
      Rearmed(now, wasTimers[t].initTick);
      assert false;
    }
    assert Unfired(s, fired)[0] == t;
  }

  /** A timer armed for at least one tick from now has not expired. */
  lemma {:induction false} Rearmed(now: Tick, initTick: Tick)
    requires 1 <= initTick < HALF
    ensures Diff(now, Add(now, initTick)) >= HALF
  {
    var due := Add(now, initTick);
    assert due == now + initTick || due == now + initTick - TICKS;
  }

  lemma {:induction false} FiredStep(first: seq<TimerId>, fired: seq<TimerId>, s: seq<TimerId>, r: seq<TimerId>, t: TimerId)
    requires NoDuplicates(s) && s != [] && t == s[0] && t !in fired
    requires |fired| < |first| && fired == first[..|fired|] && Unfired(s, fired) == first[|fired|..]
    requires r == s[1..] || exists n :: 0 <= n < |s| && r == Insert(s[1..], n, t)
    ensures Unfired(r, fired + [t]) == first[|fired| + 1..]
    ensures forall u :: u in r ==> u in s
  {
    TailMembers(s);
    UnfiredMore(s[1..], fired, t);
    assert Unfired(s, fired) == [t] + Unfired(s[1..], fired);
    assert Unfired(s[1..], fired) == first[|fired| + 1..];
    if r != s[1..] {
      var n :| 0 <= n < |s| && r == Insert(s[1..], n, t);
      UnfiredInsert(s[1..], n, t, fired + [t]);
      InsertMembers(s[1..], n, t);
    }
  }

  /** In firing order, nothing behind a timer that has not expired has expired. */
  lemma {:induction false} NothingLeft(timers: seq<Timer>, now: Tick, base: Tick, s: seq<TimerId>)
    requires Known(timers, s) && Ordered(timers, s) && Windowed(timers, base, s) && InWindow(base, now)
    requires s == [] || !Expired(timers[s[0]], now)
    ensures forall t :: t in s ==> t < |timers| && !Expired(timers[t], now)
  {
    forall i | 0 <= i < |s| ensures !Expired(timers[s[i]], now) {
      if i > 0 {
        assert NotBefore(timers, s[i], s[0]);
        WindowOrder(base, timers[s[i]].timeoutTick, timers[s[0]].timeoutTick);
        WindowOrder(base, now, timers[s[0]].timeoutTick);
        WindowOrder(base, now, timers[s[i]].timeoutTick);
      }
    }
  }

  lemma {:induction false} UnfiredNotExpired(wasTimers: seq<Timer>, timers: seq<Timer>, now: Tick, first: seq<TimerId>, fired: seq<TimerId>, bottom: seq<TimerId>)
    requires |timers| == |wasTimers| && Known(timers, first) && Known(timers, bottom)
    requires |fired| <= |first| && Unfired(bottom, fired) == first[|fired|..]
    requires forall t: TimerId :: t < |timers| && t !in fired ==> timers[t] == wasTimers[t]
    requires forall t :: t in bottom ==> t < |timers| && !Expired(timers[t], now)
    ensures forall i :: |fired| <= i < |first| ==> !Expired(wasTimers[first[i]], now)
  {
    UnfiredMembers(bottom, fired);
    forall i | |fired| <= i < |first| ensures !Expired(wasTimers[first[i]], now) {
      assert first[i] == first[|fired|..][i - |fired|];
      assert first[i] in Unfired(bottom, fired);
    }
  }

  lemma {:induction false} FirstWithout(s: seq<TimerId>)
    requires s != []
    ensures Without(s, s[0]) == s[1..]
  {
  }

  lemma {:induction false} DetachedFacts(before: seq<Timer>, after: seq<Timer>, s: seq<TimerId>, t: TimerId)
    requires NoDuplicates(s) && Known(before, s) && Ordered(before, s)
    requires t < |before| && after == before[t := before[t].(active := false)]
    ensures var r := Without(s, t);
            NoDuplicates(r) && (forall u :: u in r <==> u in s && u != t) && Known(after, r) && Ordered(after, r)
  {
    WithoutMembers(s, t);
    WithoutOrdered(before, s, t);
  }

  lemma {:induction false} DetachedWindow(before: seq<Timer>, after: seq<Timer>, base: Tick, s: seq<TimerId>, t: TimerId)
    requires NoDuplicates(s) && Known(before, s) && Windowed(before, base, s)
    requires t < |before| && after == before[t := before[t].(active := false)]
    ensures Known(after, Without(s, t)) && Windowed(after, base, Without(s, t)) && t !in Without(s, t)
  {
    var r := Without(s, t);
    WithoutMembers(s, t);
    assert forall i :: 0 <= i < |r| ==> r[i] in r && r[i] in s;
  }

  lemma {:induction false} RemovedFacts(before: seq<Timer>, after: seq<Timer>, base: Tick, s: seq<TimerId>, t: TimerId)
    requires NoDuplicates(s) && Known(before, s) && Ordered(before, s) && Windowed(before, base, s)
    requires |after| == |before| && t < |before| && forall u :: 0 <= u < |before| && u != t ==> after[u] == before[u]
    ensures var r := Without(s, t);
            && NoDuplicates(r) && (forall u :: u in r <==> u in s && u != t)
            && Known(after, r) && Ordered(after, r) && Windowed(after, base, r)
  {
    var r := Without(s, t);
    WithoutMembers(s, t);
    WithoutOrdered(before, s, t);
    assert forall i :: 0 <= i < |r| ==> r[i] in r && r[i] in s;
  }

  lemma {:induction false} StartedFacts(timers: seq<Timer>, base: Tick, s: seq<TimerId>, n: nat, t: TimerId)
    requires Known(timers, s) && t < |timers| && Splits(timers, s, n, t) && !timers[t].active
    requires Ordered(timers, s) && Windowed(timers, base, s) && InWindow(base, timers[t].timeoutTick)
    ensures var r := timers[t := timers[t].(active := true)];
            && Known(r, s) && Splits(r, s, n, t)
            && Known(r, Insert(s, n, t)) && Ordered(r, Insert(s, n, t)) && Windowed(r, base, Insert(s, n, t))
  {
    InsertOrdered(timers, base, s, n, t);
  }
}
