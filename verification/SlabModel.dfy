/** What holds of the slab allocator's pages, zones and chunks. Addresses count bytes from the start of the
    heap; RT_MM_PAGE_SIZE is 4096. */
module SlabModel {
  import opened Arithmetic
  import opened Lists
  import opened PageRuns
  import opened ZoneSizes

  const PAGE := 4096

  // The pages of the heap, and the zone size and limit that rt_slab_init chooses.
  datatype Geometry = Geometry(pages: nat, zonePages: nat, limit: nat, header: nat)

  predicate Sized(g: Geometry) {
    && g.header <= 128
    && ((g.zonePages == 8 && g.limit == 8192) || (g.zonePages in {16, 32} && g.limit == 16384))
  }

  // struct rt_slab_zone; `base` is z_baseptr and `free` z_freechunk, as addresses.
  datatype Zone = Zone(nfree: nat, nmax: nat, uindex: nat, chunkSize: nat, index: nat, base: nat, free: seq<nat>)

  datatype Kind = FreePage | SmallPage | LargePage

  datatype Usage = Usage(kind: Kind, size: nat)

  // The pages taken from the page list: extents that do not overlap and that together with the free pages
  // are all the pages there are.
  ghost predicate PagesOk(runs: seq<Run>, taken: map<nat, nat>, pages: nat) {
    && Coalesced(runs)
    && (forall p: nat :: IsFree(runs, p) ==> p < pages)
    && (forall a: nat :: a in taken ==> taken[a] > 0 && a + taken[a] <= pages && NoneFree(runs, a, taken[a]))
    && (forall a: nat, b: nat :: a in taken && b in taken && a < b ==> a + taken[a] <= b)
    && (forall p: nat :: p < pages ==> IsFree(runs, p) || Covered(taken, p))
  }

  ghost predicate Covered(taken: map<nat, nat>, p: nat) {
    exists a: nat :: a in taken && a <= p < a + taken[a]
  }

  lemma {:induction false} TakePages(runs: seq<Run>, taken: map<nat, nat>, pages: nat, i: nat, n: nat)
    requires PagesOk(runs, taken, pages) && i < |runs| && 0 < n <= runs[i].len
    ensures runs[i].start !in taken && runs[i].start + n <= pages
    ensures PagesOk(Cut(runs, i, n), taken[runs[i].start := n], pages)
    ensures forall a: nat :: a in taken ==> taken[a] > 0 && (a + taken[a] <= runs[i].start || runs[i].start + n <= a)
  {
    hide Cut, IsFree, Coalesced;
    var b := runs[i].start;
    var taken1 := taken[b := n];
    var cut := Cut(runs, i, n);
    CutRuns(runs, i, n);
    assert IsFree(runs, b + n - 1) && IsFree(runs, b);
    forall a: nat | a in taken ensures a + taken[a] <= b || b + n <= a {
      var p := if a <= b then b else a;
      assert b <= p < b + n ==> IsFree(runs, p);
      assert a <= p < a + taken[a] ==> !IsFree(runs, p);
    }
    forall p: nat ensures IsFree(cut, p) <==> IsFree(runs, p) && !(b <= p < b + n) { CutFrees(runs, i, n, p); }
    forall p: nat | p < pages ensures IsFree(cut, p) || Covered(taken1, p) {
      if Covered(taken, p) {
        var a: nat :| a in taken && a <= p < a + taken[a];
        assert a in taken1 && a <= p < a + taken1[a];
      } else if b <= p < b + n {
        assert b in taken1 && b <= p < b + taken1[b];
      }
    }
  }

  lemma {:induction false} GivePages(runs: seq<Run>, taken: map<nat, nat>, pages: nat, i: nat, a: nat)
    requires PagesOk(runs, taken, pages) && a in taken && Between(runs, i, a, taken[a])
    ensures PagesOk(Put(runs, i, a, taken[a]), taken - {a}, pages)
  {
    hide Put, IsFree, Coalesced;
    var n := taken[a];
    var put := Put(runs, i, a, n);
    var taken1 := taken - {a};
    PutRuns(runs, i, a, n);
    forall p: nat ensures IsFree(put, p) <==> IsFree(runs, p) || a <= p < a + n { PutFrees(runs, i, a, n, p); }
    forall b: nat | b in taken1 ensures NoneFree(put, b, taken1[b]) {
      assert NoneFree(runs, b, taken[b]);
      forall p: nat | b <= p < b + taken1[b] ensures !IsFree(put, p) {
        assert !IsFree(runs, p);
      }
    }
    forall p: nat | p < pages ensures IsFree(put, p) || Covered(taken1, p) {
      if !IsFree(runs, p) && !(a <= p < a + n) {
        var b: nat :| b in taken && b <= p < b + taken[b];
        assert b in taken1 && b <= p < b + taken1[b];
      }
    }
  }

  function Addr(x: Zone, k: nat): nat { x.base + k * x.chunkSize }

  lemma {:induction false} AddrsApart(x: Zone, j: nat, k: nat)
    requires x.chunkSize > 0
    ensures j < k ==> Addr(x, j) + x.chunkSize <= Addr(x, k)
    ensures Addr(x, j) == Addr(x, k) <==> j == k
  {
    var d := k - j;
    assert d * x.chunkSize == k * x.chunkSize - j * x.chunkSize;
    Multiples(d, x.chunkSize);
  }

  // A zone: its chunks lie behind its header within its pages; those up to z_uindex have been given out
  // once, and of these the ones on the free list are free again.
  ghost predicate ZoneOk(g: Geometry, z: nat, x: Zone) {
    && 2 <= x.nmax && x.uindex < x.nmax && x.index < ZONES && x.chunkSize == ChunkOf(x.index)
    && z * PAGE + g.header <= x.base && Addr(x, x.nmax) <= (z + g.zonePages) * PAGE
    && NoDuplicates(x.free) && (forall f: nat :: f in x.free ==> WasOut(x, f))
    && x.nfree == x.nmax - 1 - x.uindex + |x.free|
  }

  ghost predicate WasOut(x: Zone, f: nat) {
    exists k: nat :: k <= x.uindex && f == Addr(x, k)
  }

  lemma {:induction false} ChunkPositive(i: nat)
    requires i < ZONES
    ensures ChunkOf(i) > 0
  {
  }

  // Every zone is an extent of pages that the usage table maps back to its first page.
  ghost predicate ZonesOk(g: Geometry, zones: map<nat, Zone>, taken: map<nat, nat>, usage: map<nat, Usage>) {
    forall z: nat :: z in zones ==>
      z in taken && taken[z] == g.zonePages && ZoneOk(g, z, zones[z]) && Mapped(usage, z, g.zonePages)
  }

  ghost predicate Mapped(usage: map<nat, Usage>, z: nat, n: nat) {
    forall p: nat :: z <= p < z + n ==> p in usage && usage[p] == Usage(SmallPage, p - z)
  }

  ghost predicate LargesOk(zones: map<nat, Zone>, large: map<nat, nat>, taken: map<nat, nat>, usage: map<nat, Usage>) {
    forall a: nat :: a in large ==>
      a in taken && taken[a] == large[a] && a !in zones && a in usage && usage[a] == Usage(LargePage, large[a])
  }

  // zone_array[i] holds exactly the zones of index i with z_nfree > 0; the idle list holds whole zones.
  ghost predicate ListsOk(zones: map<nat, Zone>, lists: seq<seq<nat>>, idle: seq<nat>) {
    && |lists| == ZONES
    && (forall i: nat :: i < ZONES ==> ListOk(zones, idle, i, lists[i]))
    && NoDuplicates(idle) && (forall z: nat :: z in idle ==> z in zones)
  }

  ghost predicate ListOk(zones: map<nat, Zone>, idle: seq<nat>, i: nat, list: seq<nat>) {
    NoDuplicates(list) && forall z: nat :: z in list <==> z in zones && z !in idle && zones[z].index == i && zones[z].nfree > 0
  }

  // What callers hold: a chunk of a zone, or pages of their own.
  datatype Object = Chunk(zone: nat, k: nat) | Large(page: nat)

  ghost predicate Live(zones: map<nat, Zone>, idle: seq<nat>, large: map<nat, nat>, o: Object) {
    match o
    case Chunk(z, k) => z in zones && z !in idle && k <= zones[z].uindex && Addr(zones[z], k) !in zones[z].free
    case Large(a) => a in large
  }

  function From(zones: map<nat, Zone>, o: Object): nat {
    match o
    case Chunk(z, k) => if z in zones then Addr(zones[z], k) else 0
    case Large(a) => a * PAGE
  }

  function SizeOf(zones: map<nat, Zone>, large: map<nat, nat>, o: Object): nat {
    match o
    case Chunk(z, k) => if z in zones then zones[z].chunkSize else 0
    case Large(a) => if a in large then large[a] * PAGE else 0
  }

  // The extent an object lies in.
  function Home(o: Object): nat {
    match o
    case Chunk(z, _) => z
    case Large(a) => a
  }

  lemma {:induction false} ChunkInside(g: Geometry, z: nat, x: Zone, k: nat)
    requires ZoneOk(g, z, x) && k < x.nmax
    ensures x.chunkSize > 0
    ensures z * PAGE + g.header <= Addr(x, k) && Addr(x, k) + x.chunkSize <= (z + g.zonePages) * PAGE
  {
    ChunkPositive(x.index);
    AddrsApart(x, k, x.nmax);
    AddrsApart(x, 0, k);
  }

  // Live objects lie inside their extents, and no two share a byte.
  lemma {:induction false} LiveApart(g: Geometry, runs: seq<Run>, zones: map<nat, Zone>, idle: seq<nat>, large: map<nat, nat>,
      taken: map<nat, nat>, usage: map<nat, Usage>, o: Object, q: Object)
    requires PagesOk(runs, taken, g.pages) && ZonesOk(g, zones, taken, usage) && LargesOk(zones, large, taken, usage)
    requires Live(zones, idle, large, o) && Live(zones, idle, large, q) && o != q
    ensures From(zones, o) + SizeOf(zones, large, o) <= From(zones, q) || From(zones, q) + SizeOf(zones, large, q) <= From(zones, o)
  {
    LiveInside(g, zones, idle, large, taken, usage, o);
    LiveInside(g, zones, idle, large, taken, usage, q);
    hide ZonesOk, LargesOk, Live;
    var a, b := Home(o), Home(q);
    if a == b {
      SameHome(g, zones, idle, large, taken, usage, o, q);
      AddrsApart(zones[a], o.k, q.k);
      AddrsApart(zones[a], q.k, o.k);
    } else {
      assert a in taken && b in taken;
    }
  }

  lemma {:induction false} LiveInside(g: Geometry, zones: map<nat, Zone>, idle: seq<nat>, large: map<nat, nat>,
      taken: map<nat, nat>, usage: map<nat, Usage>, o: Object)
    requires ZonesOk(g, zones, taken, usage) && LargesOk(zones, large, taken, usage) && Live(zones, idle, large, o)
    ensures Home(o) in taken
    ensures Home(o) * PAGE <= From(zones, o)
    ensures From(zones, o) + SizeOf(zones, large, o) <= (Home(o) + taken[Home(o)]) * PAGE
  {
    match o
    case Chunk(z, k) => ChunkInside(g, z, zones[z], k);
    case Large(a) =>
  }

  lemma {:induction false} SameHome(g: Geometry, zones: map<nat, Zone>, idle: seq<nat>, large: map<nat, nat>,
      taken: map<nat, nat>, usage: map<nat, Usage>, o: Object, q: Object)
    requires ZonesOk(g, zones, taken, usage) && LargesOk(zones, large, taken, usage)
    requires Live(zones, idle, large, o) && Live(zones, idle, large, q) && o != q && Home(o) == Home(q)
    ensures o.Chunk? && q.Chunk? && o.k != q.k && Home(o) in zones && zones[Home(o)].chunkSize > 0
  {
    if o.Chunk? { ChunkInside(g, o.zone, zones[o.zone], o.k); }
  }

  // The pages an address lies on: how rt_slab_free finds the zone of a chunk.
  lemma {:induction false} PageOfChunk(g: Geometry, z: nat, x: Zone, k: nat)
    requires ZoneOk(g, z, x) && k < x.nmax
    ensures z <= Addr(x, k) / PAGE < z + g.zonePages
  {
    ChunkInside(g, z, x, k);
  }

  // Sums over tables.
  ghost function Total(m: map<nat, nat>): nat
    decreases |m|
  {
    if m == map[] then 0
    else
      var k: nat :| k in m;
      RemoveSmaller(m, k);
      m[k] + Total(m - {k})
  }

  lemma {:induction false} RemoveSmaller(m: map<nat, nat>, k: nat)
    requires k in m
    ensures |m - {k}| < |m|
  {
    assert (m - {k}).Keys == m.Keys - {k};
  }

  // The order in which the entries are added does not matter.
  lemma {:induction false} TotalWithout(m: map<nat, nat>, k: nat)
    requires k in m
    ensures Total(m) == m[k] + Total(m - {k})
    decreases |m|
  {
    var j: nat :| j in m && Total(m) == m[j] + Total(m - {j});
    if j != k {
      RemoveSmaller(m, j);
      RemoveSmaller(m, k);
      TotalWithout(m - {j}, k);
      TotalWithout(m - {k}, j);
      assert m - {j} - {k} == m - {k} - {j};
    }
  }

  lemma {:induction false} TotalWith(m: map<nat, nat>, k: nat, v: nat)
    ensures Total(m[k := v]) == Total(m) + v - (if k in m then m[k] else 0)
  {
    var m1 := m[k := v];
    TotalWithout(m1, k);
    if k in m {
      TotalWithout(m, k);
      assert m1 - {k} == m - {k};
    } else {
      assert m1 - {k} == m;
    }
  }

  // What the chunks in use of each zone take.
  ghost function ZoneUse(zones: map<nat, Zone>): map<nat, nat> {
    map z: nat | z in zones :: UseOf(zones[z])
  }

  function UseOf(x: Zone): nat {
    if x.nfree <= x.nmax then (x.nmax - x.nfree) * x.chunkSize else 0
  }

  ghost function InUse(zones: map<nat, Zone>, large: map<nat, nat>): nat {
    Total(ZoneUse(zones)) + Total(large) * PAGE
  }

  lemma {:induction false} UseWith(zones: map<nat, Zone>, large: map<nat, nat>, z: nat, x: Zone)
    ensures InUse(zones[z := x], large) == InUse(zones, large) + UseOf(x) - (if z in zones then UseOf(zones[z]) else 0)
  {
    assert ZoneUse(zones[z := x]) == ZoneUse(zones)[z := UseOf(x)];
    TotalWith(ZoneUse(zones), z, UseOf(x));
  }

  lemma {:induction false} UseWithout(zones: map<nat, Zone>, large: map<nat, nat>, z: nat)
    requires z in zones
    ensures InUse(zones - {z}, large) == InUse(zones, large) - UseOf(zones[z])
  {
    assert ZoneUse(zones - {z}) == ZoneUse(zones) - {z};
    TotalWithout(ZoneUse(zones), z);
  }

  // A zone's part of `used` is the number of its live chunks times their size.
  lemma {:induction false} LiveChunks(g: Geometry, zones: map<nat, Zone>, idle: seq<nat>, large: map<nat, nat>, z: nat)
    requires z in zones && z !in idle && ZoneOk(g, z, zones[z])
    ensures var x := zones[z]; var live := set k: nat | k <= x.uindex && Live(zones, idle, large, Chunk(z, k));
      UseOf(x) == |live| * x.chunkSize
  {
    var x := zones[z];
    ChunkPositive(x.index);
    forall f: nat | f in x.free ensures AmongFirst(x, x.uindex + 1, f) {
      assert WasOut(x, f);
      var k: nat :| k <= x.uindex && f == Addr(x, k);
      assert k < x.uindex + 1 && f == Addr(x, k);
    }
    CountLive(x, x.uindex + 1, x.free);
    var live := set k: nat | k <= x.uindex && Live(zones, idle, large, Chunk(z, k));
    var same := set k: nat | k < x.uindex + 1 && Addr(x, k) !in x.free;
    assert live == same;
  }

  ghost predicate AmongFirst(x: Zone, n: nat, f: nat) {
    exists k: nat :: k < n && f == Addr(x, k)
  }

  lemma {:induction false} NotTheLast(x: Zone, n: nat, f: nat)
    requires AmongFirst(x, n, f) && n > 0 && f != Addr(x, n - 1)
    ensures AmongFirst(x, n - 1, f)
  {
    var k: nat :| k < n && f == Addr(x, k);
    assert k < n - 1;
  }

  lemma {:induction false} NoneAmong(x: Zone, f: nat)
    ensures !AmongFirst(x, 0, f)
  {
  }

  lemma {:induction false} FirstMember(s: seq<nat>)
    ensures s == [] || s[0] in s
  {
  }

  lemma {:induction false} CountLive(x: Zone, n: nat, free: seq<nat>)
    requires x.chunkSize > 0 && NoDuplicates(free) && forall f: nat :: f in free ==> AmongFirst(x, n, f)
    ensures |set k: nat | k < n && Addr(x, k) !in free| == n - |free|
    decreases n
  {
    hide NoDuplicates, Without, Addr, AmongFirst;
    var live := set k: nat | k < n && Addr(x, k) !in free;
    if n == 0 {
      FirstMember(free);
      NoneAmong(x, if free == [] then 0 else free[0]);
      assert live == {};
    } else {
      var last := Addr(x, n - 1);
      var rest := Without(free, last);
      WithoutMembers(free, last);
      WithoutLength(free, last);
      forall f: nat | f in rest ensures AmongFirst(x, n - 1, f) { NotTheLast(x, n, f); }
      CountLive(x, n - 1, rest);
      var fewer := set k: nat | k < n - 1 && Addr(x, k) !in rest;
      forall k: nat | k < n - 1 ensures Addr(x, k) !in rest <==> Addr(x, k) !in free { AddrsApart(x, k, n - 1); }
      if last in free {
        assert live == fewer;
      } else {
        assert live == fewer + {n - 1};
      }
    }
  }

  lemma {:induction false} WithoutLength(s: seq<nat>, x: nat)
    ensures |Without(s, x)| == if x in s then |s| - 1 else |s|
  {
    if s != [] && s[0] != x { WithoutLength(s[1..], x); }
  }
}
