/** The slab allocator itself. */
module Slabs {
  import opened Arithmetic
  import opened Lists
  import opened Memory
  import opened Options
  import opened PageRuns
  import opened SlabModel
  import opened ZoneSizes

  const ZONE_RELEASE_THRESH := 2

  // One object more is live; the others are as they were.
  ghost predicate Adds(zones: map<nat, Zone>, idle: seq<nat>, large: map<nat, nat>,
      zones1: map<nat, Zone>, idle1: seq<nat>, large1: map<nat, nat>, o: Object)
  {
    && !Live(zones, idle, large, o)
    && (forall q: Object :: Live(zones1, idle1, large1, q) <==> Live(zones, idle, large, q) || q == o)
    && (forall q: Object :: Live(zones, idle, large, q) ==>
      From(zones1, q) == From(zones, q) && SizeOf(zones1, large1, q) == SizeOf(zones, large, q))
  }

  // No list keeps two zones that are all free; the zone `but` does not count.
  ghost predicate OneSpare(zones: map<nat, Zone>, lists: seq<seq<nat>>, but: int) {
    forall i, y, z :: 0 <= i < |lists| && Spare(zones, lists[i], but, y) && Spare(zones, lists[i], but, z) ==> y == z
  }

  ghost predicate Spare(zones: map<nat, Zone>, list: seq<nat>, but: int, z: nat) {
    z in list && z in zones && zones[z].nfree == zones[z].nmax && z != but
  }

  // A zone with a chunk in use more than before, in a list that may have lost its head.
  lemma {:induction false} SpareTaken(zones: map<nat, Zone>, lists: seq<seq<nat>>, i: nat, z: nat, x: Zone, list: seq<nat>)
    requires OneSpare(zones, lists, -1) && i < |lists| && x.nfree < x.nmax
    requires forall y :: y in list ==> y in lists[i] || y == z
    ensures OneSpare(zones[z := x], lists[i := list], -1)
  {
    var zones1, lists1 := zones[z := x], lists[i := list];
    forall j, y, w | 0 <= j < |lists1| && Spare(zones1, lists1[j], -1, y) && Spare(zones1, lists1[j], -1, w) ensures y == w {
      assert Spare(zones, lists[j], -1, y) && Spare(zones, lists[j], -1, w);
    }
  }

  // A zone given a chunk back may be one spare too many.
  lemma {:induction false} SpareGiven(zones: map<nat, Zone>, lists: seq<seq<nat>>, i: nat, z: nat, x: Zone, list: seq<nat>)
    requires OneSpare(zones, lists, -1) && i < |lists|
    requires forall y :: y in list ==> y in lists[i] || y == z
    ensures OneSpare(zones[z := x], lists[i := list], z)
  {
    var zones1, lists1 := zones[z := x], lists[i := list];
    forall j, y, w | 0 <= j < |lists1| && Spare(zones1, lists1[j], z, y) && Spare(zones1, lists1[j], z, w) ensures y == w {
      assert Spare(zones, lists[j], -1, y) && Spare(zones, lists[j], -1, w);
    }
  }

  // It is none if it is not all free, or if it is alone in the one list it is on.
  lemma {:induction false} SpareKept(zones: map<nat, Zone>, lists: seq<seq<nat>>, idle: seq<nat>, z: nat)
    requires OneSpare(zones, lists, z) && ListsOk(zones, lists, idle) && z in zones && zones[z].index < |lists|
    requires zones[z].nfree == zones[z].nmax ==> lists[zones[z].index] == [z]
    ensures OneSpare(zones, lists, -1)
  {
    forall j, y, w | 0 <= j < |lists| && Spare(zones, lists[j], -1, y) && Spare(zones, lists[j], -1, w) ensures y == w {
      assert ListOk(zones, idle, j, lists[j]);
      if y != z && w != z {
        assert Spare(zones, lists[j], z, y) && Spare(zones, lists[j], z, w);
      }
    }
  }

  // Nor if it leaves its list, whether its pages are given back or not.
  lemma {:induction false} SpareGone(zones: map<nat, Zone>, lists: seq<seq<nat>>, idle: seq<nat>, z: nat, list: seq<nat>, zones1: map<nat, Zone>)
    requires OneSpare(zones, lists, z) && ListsOk(zones, lists, idle) && z in zones && zones[z].index < |lists|
    requires forall y :: y in list <==> y in lists[zones[z].index] && y != z
    requires forall y :: y in zones1 ==> y in zones && zones1[y] == zones[y]
    ensures OneSpare(zones1, lists[zones[z].index := list], -1)
  {
    var lists1 := lists[zones[z].index := list];
    forall j, y, w | 0 <= j < |lists1| && Spare(zones1, lists1[j], -1, y) && Spare(zones1, lists1[j], -1, w) ensures y == w {
      assert ListOk(zones, idle, j, lists[j]);
      assert Spare(zones, lists[j], z, y) && Spare(zones, lists[j], z, w);
    }
  }

  lemma {:induction false} PartlyUsed(x: Zone)
    requires UseOf(x) > 0
    ensures x.nfree < x.nmax
  {
  }

  lemma {:induction false} ChunkHome(zones: map<nat, Zone>, idle: seq<nat>, large: map<nat, nat>, o: Object)
    requires Live(zones, idle, large, o) && o.Chunk?
    ensures o.zone in zones && o.zone !in idle && SizeOf(zones, large, o) == zones[o.zone].chunkSize
  {
  }

  // A zone is on its list while it has free chunks, and on it only once.
  lemma {:induction false} AbsentWhenFull(zones: map<nat, Zone>, lists: seq<seq<nat>>, idle: seq<nat>, z: nat)
    requires ListsOk(zones, lists, idle) && z in zones && z !in idle && zones[z].index < ZONES == |lists|
    ensures var list := lists[zones[z].index]; NoDuplicates(list) && (z in list <==> zones[z].nfree > 0)
  {
    assert ListOk(zones, idle, zones[z].index, lists[zones[z].index]);
  }

  // Whether another zone is on the list with z.
  lemma {:induction false} Alone(was: seq<nat>, now: seq<nat>, z: nat)
    requires NoDuplicates(was) && z in now && (now == was || (now == [z] + was && z !in was))
    ensures now != [] && (now[0] != z || |now| > 1 <==> Without(was, z) != [])
    ensures !(now[0] != z || |now| > 1) ==> now == [z]
  {
    WithoutMembers(was, z);
    if z in was {
      WithoutLength(was, z);
    }
  }

  lemma {:induction false} SameList<T>(lists: seq<T>, i: nat)
    requires i < |lists|
    ensures lists[i := lists[i]] == lists
  {
  }

  class Slab {
    const g: Geometry
    var pages: seq<Run>
    var usage: map<nat, Usage>
    var zones: map<nat, Zone>
    var lists: seq<seq<nat>>
    var idle: seq<nat>
    var idleCount: nat
    var used: int
    var max: int
    var bytes: seq<bv8>
    ghost var taken: map<nat, nat>
    ghost var large: map<nat, nat>

    ghost predicate Valid()
      reads this
    {
      Sound() && OneSpare(zones, lists, -1)
    }

    // Why an allocation answers NULL.
    ghost predicate Refuses(size: nat)
      reads this
    {
      || size == 0
      || (size >= g.limit && NoPages(pages, AlignUp(size, PAGE) / PAGE))
      || (size < g.limit && NoZone(g, pages, lists, idle, ZoneIndex(size).1))
    }

    ghost predicate Sound()
      reads this
    {
      && Sized(g) && PagesOk(pages, taken, g.pages)
      && ZonesOk(g, zones, taken, usage) && LargesOk(zones, large, taken, usage)
      && ListsOk(zones, lists, idle) && IdleOk(zones, idle)
      && idleCount == |idle| <= ZONE_RELEASE_THRESH
      && used == InUse(zones, large) && used <= max
      && |bytes| == g.pages * PAGE
    }

    // rt_slab_init, after the address arithmetic; the usage table takes the first pages.
    constructor (npages: nat, header: nat)
      requires npages > 0 && header <= 128
      ensures Valid() && used == 0 && max == 0 && g.pages == npages && g.header == header
      ensures forall o: Object :: !Live(zones, idle, large, o)
    {
      var zonePages, limit := ZoneSize(npages * PAGE);
      g := Geometry(npages, zonePages, limit, header);
      var n := AlignUp(npages * 4, PAGE) / PAGE;
      pages := Cut([Run(0, npages)], 0, n);
      usage := map[];
      zones := map[];
      lists := seq(ZONES, i => []);
      idle := [];
      idleCount := 0;
      used := 0;
      max := 0;
      bytes := seq(npages * PAGE, i => 0);
      taken := map[0 := n];
      large := map[];
      new;
      TablePages(npages);
      AllPagesFree(npages);
      TakePages([Run(0, npages)], map[], npages, 0, n);
    }

    // rt_slab_page_alloc
    method PageAlloc(n: nat) returns (b: Option<nat>)
      modifies this`pages
      ensures b == None <==> n == 0 || FirstFit(old(pages), n, 0) == |old(pages)|
      ensures b == None ==> pages == old(pages)
      ensures b.Some? ==> b.value == old(pages)[FirstFit(old(pages), n, 0)].start
      ensures b.Some? ==> pages == Cut(old(pages), FirstFit(old(pages), n, 0), n)
    {
      if n == 0 {
        return None;
      }
      ghost var was := pages;
      var i := 0;
      while i < |pages|
        invariant i <= |pages| && pages == was
        invariant forall j :: 0 <= j < i ==> pages[j].len < n
      {
        var r := pages[i];
        if r.len > n {
          FirstRunIs(was, n, 0, i);
          pages := pages[i := Run(r.start + n, r.len - n)];
          return Some(r.start);
        }
        if r.len == n {
          FirstRunIs(was, n, 0, i);
          pages := Delete(pages, i);
          return Some(r.start);
        }
        i := i + 1;
      }
      FirstRunIs(was, n, 0, i);
      b := None;
    }

    // rt_slab_page_free
    method PageFree(a: nat, n: nat)
      requires Coalesced(pages) && NoneFree(pages, a, n) && n > 0
      modifies this`pages
      ensures var i := Position(old(pages), a); Between(old(pages), i, a, n) && pages == Put(old(pages), i, a, n)
    {
      hide Put, Coalesced, Position;
      ghost var was := pages;
      var i := 0;
      while i < |pages|
        invariant i <= |pages| && pages == was
        invariant i > 0 ==> pages[i - 1].End() < a
      {
        RunApart(was, i, a, n);
        var b := pages[i];
        if b.End() == a {
          PlaceAfter(was, i, a, n);
          var len := b.len + n;
          if i + 1 < |pages| && b.start + len == pages[i + 1].start {
            pages := pages[..i] + [Run(b.start, len + pages[i + 1].len)] + pages[i + 2..];
          } else {
            pages := pages[i := Run(b.start, len)];
          }
          PutAfter(was, i, a, n);
          return;
        }
        if b.start == a + n {
          PlaceBefore(was, i, a, n);
          pages := pages[i := Run(a, b.len + n)];
          PutBefore(was, i, a, n);
          return;
        }
        if b.start > a + n {
          break;
        }
        i := i + 1;
      }
      PlaceBefore(was, i, a, n);
      pages := pages[..i] + [Run(a, n)] + pages[i..];
      PutAlone(was, i, a, n);
    }

    // Both counters of use after more bytes are in use.
    method Count(bytes: nat)
      modifies this`used, this`max
      ensures used == old(used) + bytes
      ensures max == if old(used) + bytes > old(max) then old(used) + bytes else old(max)
    {
      used := used + bytes;
      if used > max {
        max := used;
      }
    }

    // Sizes from the limit on get pages of their own.
    method AllocLarge(size: nat) returns (p: Option<nat>, ghost o: Object)
      requires Valid() && size >= g.limit
      modifies this`pages, this`usage, this`used, this`max, this`taken, this`large
      ensures Valid()
      ensures p == None <==> NoPages(old(pages), AlignUp(size, PAGE) / PAGE)
      ensures p == None ==> unchanged(this)
      ensures p.Some? ==> p.value == From(zones, o) && size <= SizeOf(zones, large, o)
      ensures p.Some? ==> Adds(zones, idle, old(large), zones, idle, large, o)
      ensures p.Some? ==> o.Large? && SizeOf(zones, large, o) == AlignUp(size, PAGE)
      ensures p.Some? ==> used == old(used) + AlignUp(size, PAGE) && max == if used > old(max) then used else old(max)
    {
      hide PagesOk, ZonesOk, LargesOk, ListsOk, IdleOk, InUse, AlignUp, Cut, Live, Adds, From, SizeOf, NoPages, OneSpare, Coalesced, IsFree;
      o := Large(0);
      var rounded := AlignUp(size, PAGE);
      PagesFor(size);
      var n := rounded / PAGE;
      RunsCoalesced(pages, taken, g.pages);
      NoRunNoPages(pages, n);
      var b := PageAlloc(n);
      if b == None {
        return None, o;
      }
      LargeAllocated(g, old(pages), zones, idle, large, taken, usage, n);
      taken := taken[b.value := n];
      usage := usage[b.value := Usage(LargePage, n)];
      large := large[b.value := n];
      Count(rounded);
      o := Large(b.value);
      p := Some(b.value * PAGE);
    }

    // A chunk from the first zone of the list.
    method TakeChunk(zi: nat) returns (p: nat, ghost o: Object)
      requires Valid() && zi < ZONES && lists[zi] != []
      modifies this`zones, this`lists, this`used, this`max
      ensures Valid()
      ensures o.Chunk? && Adds(old(zones), idle, large, zones, idle, large, o)
      ensures p == From(zones, o) && SizeOf(zones, large, o) == ChunkOf(zi)
      ensures o.zone == old(lists)[zi][0]
      ensures used == old(used) + ChunkOf(zi) && max == if used > old(max) then used else old(max)
    {
      hide PagesOk, ZonesOk, LargesOk, ListsOk, IdleOk, InUse, ZoneOk, Addr, Live, Adds, Opens, UseOf, OneSpare;
      ListsShape(zones, lists, idle);
      var z := lists[zi][0];
      HeadOfList(zones, lists, idle, zi);
      ZoneAt(g, zones, taken, usage, z);
      var x := zones[z];
      var x1, a, k := PickChunk(g, z, x);
      ChunkTaken(g, zones, lists, idle, large, taken, usage, zi, x1, k);
      ChunkAt(zones[z := x1], large, z, k);
      PartlyUsed(x1);
      SpareTaken(zones, lists, zi, z, x1, if x1.nfree == 0 then lists[zi][1..] else lists[zi]);
      SameList(lists, zi);
      if x1.nfree == 0 {
        lists := lists[zi := lists[zi][1..]];
      }
      zones := zones[z := x1];
      Count(x.chunkSize);
      o := Chunk(z, k);
      p := a;
    }

    // Pages for a zone, entered in the usage table.
    method NewPages() returns (b: Option<nat>)
      requires Valid()
      modifies this`pages, this`usage, this`taken
      ensures b == None <==> NoPages(old(pages), g.zonePages)
      ensures b == None ==> unchanged(this)
      ensures b.Some? ==> b.value !in zones && b.value !in large
      ensures b.Some? ==> PagesOk(pages, taken, g.pages) && ZonesOk(g, zones, taken, usage) && LargesOk(zones, large, taken, usage)
      ensures b.Some? ==> b.value in taken && taken[b.value] == g.zonePages && Mapped(usage, b.value, g.zonePages)
    {
      hide PagesOk, ZonesOk, LargesOk, ListsOk, InUse, Cut, IdleOk;
      RunsCoalesced(pages, taken, g.pages);
      NoRunNoPages(pages, g.zonePages);
      ghost var was := usage;
      b := PageAlloc(g.zonePages);
      if b.Some? {
        TakePages(old(pages), taken, g.pages, FirstFit(old(pages), g.zonePages, 0), g.zonePages);
        NewExtent(g, zones, large, taken, usage, b.value, g.zonePages);
        ghost var left := pages;
        for off := 0 to g.zonePages
          invariant pages == left && taken == old(taken)
          invariant forall p: nat :: b.value <= p < b.value + off ==> p in usage && usage[p] == Usage(SmallPage, p - b.value)
          invariant UsageOutside(was, usage, b.value, g.zonePages)
        {
          usage := usage[b.value + off := Usage(SmallPage, off)];
        }
        ExtentTaken(g, zones, large, taken, was, usage, b.value, g.zonePages);
        taken := taken[b.value := g.zonePages];
      }
    }

    // A zone to set up: one that lies idle, or new pages.
    method GetZone() returns (z: Option<nat>)
      requires Valid()
      modifies this`pages, this`usage, this`idle, this`idleCount, this`taken
      ensures z == None <==> old(idle) == [] && NoPages(old(pages), g.zonePages)
      ensures z == None ==> unchanged(this)
      ensures z.Some? ==> PagesOk(pages, taken, g.pages) && ZonesOk(g, zones, taken, usage) && LargesOk(zones, large, taken, usage)
      ensures z.Some? ==> Openable(g, zones, old(idle), large, taken, usage, z.value)
      ensures z.Some? ==> idle == Rest(old(idle)) && idleCount == |idle| <= ZONE_RELEASE_THRESH
      ensures old(idle) != [] ==> z == Some(old(idle)[0]) && idle == old(idle)[1..] && pages == old(pages)
      ensures old(idle) == [] ==> idle == []
    {
      hide PagesOk, ZonesOk, LargesOk, ListsOk, InUse, IdleOk, ZoneOk, Mapped, UseOf, NoPages;
      if idle != [] {
        z := Some(idle[0]);
        IdleHead(g, zones, lists, idle, large, taken, usage);
        idle := idle[1..];
        idleCount := idleCount - 1;
      } else {
        z := NewPages();
      }
    }

    // A zone of its own for the index.
    method OpenZone(zi: nat) returns (p: Option<nat>, ghost o: Object)
      requires Valid() && zi < ZONES && lists[zi] == [] && 4 * ChunkOf(zi) <= g.zonePages * PAGE
      modifies this`pages, this`usage, this`zones, this`lists, this`idle, this`idleCount, this`used, this`max, this`taken
      ensures Valid()
      ensures p == None <==> old(idle) == [] && NoPages(old(pages), g.zonePages)
      ensures p == None ==> unchanged(this)
      ensures p.Some? ==> o.Chunk? && Adds(old(zones), old(idle), large, zones, idle, large, o)
      ensures p.Some? ==> p.value == From(zones, o) && SizeOf(zones, large, o) == ChunkOf(zi)
      ensures p.Some? ==> used == old(used) + ChunkOf(zi) && max == if used > old(max) then used else old(max)
      ensures p.Some? && old(idle) != [] ==> o == Chunk(old(idle)[0], 0) && idle == old(idle)[1..] && pages == old(pages)
      ensures p.Some? && old(idle) == [] ==> idle == []
    {
      hide PagesOk, ZonesOk, LargesOk, ListsOk, InUse, IdleOk, ZoneOk, Live, Adds, UseOf, NoPages, Openable, Rest, NewZone, ChunkOf, OneSpare;
      ListsShape(zones, lists, idle);
      o := Chunk(0, 0);
      var b := GetZone();
      if b == None {
        return None, o;
      }
      var z := b.value;
      FreshZone(g, z, zi);
      var x := NewZone(g, z, zi);
      ZoneOpened(g, zones, lists, old(idle), large, taken, usage, zi, z, x);
      ChunkAt(zones[z := x], large, z, 0);
      PartlyUsed(x);
      SpareTaken(zones, lists, zi, z, x, [z] + lists[zi]);
      lists := lists[zi := [z] + lists[zi]];
      zones := zones[z := x];
      Count(x.chunkSize);
      o := Chunk(z, 0);
      FirstChunk(x);
      p := Some(x.base + x.uindex * x.chunkSize);
    }

    // rt_slab_alloc
    method Alloc(size: nat) returns (p: Option<nat>, ghost o: Object)
      requires Valid()
      modifies this`pages, this`usage, this`zones, this`lists, this`idle, this`idleCount, this`used, this`max, this`taken, this`large
      ensures Valid()
      ensures size == 0 ==> p == None
      ensures size >= g.limit ==> (p == None <==> NoPages(old(pages), AlignUp(size, PAGE) / PAGE))
      ensures 0 < size < g.limit ==> (p == None <==> NoZone(g, old(pages), old(lists), old(idle), ZoneIndex(size).1))
      ensures p == None ==> unchanged(this)
      ensures p.Some? ==> p.value == From(zones, o) && size <= SizeOf(zones, large, o)
      ensures p.Some? ==> Adds(old(zones), old(idle), old(large), zones, idle, large, o)
      ensures p == None <==> old(Refuses(size))
      ensures p.Some? ==> SizeOf(zones, large, o) == if size >= g.limit then AlignUp(size, PAGE) else ZoneIndex(size).0
      ensures p.Some? ==> used == old(used) + SizeOf(zones, large, o) && max == if used > old(max) then used else old(max)
      ensures p.Some? && size < g.limit ==>
        && o.Chunk? && 0 <= ZoneIndex(size).1 < |old(lists)|
        && var list := old(lists)[ZoneIndex(size).1];
        && (list != [] ==> o.zone == list[0] && idle == old(idle) && pages == old(pages))
        && (list == [] && old(idle) != [] ==> o.zone == old(idle)[0] && idle == old(idle)[1..] && pages == old(pages))
    {
      hide PagesOk, ZonesOk, LargesOk, InUse, IdleOk, Live, Adds, UseOf, NoPages, AlignUp, ZoneIndex, ChunkOf;
      o := Large(0);
      if size == 0 {
        return None, o;
      }
      if size >= g.limit {
        p, o := AllocLarge(size);
        return;
      }
      ZoneFits(size);
      SmallEnough(g, size);
      var zi := ZoneIndex(size).1;
      if lists[zi] != [] {
        var a;
        a, o := TakeChunk(zi);
        return Some(a), o;
      }
      p, o := OpenZone(zi);
    }

    // rt_slab_free of a large object.
    method FreeLarge(ptr: nat, ghost a: nat)
      requires Valid() && a in large && ptr == a * PAGE
      modifies this`pages, this`usage, this`used, this`taken, this`large
      ensures Valid()
      ensures Adds(zones, idle, large, zones, idle, old(large), Large(a))
      ensures old(large)[a] > 0 && NoneFree(old(pages), a, old(large)[a])
      ensures forall p: nat :: IsFree(pages, p) <==> IsFree(old(pages), p) || a <= p < a + old(large)[a]
      ensures used == old(used) - old(large)[a] * PAGE
    {
      hide PagesOk, ZonesOk, LargesOk, ListsOk, InUse, IdleOk, Live, Adds, Put, IsFree, Position;
      LargeAt(g, zones, large, taken, usage, pages, a);
      var page := ptr / PAGE;
      var size := usage[page].size;
      DropLarge(g, zones, idle, large, taken, usage, a);
      ghost var was := pages;
      ghost var i := Position(pages, page);
      usage := usage[page := Usage(LargePage, 0)];
      used := used - size * PAGE;
      PageFree(page, size);
      GivePages(was, taken, g.pages, i, a);
      forall p: nat ensures IsFree(pages, p) <==> IsFree(was, p) || a <= p < a + size { PutFrees(was, i, a, size, p); }
      taken := taken - {a};
      large := large - {a};
    }

    // rt_slab_free of a chunk, up to the test whether its zone is all free.
    method GiveChunk(ptr: nat, ghost o: Object) returns (z: nat)
      requires Valid() && o.Chunk? && Live(zones, idle, large, o) && ptr == From(zones, o)
      modifies this`zones, this`lists, this`used
      ensures Sound() && OneSpare(zones, lists, z) && z == o.zone && z in zones && z !in idle && zones[z].nfree > 0 && zones[z].index < ZONES == |lists|
      ensures Adds(zones, idle, large, old(zones), idle, large, o)
      ensures z in old(zones) && old(zones)[z].index < |old(lists)| && used == old(used) - old(zones)[z].chunkSize
      ensures zones == old(zones)[z := old(zones)[z].(free := [ptr] + old(zones)[z].free, nfree := old(zones)[z].nfree + 1)]
      ensures var i := old(zones)[z].index; lists == old(lists)[i := if old(zones)[z].nfree == 0 then [z] + old(lists)[i] else old(lists)[i]]
    {
      hide PagesOk, ZonesOk, LargesOk, ListsOk, InUse, IdleOk, ZoneOk, Addr, Adds, Opens, UseOf, OneSpare;
      ListsShape(zones, lists, idle);
      ZoneAt(g, zones, taken, usage, o.zone);
      PageOfChunk(g, o.zone, zones[o.zone], o.k);
      var page := ptr / PAGE;
      z := page - usage[page].size;
      var x := zones[z];
      GiveBack(g, z, x, o.k);
      var x1 := x.(free := [ptr] + x.free, nfree := x.nfree + 1);
      ChunkGiven(g, zones, lists, idle, large, taken, usage, z, x1, o.k);
      SpareGiven(zones, lists, x.index, z, x1, if x.nfree == 0 then [z] + lists[x.index] else lists[x.index]);
      SameList(lists, x.index);
      if x.nfree == 0 {
        lists := lists[x.index := [z] + lists[x.index]];
      }
      zones := zones[z := x1];
      used := used - x.chunkSize;
    }

    // An idle zone's pages are given back.
    method Release(z: nat)
      requires Sized(g) && PagesOk(pages, taken, g.pages) && ZonesOk(g, zones, taken, usage) && LargesOk(zones, large, taken, usage)
      requires ListsOk(zones, lists, [z] + idle) && IdleOk(zones, [z] + idle) && z in zones
      modifies this`pages, this`usage, this`zones, this`taken
      ensures zones == old(zones) - {z}
      ensures PagesOk(pages, taken, g.pages) && ZonesOk(g, zones, taken, usage) && LargesOk(zones, large, taken, usage)
      ensures ListsOk(zones, lists, idle) && IdleOk(zones, idle)
      ensures InUse(zones, large) == InUse(old(zones), large)
      ensures forall p: nat :: IsFree(pages, p) <==> IsFree(old(pages), p) || z <= p < z + g.zonePages
    {
      hide PagesOk, ZonesOk, LargesOk, ListsOk, IdleOk, InUse, IsFree, Put, Position, Disjoint;
      ZoneAt(g, zones, taken, usage, z);
      ExtentAt(pages, taken, g.pages, z);
      ghost var was, now := usage, pages;
      for i := 0 to g.zonePages
        invariant pages == now && taken == old(taken) && zones == old(zones)
        invariant UsageOutside(was, usage, z, g.zonePages)
      {
        usage := usage[z + i := Usage(FreePage, 0)];
      }
      ghost var i := Position(pages, z);
      PageFree(z, g.zonePages);
      GivePages(now, taken, g.pages, i, z);
      forall p: nat ensures IsFree(pages, p) <==> IsFree(now, p) || z <= p < z + g.zonePages {
        PutFrees(now, i, z, g.zonePages, p);
      }
      ZoneDropped(g, zones, lists, idle, large, taken, was, usage, z);
      taken := taken - {z};
      zones := zones - {z};
    }

    // A zone all free goes to the idle ones; a third one there gives its pages back.
    method Retire(z: nat)
      requires Sound() && OneSpare(zones, lists, z) && z in zones && z !in idle && zones[z].index < ZONES == |lists|
      requires zones[z].nfree == zones[z].nmax && zones[z].nfree > 0
      modifies this`pages, this`usage, this`zones, this`lists, this`idle, this`idleCount, this`taken
      ensures Valid()
      ensures SameLive(old(zones), old(idle), zones, idle, large)
      ensures z in old(zones) && old(zones)[z].index < |old(lists)|
      ensures var i := old(zones)[z].index; lists == old(lists)[i := Without(old(lists)[i], z)]
      ensures |old(idle)| < ZONE_RELEASE_THRESH ==> idle == [z] + old(idle) && zones == old(zones) && pages == old(pages)
      ensures |old(idle)| == ZONE_RELEASE_THRESH ==>
        && idle == old(idle) && zones == old(zones) - {z}
        && forall p: nat :: IsFree(pages, p) <==> IsFree(old(pages), p) || z <= p < z + g.zonePages
    {
      hide PagesOk, ZonesOk, LargesOk, ListsOk, IdleOk, InUse, Live, IsFree, UseOf, OneSpare;
      var i := zones[z].index;
      ListAt(zones, lists, idle, z);
      var q := 0;
      while lists[i][q] != z
        invariant q < |lists[i]| && z !in lists[i][..q]
        decreases |lists[i]| - q
      {
        q := q + 1;
      }
      ZoneAt(g, zones, taken, usage, z);
      NothingLive(g, zones, idle, large, taken, usage, z);
      Idled(zones, lists, idle, z, q);
      WithoutIsDelete(lists[i], q);
      DeleteMembers(lists[i], q);
      SpareGone(zones, lists, idle, z, Delete(lists[i], q), zones);
      SpareGone(zones, lists, idle, z, Delete(lists[i], q), zones - {z});
      assert ([z] + idle)[1..] == idle;
      IdleSame(zones, idle, large, z);
      DroppedSame(zones, idle, large, z);
      lists := lists[i := Delete(lists[i], q)];
      idle := [z] + idle;
      idleCount := idleCount + 1;
      if idleCount > ZONE_RELEASE_THRESH {
        var y := idle[0];
        idle := idle[1..];
        idleCount := idleCount - 1;
        Release(y);
      }
    }

    // rt_slab_free
    method Free(obj: Option<nat>, ghost o: Object)
      requires Valid() && (obj.Some? ==> Live(zones, idle, large, o) && obj.value == From(zones, o))
      modifies this`pages, this`usage, this`zones, this`lists, this`idle, this`idleCount, this`used, this`taken, this`large
      ensures Valid()
      ensures obj == None ==> unchanged(this)
      ensures obj.Some? ==> Adds(zones, idle, large, old(zones), old(idle), old(large), o)
      ensures obj.Some? ==> used == old(used) - old(SizeOf(zones, large, o))
      ensures obj.Some? && o.Large? ==>
        && idle == old(idle) && o.page in old(large)
        && forall p: nat :: IsFree(pages, p) <==> IsFree(old(pages), p) || o.page <= p < o.page + old(large)[o.page]
      ensures obj.Some? && o.Chunk? ==>
        && o.zone in old(zones) && old(zones)[o.zone].index < |old(lists)|
        && var x := old(zones)[o.zone];
          var retires := x.nfree + 1 == x.nmax && Without(old(lists)[x.index], o.zone) != [];
          && (!retires ==> idle == old(idle) && pages == old(pages))
          && (retires && |old(idle)| < ZONE_RELEASE_THRESH ==> idle == [o.zone] + old(idle) && pages == old(pages))
          && (retires && |old(idle)| == ZONE_RELEASE_THRESH ==>
            && idle == old(idle) && o.zone !in zones
            && forall p: nat :: IsFree(pages, p) <==> IsFree(old(pages), p) || o.zone <= p < o.zone + g.zonePages)
    {
      hide PagesOk, ZonesOk, LargesOk, ListsOk, IdleOk, InUse, IsFree, OneSpare;
      if obj == None {
        return;
      }
      var ptr := obj.value;
      KindOf(g, zones, idle, large, taken, usage, o);
      var page := ptr / PAGE;
      if usage[page].kind == LargePage {
        FreeLarge(ptr, o.page);
        return;
      }
      ghost var lists0, zones0 := lists, zones;
      ChunkHome(zones, idle, large, o);
      ZoneAt(g, zones, taken, usage, o.zone);
      ListsShape(zones, lists, idle);
      AbsentWhenFull(zones, lists, idle, o.zone);
      var z := GiveChunk(ptr, o);
      ghost var zones1 := zones;
      ListAt(zones, lists, idle, z);
      var i := zones[z].index;
      Alone(lists0[i], lists[i], z);
      if zones[z].nfree == zones[z].nmax && (lists[i][0] != z || |lists[i]| > 1) {
        Retire(z);
        SameAdds(zones1, old(idle), zones, idle, large, old(zones), o);
      } else {
        SpareKept(zones, lists, idle, z);
      }
    }

    // A new object of `asked` bytes for an old one of `held` bytes, whose data goes along.
    method Move(ptr: nat, held: nat, asked: nat, ghost o: Object) returns (p: Option<nat>, ghost r: Object)
      requires Valid() && Live(zones, idle, large, o) && ptr == From(zones, o) && held == SizeOf(zones, large, o) && asked > 0
      modifies this
      ensures Valid()
      ensures p == None ==> unchanged(this)
      ensures p.Some? ==> Live(zones, idle, large, r) && p.value == From(zones, r) && asked <= SizeOf(zones, large, r)
      ensures p.Some? ==> Carries(old(bytes), ptr, bytes, p.value, Least(held, asked))
      ensures OthersKept(old(zones), old(idle), old(large), old(bytes), zones, idle, large, bytes, o)
      ensures p == None <==> old(Refuses(asked))
    {
      hide PagesOk, ZonesOk, LargesOk, ListsOk, IdleOk, InUse, Live, Adds, From, SizeOf, NoPages, NoZone, AlignUp, ZoneIndex, Refuses;
      hide CopiedTo, OthersKept, Carries;
      ghost var zones0, idle0, large0, was := zones, idle, large, bytes;
      p, r := Alloc(asked);
      if p == None {
        NothingKept(g, zones, idle, large, taken, usage, was, pages, o);
        return;
      }
      AddedApart(g, pages, zones0, idle0, large0, zones, idle, large, taken, usage, o, r);
      var n := if held < asked then held else asked;
      bytes := MemCopy(bytes, p.value, ptr, n);
      ghost var zones1, idle1, large1 := zones, idle, large;
      MovedKept(g, pages, zones0, idle0, large0, zones1, idle1, large1, taken, usage, was, bytes, o, r, n);
      Free(Some(ptr), o);
      FreedKept(zones0, idle0, large0, zones1, idle1, large1, zones, idle, large, was, bytes, o, r);
      CopiedCarries(was, bytes, p.value, ptr, n);
    }

    // rt_slab_realloc: the data goes along, the other objects stay as they are, and NULL for a size that is not
    // zero changes nothing.
    method Realloc(ptr: Option<nat>, size: nat, ghost o: Object) returns (p: Option<nat>, ghost r: Object)
      requires Valid() && (ptr.Some? ==> Live(zones, idle, large, o) && ptr.value == From(zones, o))
      modifies this
      ensures Valid()
      ensures p == None && size != 0 ==> unchanged(this)
      ensures ptr == None && size == 0 ==> p == None && unchanged(this)
      ensures ptr == None && p.Some? ==> Adds(old(zones), old(idle), old(large), zones, idle, large, r) && bytes == old(bytes)
      ensures ptr.Some? && size == 0 ==> p == None && Adds(zones, idle, large, old(zones), old(idle), old(large), o)
      ensures p.Some? ==> Live(zones, idle, large, r) && p.value == From(zones, r) && size <= SizeOf(zones, large, r)
      ensures p.Some? && ptr.Some? ==>
        Carries(old(bytes), ptr.value, bytes, p.value, Least(SizeOf(old(zones), old(large), o), size))
      ensures ptr.Some? ==> OthersKept(old(zones), old(idle), old(large), old(bytes), zones, idle, large, bytes, o)
      ensures ptr == None ==> (p == None <==> old(Refuses(size)))
      ensures ptr.Some? && size != 0 ==>
        var stays := o.Chunk? && ZoneIndex(size).0 == old(SizeOf(zones, large, o));
        if stays then p == ptr
        else p == None <==> old(Refuses(if o.Large? then size else ZoneIndex(size).0))
    {
      hide PagesOk, ZonesOk, LargesOk, ListsOk, IdleOk, InUse, Live, Adds, From, SizeOf, NoPages, NoZone, AlignUp, ZoneIndex, Refuses;
      hide OthersKept, Carries;
      if ptr == None {
        p, r := Alloc(size);
        if p.Some? { Added(old(zones), old(idle), old(large), zones, idle, large, r); }
        return;
      }
      ghost var zones0, idle0, large0, was := zones, idle, large, bytes;
      if size == 0 {
        Free(ptr, o);
        GivenKept(g, zones0, idle0, large0, zones, idle, large, old(taken), old(usage), was, old(pages), o);
        return None, o;
      }
      KindOf(g, zones, idle, large, taken, usage, o);
      SizeKnown(g, zones, idle, large, taken, usage, o);
      NothingKept(g, zones, idle, large, taken, usage, was, pages, o);
      var page := ptr.value / PAGE;
      if usage[page].kind == LargePage {
        p, r := Move(ptr.value, usage[page].size * PAGE, size, o);
        return;
      }
      var z := page - usage[page].size;
      var n := ZoneIndex(size).0;
      RoundedUp(size);
      if zones[z].chunkSize == n {
        InHeap(g, pages, zones, idle, large, taken, usage, o);
        CarriedSame(was, ptr.value, Least(n, size));
        return ptr, o;
      }
      p, r := Move(ptr.value, zones[z].chunkSize, n, o);
      if p.Some? { CarriesLess(was, ptr.value, bytes, p.value, Least(zones0[z].chunkSize, n), Least(zones0[z].chunkSize, size)); }
    }
  }

  lemma {:induction false} Added(zones0: map<nat, Zone>, idle0: seq<nat>, large0: map<nat, nat>,
      zones: map<nat, Zone>, idle: seq<nat>, large: map<nat, nat>, r: Object)
    requires Adds(zones0, idle0, large0, zones, idle, large, r)
    ensures Live(zones, idle, large, r)
  {
  }

  lemma {:induction false} RoundedUp(size: nat)
    requires size > 0
    ensures size <= ZoneIndex(size).0
  {
    if size < 16384 { ZoneFits(size); }
  }

  lemma {:induction false} CarriedSame(was: seq<bv8>, p: nat, n: int)
    requires 0 <= n && p + n <= |was|
    ensures Carries(was, p, was, p, n)
  {
  }

  lemma {:induction false} CarriesLess(was: seq<bv8>, ptr: nat, now: seq<bv8>, p: nat, n: int, m: int)
    requires Carries(was, ptr, now, p, n) && 0 <= m <= n
    ensures Carries(was, ptr, now, p, m)
  {
    assert now[p..p + m] == now[p..p + n][..m];
    assert was[ptr..ptr + m] == was[ptr..ptr + n][..m];
  }

  // What the usage table and the zone tell of an object's size.
  lemma {:induction false} SizeKnown(g: Geometry, zones: map<nat, Zone>, idle: seq<nat>, large: map<nat, nat>,
      taken: map<nat, nat>, usage: map<nat, Usage>, o: Object)
    requires ZonesOk(g, zones, taken, usage) && LargesOk(zones, large, taken, usage) && Live(zones, idle, large, o)
    requires From(zones, o) / PAGE in usage
    ensures o.Large? ==> SizeOf(zones, large, o) == usage[From(zones, o) / PAGE].size * PAGE
    ensures o.Chunk? ==> usage[From(zones, o) / PAGE].size <= From(zones, o) / PAGE
    ensures o.Chunk? ==> var z := From(zones, o) / PAGE - usage[From(zones, o) / PAGE].size;
      z in zones && SizeOf(zones, large, o) == zones[z].chunkSize
  {
    match o
    case Chunk(z, k) =>
      PageOfChunk(g, z, zones[z], k);
      assert Mapped(usage, z, g.zonePages);
    case Large(a) =>
  }

  // Freeing an object changes no other.
  lemma {:induction false} GivenKept(g: Geometry, zones0: map<nat, Zone>, idle0: seq<nat>, large0: map<nat, nat>,
      zones: map<nat, Zone>, idle: seq<nat>, large: map<nat, nat>, taken: map<nat, nat>, usage: map<nat, Usage>,
      was: seq<bv8>, pages: seq<Run>, o: Object)
    requires PagesOk(pages, taken, g.pages) && ZonesOk(g, zones0, taken, usage) && LargesOk(zones0, large0, taken, usage)
    requires Adds(zones, idle, large, zones0, idle0, large0, o) && |was| == g.pages * PAGE
    ensures OthersKept(zones0, idle0, large0, was, zones, idle, large, was, o)
  {
    hide PagesOk, ZonesOk, LargesOk, Live, From, SizeOf;
    forall q: Object | q != o && Live(zones0, idle0, large0, q) ensures Kept(zones0, large0, was, zones, idle, large, was, q) {
      InHeap(g, pages, zones0, idle0, large0, taken, usage, q);
    }
  }

  // The first n bytes at p are those that were at ptr.
  ghost predicate Carries(was: seq<bv8>, ptr: nat, now: seq<bv8>, p: nat, n: int) {
    n >= 0 && ptr + n <= |was| && p + n <= |now| && now[p..p + n] == was[ptr..ptr + n]
  }

  lemma {:induction false} CopiedCarries(was: seq<bv8>, now: seq<bv8>, to: nat, from: nat, n: nat)
    requires CopiedTo(was, now, to, from, n)
    ensures Carries(was, from, now, to, n) && |now| == |was|
  {
  }

  // q is live still, at its place and with its bytes.
  ghost predicate Kept(zones: map<nat, Zone>, large: map<nat, nat>, was: seq<bv8>,
      zones1: map<nat, Zone>, idle1: seq<nat>, large1: map<nat, nat>, now: seq<bv8>, q: Object)
  {
    var a, n := From(zones, q), SizeOf(zones, large, q);
    && Live(zones1, idle1, large1, q) && From(zones1, q) == a && SizeOf(zones1, large1, q) == n
    && a + n <= |was| && |now| == |was| && now[a..a + n] == was[a..a + n]
  }

  ghost predicate OthersKept(zones: map<nat, Zone>, idle: seq<nat>, large: map<nat, nat>, was: seq<bv8>,
      zones1: map<nat, Zone>, idle1: seq<nat>, large1: map<nat, nat>, now: seq<bv8>, o: Object)
  {
    forall q: Object :: q != o && Live(zones, idle, large, q) ==> Kept(zones, large, was, zones1, idle1, large1, now, q)
  }

  lemma {:induction false} InHeap(g: Geometry, pages: seq<Run>, zones: map<nat, Zone>, idle: seq<nat>, large: map<nat, nat>,
      taken: map<nat, nat>, usage: map<nat, Usage>, q: Object)
    requires PagesOk(pages, taken, g.pages) && ZonesOk(g, zones, taken, usage) && LargesOk(zones, large, taken, usage)
    requires Live(zones, idle, large, q)
    ensures From(zones, q) + SizeOf(zones, large, q) <= g.pages * PAGE
  {
    LiveInside(g, zones, idle, large, taken, usage, q);
    hide Live, ZonesOk, LargesOk;
  }

  lemma {:induction false} NothingKept(g: Geometry, zones: map<nat, Zone>, idle: seq<nat>, large: map<nat, nat>,
      taken: map<nat, nat>, usage: map<nat, Usage>, was: seq<bv8>, pages: seq<Run>, o: Object)
    requires PagesOk(pages, taken, g.pages) && ZonesOk(g, zones, taken, usage) && LargesOk(zones, large, taken, usage)
    requires |was| == g.pages * PAGE
    ensures OthersKept(zones, idle, large, was, zones, idle, large, was, o)
  {
    hide PagesOk, ZonesOk, LargesOk, Live, From, SizeOf;
    forall q: Object | Live(zones, idle, large, q) ensures Kept(zones, large, was, zones, idle, large, was, q) {
      InHeap(g, pages, zones, idle, large, taken, usage, q);
    }
  }

  // The new object lies apart from the old one, and both in the heap.
  lemma {:induction false} AddedApart(g: Geometry, pages: seq<Run>, zones0: map<nat, Zone>, idle0: seq<nat>, large0: map<nat, nat>,
      zones: map<nat, Zone>, idle: seq<nat>, large: map<nat, nat>, taken: map<nat, nat>, usage: map<nat, Usage>, o: Object, r: Object)
    requires PagesOk(pages, taken, g.pages) && ZonesOk(g, zones, taken, usage) && LargesOk(zones, large, taken, usage)
    requires Adds(zones0, idle0, large0, zones, idle, large, r) && Live(zones0, idle0, large0, o)
    ensures Live(zones, idle, large, o) && Live(zones, idle, large, r) && o != r
    ensures From(zones, o) == From(zones0, o) && SizeOf(zones, large, o) == SizeOf(zones0, large0, o)
    ensures From(zones, o) + SizeOf(zones, large, o) <= g.pages * PAGE && From(zones, r) + SizeOf(zones, large, r) <= g.pages * PAGE
    ensures From(zones, o) + SizeOf(zones, large, o) <= From(zones, r) || From(zones, r) + SizeOf(zones, large, r) <= From(zones, o)
  {
    hide PagesOk, ZonesOk, LargesOk, Live, From, SizeOf;
    LiveApart(g, pages, zones, idle, large, taken, usage, o, r);
    InHeap(g, pages, zones, idle, large, taken, usage, o);
    InHeap(g, pages, zones, idle, large, taken, usage, r);
  }

  // Writing into the new object changes no byte of an object that was live before.
  lemma {:induction false} MovedKept(g: Geometry, pages: seq<Run>, zones0: map<nat, Zone>, idle0: seq<nat>, large0: map<nat, nat>,
      zones: map<nat, Zone>, idle: seq<nat>, large: map<nat, nat>, taken: map<nat, nat>, usage: map<nat, Usage>,
      was: seq<bv8>, now: seq<bv8>, o: Object, r: Object, n: nat)
    requires PagesOk(pages, taken, g.pages) && ZonesOk(g, zones, taken, usage) && LargesOk(zones, large, taken, usage)
    requires Adds(zones0, idle0, large0, zones, idle, large, r) && Live(zones0, idle0, large0, o)
    requires |was| == g.pages * PAGE && n <= SizeOf(zones, large, r)
    requires CopiedTo(was, now, From(zones, r), From(zones, o), n)
    ensures OthersKept(zones0, idle0, large0, was, zones, idle, large, now, o)
  {
    hide PagesOk, ZonesOk, LargesOk, Live, From, SizeOf;
    forall q: Object | Live(zones0, idle0, large0, q) ensures Kept(zones0, large0, was, zones, idle, large, now, q) {
      AddedApart(g, pages, zones0, idle0, large0, zones, idle, large, taken, usage, q, r);
      var p := From(zones, r);
      SameOutside(was, now, p, p + n, From(zones, q), From(zones, q) + SizeOf(zones, large, q));
    }
  }

  lemma {:induction false} FreedKept(zones0: map<nat, Zone>, idle0: seq<nat>, large0: map<nat, nat>,
      zones1: map<nat, Zone>, idle1: seq<nat>, large1: map<nat, nat>,
      zones: map<nat, Zone>, idle: seq<nat>, large: map<nat, nat>, was: seq<bv8>, now: seq<bv8>, o: Object, r: Object)
    requires OthersKept(zones0, idle0, large0, was, zones1, idle1, large1, now, o)
    requires Adds(zones, idle, large, zones1, idle1, large1, o) && Live(zones1, idle1, large1, r) && r != o
    ensures OthersKept(zones0, idle0, large0, was, zones, idle, large, now, o)
    ensures Live(zones, idle, large, r) && From(zones, r) == From(zones1, r) && SizeOf(zones, large, r) == SizeOf(zones1, large1, r)
  {
    hide Live, From, SizeOf;
  }

  // The same objects are live, and where they were.
  ghost predicate SameLive(zones: map<nat, Zone>, idle: seq<nat>, zones1: map<nat, Zone>, idle1: seq<nat>, large: map<nat, nat>) {
    forall o: Object :: (Live(zones1, idle1, large, o) <==> Live(zones, idle, large, o))
      && (Live(zones, idle, large, o) ==> From(zones1, o) == From(zones, o) && SizeOf(zones1, large, o) == SizeOf(zones, large, o))
  }

  lemma {:induction false} SameAdds(zones: map<nat, Zone>, idle: seq<nat>, zones1: map<nat, Zone>, idle1: seq<nat>, large: map<nat, nat>,
      zones0: map<nat, Zone>, o: Object)
    requires SameLive(zones, idle, zones1, idle1, large)
    requires Adds(zones, idle, large, zones0, idle, large, o)
    ensures Adds(zones1, idle1, large, zones0, idle, large, o)
  {
    hide Live, From, SizeOf;
  }

  // The usage table tells large objects from chunks.
  lemma {:induction false} KindOf(g: Geometry, zones: map<nat, Zone>, idle: seq<nat>, large: map<nat, nat>,
      taken: map<nat, nat>, usage: map<nat, Usage>, o: Object)
    requires ZonesOk(g, zones, taken, usage) && LargesOk(zones, large, taken, usage) && Live(zones, idle, large, o)
    ensures From(zones, o) / PAGE in usage
    ensures usage[From(zones, o) / PAGE].kind == LargePage <==> o.Large?
  {
    match o
    case Chunk(z, k) =>
      PageOfChunk(g, z, zones[z], k);
      assert Mapped(usage, z, g.zonePages);
    case Large(a) =>
  }

  lemma {:induction false} ExtentAt(runs: seq<Run>, taken: map<nat, nat>, pages: nat, a: nat)
    requires PagesOk(runs, taken, pages) && a in taken
    ensures taken[a] > 0 && Coalesced(runs) && NoneFree(runs, a, taken[a]) && Disjoint(taken)
  {
  }

  lemma {:induction false} ListAt(zones: map<nat, Zone>, lists: seq<seq<nat>>, idle: seq<nat>, z: nat)
    requires ListsOk(zones, lists, idle) && z in zones && z !in idle && zones[z].index < ZONES == |lists| && zones[z].nfree > 0
    ensures z in lists[zones[z].index] && NoDuplicates(lists[zones[z].index])
  {
    assert ListOk(zones, idle, zones[z].index, lists[zones[z].index]);
  }

  // In a zone with every chunk free none is live.
  lemma {:induction false} NothingLive(g: Geometry, zones: map<nat, Zone>, idle: seq<nat>, large: map<nat, nat>,
      taken: map<nat, nat>, usage: map<nat, Usage>, z: nat)
    requires z in zones && z !in idle && ZoneOk(g, z, zones[z]) && zones[z].nfree == zones[z].nmax
    ensures forall k: nat :: !Live(zones, idle, large, Chunk(z, k))
    ensures UseOf(zones[z]) == 0
  {
    LiveChunks(g, zones, idle, large, z);
    var x := zones[z];
    ChunkPositive(x.index);
    var live := set k: nat | k <= x.uindex && Live(zones, idle, large, Chunk(z, k));
    ZeroTimes(|live|, x.chunkSize);
    assert live == {};
    forall k: nat ensures !Live(zones, idle, large, Chunk(z, k)) {
      assert k !in live;
    }
  }

  lemma {:induction false} ZeroTimes(n: nat, c: nat)
    ensures 0 * c == 0
    ensures c > 0 && n * c == 0 ==> n == 0
  {
    Multiples(n, c);
  }

  lemma {:induction false} Idled(zones: map<nat, Zone>, lists: seq<seq<nat>>, idle: seq<nat>, z: nat, q: nat)
    requires ListsOk(zones, lists, idle) && z in zones && z !in idle && zones[z].index < ZONES == |lists|
    requires var list := lists[zones[z].index]; q < |list| && list[q] == z
    requires zones[z].nfree == zones[z].nmax
    ensures var i := zones[z].index; ListsOk(zones, lists[i := Delete(lists[i], q)], [z] + idle)
    ensures IdleOk(zones, idle) ==> IdleOk(zones, [z] + idle)
  {
    var i := zones[z].index;
    var lists1 := lists[i := Delete(lists[i], q)];
    InsertMembers(idle, 0, z);
    assert Insert(idle, 0, z) == [z] + idle;
    forall j: nat | j < ZONES ensures ListOk(zones, [z] + idle, j, lists1[j]) {
      assert ListOk(zones, idle, j, lists[j]);
      if j == i { DeleteMembers(lists[i], q); }
    }
  }

  lemma {:induction false} IdleSame(zones: map<nat, Zone>, idle: seq<nat>, large: map<nat, nat>, z: nat)
    requires z in zones && forall k: nat :: !Live(zones, idle, large, Chunk(z, k))
    ensures SameLive(zones, idle, zones, [z] + idle, large)
  {
    forall o: Object ensures Live(zones, [z] + idle, large, o) <==> Live(zones, idle, large, o) {
      if o.Chunk? { assert !Live(zones, idle, large, Chunk(z, o.k)); }
    }
  }

  lemma {:induction false} DroppedSame(zones: map<nat, Zone>, idle: seq<nat>, large: map<nat, nat>, z: nat)
    requires z in zones && forall k: nat :: !Live(zones, idle, large, Chunk(z, k))
    ensures SameLive(zones, idle, zones - {z}, idle, large)
  {
    forall o: Object ensures Live(zones - {z}, idle, large, o) <==> Live(zones, idle, large, o) {
      if o.Chunk? { assert !Live(zones, idle, large, Chunk(z, o.k)); }
    }
  }

  ghost predicate Disjoint(taken: map<nat, nat>) {
    && (forall a: nat, b: nat :: a in taken && b in taken && a < b ==> a + taken[a] <= b)
    && (forall a: nat :: a in taken ==> taken[a] > 0)
  }

  lemma {:induction false} DroppedOk(g: Geometry, zones: map<nat, Zone>, large: map<nat, nat>,
      taken: map<nat, nat>, usage: map<nat, Usage>, usage1: map<nat, Usage>, z: nat)
    requires ZonesOk(g, zones, taken, usage) && LargesOk(zones, large, taken, usage) && z in zones
    requires UsageOutside(usage, usage1, z, g.zonePages) && Disjoint(taken)
    ensures ZonesOk(g, zones - {z}, taken - {z}, usage1) && LargesOk(zones - {z}, large, taken - {z}, usage1)
  {
    hide ZoneOk;
    var zones1 := zones - {z};
    forall y: nat | y in zones1 ensures Mapped(usage1, y, g.zonePages) {
      assert Mapped(usage, y, g.zonePages) && y in taken && z in taken;
    }
    forall a: nat | a in large ensures a in usage1 && usage1[a] == Usage(LargePage, large[a]) {
      assert a in taken && z in taken && a != z;
    }
  }

  lemma {:induction false} DroppedLists(zones: map<nat, Zone>, lists: seq<seq<nat>>, idle: seq<nat>, z: nat)
    requires ListsOk(zones, lists, [z] + idle) && IdleOk(zones, [z] + idle) && z in zones
    ensures ListsOk(zones - {z}, lists, idle) && IdleOk(zones - {z}, idle) && UseOf(zones[z]) == 0
  {
    var zones1 := zones - {z};
    TailMembers([z] + idle);
    assert ([z] + idle)[1..] == idle;
    assert ([z] + idle)[0] == z;
    forall j: nat | j < ZONES ensures ListOk(zones1, idle, j, lists[j]) {
      assert ListOk(zones, [z] + idle, j, lists[j]);
    }
  }

  lemma {:induction false} ZoneDropped(g: Geometry, zones: map<nat, Zone>, lists: seq<seq<nat>>, idle: seq<nat>, large: map<nat, nat>,
      taken: map<nat, nat>, usage: map<nat, Usage>, usage1: map<nat, Usage>, z: nat)
    requires ZonesOk(g, zones, taken, usage) && LargesOk(zones, large, taken, usage) && z in zones
    requires ListsOk(zones, lists, [z] + idle) && IdleOk(zones, [z] + idle)
    requires UsageOutside(usage, usage1, z, g.zonePages) && Disjoint(taken)
    ensures var zones1 := zones - {z};
      && ZonesOk(g, zones1, taken - {z}, usage1) && LargesOk(zones1, large, taken - {z}, usage1)
      && ListsOk(zones1, lists, idle) && IdleOk(zones1, idle) && InUse(zones1, large) == InUse(zones, large)
  {
    hide ZonesOk, LargesOk, ListsOk, IdleOk, InUse, UseOf, UsageOutside, Disjoint;
    DroppedOk(g, zones, large, taken, usage, usage1, z);
    DroppedLists(zones, lists, idle, z);
    UseWithout(zones, large, z);
  }

  // Index zi has no zone with free chunks, no zone lies idle, and there are no pages for a new one.
  ghost predicate NoZone(g: Geometry, pages: seq<Run>, lists: seq<seq<nat>>, idle: seq<nat>, zi: int) {
    0 <= zi < |lists| && lists[zi] == [] && idle == [] && NoPages(pages, g.zonePages)
  }

  // A small request is rounded to no more than a quarter of a zone.
  lemma {:induction false} SmallEnough(g: Geometry, size: nat)
    requires Sized(g) && 0 < size < g.limit
    ensures 0 <= ZoneIndex(size).1 < ZONES && size <= ChunkOf(ZoneIndex(size).1)
    ensures 4 * ChunkOf(ZoneIndex(size).1) <= g.zonePages * PAGE
  {
    hide ZoneIndex;
    ZoneFits(size);
    ChunksAround();
  }

  lemma {:induction false} ChunksAround()
    ensures forall i: nat :: 62 < i < ZONES ==> ChunkOf(i) >= 8192
    ensures forall i: nat :: i <= 63 ==> ChunkOf(i) <= 8192
    ensures forall i: nat :: i < ZONES ==> 8 <= ChunkOf(i) <= 16384
  {
  }

  lemma {:induction false} ListsShape(zones: map<nat, Zone>, lists: seq<seq<nat>>, idle: seq<nat>)
    requires ListsOk(zones, lists, idle)
    ensures |lists| == ZONES
  {
  }

  ghost predicate UsageOutside(was: map<nat, Usage>, now: map<nat, Usage>, b: nat, n: nat) {
    forall p: nat :: p in was && !(b <= p < b + n) ==> p in now && now[p] == was[p]
  }

  lemma {:induction false} ExtentTaken(g: Geometry, zones: map<nat, Zone>, large: map<nat, nat>, taken: map<nat, nat>,
      usage: map<nat, Usage>, usage1: map<nat, Usage>, b: nat, n: nat)
    requires ZonesOk(g, zones, taken, usage) && LargesOk(zones, large, taken, usage) && b !in taken && n > 0
    requires forall a: nat :: a in taken ==> taken[a] > 0 && (a + taken[a] <= b || b + n <= a)
    requires UsageOutside(usage, usage1, b, n)
    ensures ZonesOk(g, zones, taken[b := n], usage1)
    ensures LargesOk(zones, large, taken[b := n], usage1)
  {
    hide ZoneOk;
    forall z: nat | z in zones ensures Mapped(usage1, z, g.zonePages) {
      assert Mapped(usage, z, g.zonePages);
    }
  }

  function Rest(s: seq<nat>): seq<nat> { if s != [] then s[1..] else s }

  // z is the first idle zone, or with none idle an extent that is no zone yet.
  ghost predicate Openable(g: Geometry, zones: map<nat, Zone>, idle: seq<nat>, large: map<nat, nat>,
      taken: map<nat, nat>, usage: map<nat, Usage>, z: nat)
  {
    && z in taken && taken[z] == g.zonePages && Mapped(usage, z, g.zonePages) && z !in large
    && if idle != [] then z == idle[0] && z in zones && UseOf(zones[z]) == 0 else z !in zones
  }

  lemma {:induction false} IdleHead(g: Geometry, zones: map<nat, Zone>, lists: seq<seq<nat>>, idle: seq<nat>,
      large: map<nat, nat>, taken: map<nat, nat>, usage: map<nat, Usage>)
    requires ZonesOk(g, zones, taken, usage) && LargesOk(zones, large, taken, usage)
    requires ListsOk(zones, lists, idle) && IdleOk(zones, idle) && idle != []
    ensures Openable(g, zones, idle, large, taken, usage, idle[0])
  {
    hide ZoneOk, Mapped;
    assert idle[0] in idle;
  }

  // The zone as it is set up, with its first chunk given out.
  function NewZone(g: Geometry, z: nat, zi: nat): Zone
    requires zi < ZONES && ChunkOf(zi) > 0 && FirstOffset(g.header, ChunkOf(zi)) <= g.zonePages * PAGE
    requires (g.zonePages * PAGE - FirstOffset(g.header, ChunkOf(zi))) / ChunkOf(zi) >= 1
  {
    var off := FirstOffset(g.header, ChunkOf(zi));
    var n := (g.zonePages * PAGE - off) / ChunkOf(zi);
    Zone(n - 1, n, 0, ChunkOf(zi), zi, z * PAGE + off, [])
  }

  lemma {:induction false} FreshZone(g: Geometry, z: nat, zi: nat)
    requires Sized(g) && zi < ZONES && 4 * ChunkOf(zi) <= g.zonePages * PAGE
    ensures ChunkOf(zi) >= 8 && FirstOffset(g.header, ChunkOf(zi)) <= g.zonePages * PAGE
    ensures (g.zonePages * PAGE - FirstOffset(g.header, ChunkOf(zi))) / ChunkOf(zi) >= 2
    ensures ZoneOk(g, z, NewZone(g, z, zi)) && UseOf(NewZone(g, z, zi)) == ChunkOf(zi)
    ensures var x := NewZone(g, z, zi);
      x.nfree > 0 && x.index == zi && x.chunkSize == ChunkOf(zi) && x.uindex == 0 && x.free == []
  {
    hide FirstOffset, ChunkOf;
    ChunksAround();
    RoomForTwo(g.header, g.zonePages * PAGE, ChunkOf(zi));
    OneOf(ChunkOf(zi));
  }

  lemma {:induction false} FirstChunk(x: Zone)
    ensures x.base + x.uindex * x.chunkSize == Addr(x, x.uindex)
  {
  }

  lemma {:induction false} OneOf(c: nat)
    ensures 1 * c == c
  {
  }

  lemma {:induction false} OpenedLists(zones: map<nat, Zone>, lists: seq<seq<nat>>, idle: seq<nat>, zi: nat, z: nat, x: Zone)
    requires ListsOk(zones, lists, idle) && zi < ZONES && lists[zi] == [] && x.index == zi && x.nfree > 0
    requires if idle != [] then z == idle[0] && z in zones else z !in zones
    ensures ListsOk(zones[z := x], lists[zi := [z] + lists[zi]], if idle != [] then idle[1..] else idle)
  {
    var zones1 := zones[z := x];
    var idle1 := if idle != [] then idle[1..] else idle;
    if idle != [] { TailMembers(idle); }
    var lists1 := lists[zi := [z] + lists[zi]];
    forall j: nat | j < ZONES ensures ListOk(zones1, idle1, j, lists1[j]) {
      assert ListOk(zones, idle, j, lists[j]);
    }
  }

  lemma {:induction false} OpenedAdds(zones: map<nat, Zone>, idle: seq<nat>, large: map<nat, nat>, z: nat, x: Zone)
    requires NoDuplicates(idle) && x.uindex == 0 && x.free == []
    requires if idle != [] then z == idle[0] && z in zones else z !in zones
    ensures Adds(zones, idle, large, zones[z := x], if idle != [] then idle[1..] else idle, large, Chunk(z, 0))
  {
    if idle != [] {
      TailMembers(idle);
      assert idle[0] in idle;
    }
  }

  // Chunk 0 of a zone that was idle or new is the only live one there.
  lemma {:induction false} ZoneOpened(g: Geometry, zones: map<nat, Zone>, lists: seq<seq<nat>>, idle: seq<nat>, large: map<nat, nat>,
      taken: map<nat, nat>, usage: map<nat, Usage>, zi: nat, z: nat, x: Zone)
    requires ZonesOk(g, zones, taken, usage) && LargesOk(zones, large, taken, usage) && ListsOk(zones, lists, idle) && IdleOk(zones, idle)
    requires zi < ZONES && |lists| == ZONES && lists[zi] == []
    requires ZoneOk(g, z, x) && x.index == zi && x.uindex == 0 && x.free == [] && x.nfree > 0
    requires Openable(g, zones, idle, large, taken, usage, z)
    ensures var zones1 := zones[z := x]; var idle1 := Rest(idle);
      && ZonesOk(g, zones1, taken, usage) && LargesOk(zones1, large, taken, usage) && IdleOk(zones1, idle1)
      && ListsOk(zones1, lists[zi := [z] + lists[zi]], idle1)
      && Adds(zones, idle, large, zones1, idle1, large, Chunk(z, 0))
      && InUse(zones1, large) == InUse(zones, large) + UseOf(x)
  {
    hide ZoneOk, Mapped, Adds, Live, UseOf, InUse, ListOk;
    if idle != [] { TailMembers(idle); }
    UseWith(zones, large, z, x);
    OpenedLists(zones, lists, idle, zi, z, x);
    OpenedAdds(zones, idle, large, z, x);
  }

  lemma {:induction false} LargeAt(g: Geometry, zones: map<nat, Zone>, large: map<nat, nat>, taken: map<nat, nat>,
      usage: map<nat, Usage>, runs: seq<Run>, a: nat)
    requires PagesOk(runs, taken, g.pages) && LargesOk(zones, large, taken, usage) && a in large
    ensures a in taken && taken[a] == large[a] > 0 && a in usage && usage[a] == Usage(LargePage, large[a])
    ensures Coalesced(runs) && NoneFree(runs, a, large[a])
  {
  }

  lemma {:induction false} DropLarge(g: Geometry, zones: map<nat, Zone>, idle: seq<nat>, large: map<nat, nat>,
      taken: map<nat, nat>, usage: map<nat, Usage>, a: nat)
    requires ZonesOk(g, zones, taken, usage) && LargesOk(zones, large, taken, usage) && a in large
    ensures var usage1 := usage[a := Usage(LargePage, 0)]; var large1 := large - {a};
      && ZonesOk(g, zones, taken - {a}, usage1) && LargesOk(zones, large1, taken - {a}, usage1)
      && Adds(zones, idle, large1, zones, idle, large, Large(a))
      && InUse(zones, large1) == InUse(zones, large) - large[a] * PAGE
  {
    hide ZoneOk;
    TotalWithout(large, a);
    forall z: nat | z in zones ensures z != a && Mapped(usage[a := Usage(LargePage, 0)], z, g.zonePages) {
      assert Mapped(usage, z, g.zonePages);
    }
  }

  // Chunk k of the zone goes back on its free list.
  lemma {:induction false} GiveBack(g: Geometry, z: nat, x: Zone, k: nat)
    requires ZoneOk(g, z, x) && k <= x.uindex && Addr(x, k) !in x.free
    ensures var x1 := x.(free := [Addr(x, k)] + x.free, nfree := x.nfree + 1);
      ZoneOk(g, z, x1) && Opens(x1, x, k) && UseOf(x) == UseOf(x1) + x.chunkSize
  {
    ChunkPositive(x.index);
    var x1 := x.(free := [Addr(x, k)] + x.free, nfree := x.nfree + 1);
    InsertMembers(x.free, 0, Addr(x, k));
    assert Insert(x.free, 0, Addr(x, k)) == x1.free;
    forall f: nat | f in x1.free ensures WasOut(x1, f) {
      if f == Addr(x, k) {
        assert f == Addr(x1, k);
      } else {
        assert WasOut(x, f);
        var j: nat :| j <= x.uindex && f == Addr(x, j);
        assert f == Addr(x1, j);
      }
    }
    forall j: nat ensures Addr(x1, j) == Addr(x, j) && (Addr(x, j) == Addr(x, k) <==> j == k) { AddrsApart(x, j, k); }
    FreedAreFew(g, z, x1);
    UseStep(x.nmax, x1.nfree, x.chunkSize);
  }

  lemma {:induction false} ChunkGiven(g: Geometry, zones: map<nat, Zone>, lists: seq<seq<nat>>, idle: seq<nat>, large: map<nat, nat>,
      taken: map<nat, nat>, usage: map<nat, Usage>, z: nat, x1: Zone, k: nat)
    requires ZonesOk(g, zones, taken, usage) && LargesOk(zones, large, taken, usage)
    requires ListsOk(zones, lists, idle) && IdleOk(zones, idle) && z in zones && z !in idle && |lists| == ZONES
    requires var x := zones[z];
      && ZoneOk(g, z, x1) && Opens(x1, x, k) && UseOf(x) == UseOf(x1) + x.chunkSize
      && x1.nfree == x.nfree + 1 && x1.index == x.index < ZONES
    ensures var x := zones[z]; var zones1 := zones[z := x1];
      && ZonesOk(g, zones1, taken, usage) && LargesOk(zones1, large, taken, usage) && IdleOk(zones1, idle)
      && ListsOk(zones1, if x.nfree == 0 then lists[x.index := [z] + lists[x.index]] else lists, idle)
      && Adds(zones1, idle, large, zones, idle, large, Chunk(z, k))
      && InUse(zones1, large) == InUse(zones, large) - x.chunkSize
  {
    SetZone(g, zones, large, taken, usage, z, x1);
    SetIdle(zones, idle, z, x1);
    ListsGive(zones, lists, idle, z, x1);
    assert zones[z := x1][z := zones[z]] == zones;
    AddChunk(zones[z := x1], idle, large, z, zones[z], k);
    UseWith(zones, large, z, x1);
    hide ZonesOk, LargesOk, ListsOk, InUse, ZoneOk, Live, Adds;
  }

  lemma {:induction false} ListsGive(zones: map<nat, Zone>, lists: seq<seq<nat>>, idle: seq<nat>, z: nat, x1: Zone)
    requires ListsOk(zones, lists, idle) && z in zones && z !in idle && zones[z].index < ZONES && |lists| == ZONES
    requires x1.index == zones[z].index && x1.nfree == zones[z].nfree + 1
    ensures var x := zones[z];
      ListsOk(zones[z := x1], if x.nfree == 0 then lists[x.index := [z] + lists[x.index]] else lists, idle)
  {
    var x := zones[z];
    var zones1 := zones[z := x1];
    var lists1 := if x.nfree == 0 then lists[x.index := [z] + lists[x.index]] else lists;
    forall j: nat | j < ZONES ensures ListOk(zones1, idle, j, lists1[j]) {
      assert ListOk(zones, idle, j, lists[j]);
      if j == x.index && x.nfree == 0 {
        InsertMembers(lists[j], 0, z);
        assert Insert(lists[j], 0, z) == [z] + lists[j];
      }
    }
  }

  // One chunk of a zone with some free: one never given out while there is any, then a freed one.
  method PickChunk(ghost g: Geometry, ghost z: nat, x: Zone) returns (x1: Zone, p: nat, ghost k: nat)
    requires ZoneOk(g, z, x) && x.nfree > 0
    ensures ZoneOk(g, z, x1) && Opens(x, x1, k) && UseOf(x1) == UseOf(x) + x.chunkSize
    ensures x1.nfree == x.nfree - 1 && x1.index == x.index && p == Addr(x1, k) && k <= x1.uindex
  {
    hide ZoneOk, Opens, UseOf;
    ZoneShape(g, z, x);
    x1 := x.(nfree := x.nfree - 1);
    if x.uindex + 1 != x.nmax {
      k := x.uindex + 1;
      TakeFresh(g, z, x);
      x1 := x1.(uindex := x.uindex + 1);
      p := x1.base + x1.uindex * x.chunkSize;
    } else {
      k := TakeFreed(g, z, x);
      OpenedWithin(x, k);
      p := x.free[0];
      x1 := x1.(free := x.free[1..]);
    }
  }

  lemma {:induction false} ZoneShape(g: Geometry, z: nat, x: Zone)
    requires ZoneOk(g, z, x)
    ensures x.uindex < x.nmax
  {
  }

  lemma {:induction false} OpenedWithin(x: Zone, k: nat)
    ensures Addr(x, k) == x.base + k * x.chunkSize
  {
  }

  // What taking a chunk from the first zone of list zi keeps and adds.
  lemma {:induction false} ChunkTaken(g: Geometry, zones: map<nat, Zone>, lists: seq<seq<nat>>, idle: seq<nat>, large: map<nat, nat>,
      taken: map<nat, nat>, usage: map<nat, Usage>, zi: nat, x1: Zone, k: nat)
    requires ZonesOk(g, zones, taken, usage) && LargesOk(zones, large, taken, usage)
    requires ListsOk(zones, lists, idle) && IdleOk(zones, idle) && zi < ZONES && lists[zi] != [] && lists[zi][0] in zones
    requires var z := lists[zi][0]; var x := zones[z];
      && ZoneOk(g, z, x1) && Opens(x, x1, k) && UseOf(x1) == UseOf(x) + x.chunkSize
      && x1.nfree == x.nfree - 1 && x1.index == x.index
    ensures var z := lists[zi][0]; var x := zones[z]; var zones1 := zones[z := x1];
      && z !in idle
      && ZonesOk(g, zones1, taken, usage) && LargesOk(zones1, large, taken, usage) && IdleOk(zones1, idle)
      && ListsOk(zones1, if x1.nfree == 0 then lists[zi := lists[zi][1..]] else lists, idle)
      && Adds(zones, idle, large, zones1, idle, large, Chunk(z, k))
      && InUse(zones1, large) == InUse(zones, large) + x.chunkSize && x1.chunkSize == x.chunkSize
  {
    var z := lists[zi][0];
    HeadOfList(zones, lists, idle, zi);
    ListsTake(zones, lists, idle, zi, x1);
    SetZone(g, zones, large, taken, usage, z, x1);
    SetIdle(zones, idle, z, x1);
    AddChunk(zones, idle, large, z, x1, k);
    UseWith(zones, large, z, x1);
    hide ZonesOk, LargesOk, ListsOk, InUse, ZoneOk, Live, Adds;
  }

  lemma {:induction false} ChunkAt(zones: map<nat, Zone>, large: map<nat, nat>, z: nat, k: nat)
    requires z in zones
    ensures From(zones, Chunk(z, k)) == Addr(zones[z], k) && SizeOf(zones, large, Chunk(z, k)) == zones[z].chunkSize
  {
  }

  lemma {:induction false} HeadOfList(zones: map<nat, Zone>, lists: seq<seq<nat>>, idle: seq<nat>, i: nat)
    requires ListsOk(zones, lists, idle) && i < ZONES && lists[i] != []
    ensures var z := lists[i][0]; z in zones && z !in idle && zones[z].index == i && zones[z].nfree > 0
  {
    assert ListOk(zones, idle, i, lists[i]);
    assert lists[i][0] in lists[i];
  }

  lemma {:induction false} ZoneAt(g: Geometry, zones: map<nat, Zone>, taken: map<nat, nat>, usage: map<nat, Usage>, z: nat)
    requires ZonesOk(g, zones, taken, usage) && z in zones
    ensures z in taken && taken[z] == g.zonePages && ZoneOk(g, z, zones[z]) && Mapped(usage, z, g.zonePages)
    ensures zones[z].index < ZONES && zones[z].chunkSize == ChunkOf(zones[z].index) > 0 && zones[z].uindex < zones[z].nmax
  {
    ChunkPositive(zones[z].index);
  }

  lemma {:induction false} TakeFresh(g: Geometry, z: nat, x: Zone)
    requires ZoneOk(g, z, x) && x.uindex + 1 != x.nmax
    ensures x.nfree > 0
    ensures var x1 := x.(nfree := x.nfree - 1, uindex := x.uindex + 1);
      ZoneOk(g, z, x1) && Opens(x, x1, x.uindex + 1) && UseOf(x1) == UseOf(x) + x.chunkSize
  {
    ChunkPositive(x.index);
    var x1 := x.(nfree := x.nfree - 1, uindex := x.uindex + 1);
    var k := x.uindex + 1;
    forall f: nat | f in x.free ensures WasOut(x1, f) && f != Addr(x, k) {
      assert WasOut(x, f);
      var j: nat :| j <= x.uindex && f == Addr(x, j);
      AddrsApart(x, j, k);
      assert f == Addr(x1, j);
    }
    assert |x.free| <= x.uindex + 1 by { FreedAreFew(g, z, x); }
    forall j: nat ensures Addr(x1, j) == Addr(x, j) { }
    UseStep(x.nmax, x.nfree, x.chunkSize);
  }

  lemma {:induction false} UseStep(nmax: nat, nfree: nat, c: nat)
    requires 0 < nfree <= nmax
    ensures (nmax - (nfree - 1)) * c == (nmax - nfree) * c + c
  {
  }

  // No more chunks are on the free list than have been given out.
  lemma {:induction false} FreedAreFew(g: Geometry, z: nat, x: Zone)
    requires ZoneOk(g, z, x)
    ensures |x.free| <= x.uindex + 1 && x.nfree <= x.nmax
  {
    ChunkPositive(x.index);
    forall f: nat | f in x.free ensures exists k: nat :: k < x.uindex + 1 && f == Addr(x, k) {
      assert WasOut(x, f);
      var j: nat :| j <= x.uindex && f == Addr(x, j);
      assert j < x.uindex + 1;
    }
    CountLive(x, x.uindex + 1, x.free);
  }

  // Chunk k of the zone, and no other, becomes live.
  ghost predicate Opens(x: Zone, x1: Zone, k: nat) {
    && x1.base == x.base && x1.chunkSize == x.chunkSize
    && !(k <= x.uindex && Addr(x, k) !in x.free)
    && (forall j: nat :: (j <= x1.uindex && Addr(x, j) !in x1.free) <==> (j <= x.uindex && Addr(x, j) !in x.free) || j == k)
  }

  lemma {:induction false} TakeFreed(g: Geometry, z: nat, x: Zone) returns (k: nat)
    requires ZoneOk(g, z, x) && x.uindex + 1 == x.nmax && x.nfree > 0
    ensures x.free != [] && x.free[0] == Addr(x, k)
    ensures var x1 := x.(nfree := x.nfree - 1, free := x.free[1..]);
      ZoneOk(g, z, x1) && Opens(x, x1, k) && UseOf(x1) == UseOf(x) + x.chunkSize
    ensures k <= x.uindex
  {
    ChunkPositive(x.index);
    assert x.free[0] in x.free;
    assert WasOut(x, x.free[0]);
    k :| k <= x.uindex && x.free[0] == Addr(x, k);
    TailMembers(x.free);
    FreedAreFew(g, z, x);
    var x1 := x.(nfree := x.nfree - 1, free := x.free[1..]);
    forall f: nat | f in x1.free ensures WasOut(x1, f) {
      assert WasOut(x, f);
      var j: nat :| j <= x.uindex && f == Addr(x, j);
      assert f == Addr(x1, j);
    }
    forall j: nat ensures Addr(x1, j) == Addr(x, j) && (Addr(x, j) == Addr(x, k) <==> j == k) { AddrsApart(x, j, k); }
    UseStep(x.nmax, x.nfree, x.chunkSize);
  }

  lemma {:induction false} AddChunk(zones: map<nat, Zone>, idle: seq<nat>, large: map<nat, nat>, z: nat, x1: Zone, k: nat)
    requires z in zones && z !in idle && Opens(zones[z], x1, k)
    ensures Adds(zones, idle, large, zones[z := x1], idle, large, Chunk(z, k))
  {
    var x := zones[z];
    forall j: nat ensures Addr(x1, j) == Addr(x, j) { }
  }

  lemma {:induction false} SetZone(g: Geometry, zones: map<nat, Zone>, large: map<nat, nat>, taken: map<nat, nat>,
      usage: map<nat, Usage>, z: nat, x: Zone)
    requires ZonesOk(g, zones, taken, usage) && LargesOk(zones, large, taken, usage) && z in zones && ZoneOk(g, z, x)
    ensures ZonesOk(g, zones[z := x], taken, usage) && LargesOk(zones[z := x], large, taken, usage)
  {
    hide ZoneOk, Mapped;
  }

  lemma {:induction false} SetIdle(zones: map<nat, Zone>, idle: seq<nat>, z: nat, x: Zone)
    requires IdleOk(zones, idle) && z !in idle
    ensures IdleOk(zones[z := x], idle)
  {
  }

  lemma {:induction false} ListsTake(zones: map<nat, Zone>, lists: seq<seq<nat>>, idle: seq<nat>, i: nat, x1: Zone)
    requires ListsOk(zones, lists, idle) && i < ZONES && lists[i] != []
    requires x1.index == i && x1.nfree == zones[lists[i][0]].nfree - 1
    ensures var z := lists[i][0];
      ListsOk(zones[z := x1], if x1.nfree == 0 then lists[i := lists[i][1..]] else lists, idle)
  {
    HeadOfList(zones, lists, idle, i);
    var z := lists[i][0];
    var zones1 := zones[z := x1];
    var lists1 := if x1.nfree == 0 then lists[i := lists[i][1..]] else lists;
    forall j: nat | j < ZONES ensures ListOk(zones1, idle, j, lists1[j]) {
      assert ListOk(zones, idle, j, lists[j]);
      if j == i { TailMembers(lists[i]); }
    }
  }

  lemma {:induction false} LargeAllocated(g: Geometry, runs: seq<Run>, zones: map<nat, Zone>, idle: seq<nat>, large: map<nat, nat>,
      taken: map<nat, nat>, usage: map<nat, Usage>, n: nat)
    requires PagesOk(runs, taken, g.pages) && ZonesOk(g, zones, taken, usage) && LargesOk(zones, large, taken, usage)
    requires 0 < n && FirstFit(runs, n, 0) < |runs|
    ensures var f := FirstFit(runs, n, 0); var b := runs[f].start;
      var taken1, usage1, large1 := taken[b := n], usage[b := Usage(LargePage, n)], large[b := n];
      && PagesOk(Cut(runs, f, n), taken1, g.pages)
      && ZonesOk(g, zones, taken1, usage1) && LargesOk(zones, large1, taken1, usage1)
      && Adds(zones, idle, large, zones, idle, large1, Large(b))
      && InUse(zones, large1) == InUse(zones, large) + n * PAGE
      && From(zones, Large(b)) == b * PAGE && SizeOf(zones, large1, Large(b)) == n * PAGE
  {
    hide PagesOk, ZonesOk, LargesOk, InUse, Cut, Live, Adds, From, SizeOf;
    var f := FirstFit(runs, n, 0);
    var b := runs[f].start;
    TakePages(runs, taken, g.pages, f, n);
    NewExtent(g, zones, large, taken, usage, b, n);
    LargeTaken(g, zones, large, taken, usage, b, n);
    AddLarge(zones, idle, large, b, n);
    LargeIs(zones, large[b := n], b);
  }

  lemma {:induction false} LargeIs(zones: map<nat, Zone>, large: map<nat, nat>, a: nat)
    requires a in large
    ensures From(zones, Large(a)) == a * PAGE && SizeOf(zones, large, Large(a)) == large[a] * PAGE
  {
  }

  // No n pages in a row are free.
  ghost predicate NoPages(runs: seq<Run>, n: nat) {
    forall a: nat :: !AllFree(runs, a, n)
  }

  // The page allocator fails exactly when no stretch of free pages is long enough.
  lemma {:induction false} NoRunNoPages(runs: seq<Run>, n: nat)
    requires Coalesced(runs) && n > 0
    ensures NoPages(runs, n) <==> FirstFit(runs, n, 0) == |runs|
  {
    var f := FirstFit(runs, n, 0);
    if f < |runs| {
      CutRuns(runs, f, n);
    } else {
      forall a: nat ensures !AllFree(runs, a, n) {
        if AllFree(runs, a, n) {
          var i := FreePagesInOneRun(runs, a, n);
        }
      }
    }
  }

  lemma {:induction false} RunsCoalesced(runs: seq<Run>, taken: map<nat, nat>, pages: nat)
    requires PagesOk(runs, taken, pages)
    ensures Coalesced(runs)
  {
  }

  lemma {:induction false} PagesFor(size: nat)
    requires size > 0
    ensures AlignUp(size, PAGE) / PAGE > 0 && AlignUp(size, PAGE) / PAGE * PAGE == AlignUp(size, PAGE) >= size
  {
    AlignedUp(size, PAGE);
  }

  // Pages that were free belong to no zone and no large object.
  lemma {:induction false} NewExtent(g: Geometry, zones: map<nat, Zone>, large: map<nat, nat>, taken: map<nat, nat>,
      usage: map<nat, Usage>, b: nat, n: nat)
    requires ZonesOk(g, zones, taken, usage) && LargesOk(zones, large, taken, usage) && b !in taken
    ensures b !in zones && b !in large
  {
  }

  // A large object on pages apart from all extents disturbs none of them.
  lemma {:induction false} LargeTaken(g: Geometry, zones: map<nat, Zone>, large: map<nat, nat>, taken: map<nat, nat>,
      usage: map<nat, Usage>, b: nat, n: nat)
    requires ZonesOk(g, zones, taken, usage) && LargesOk(zones, large, taken, usage) && b !in taken && n > 0
    requires forall a: nat :: a in taken ==> a + taken[a] <= b || b + n <= a
    ensures ZonesOk(g, zones, taken[b := n], usage[b := Usage(LargePage, n)])
    ensures LargesOk(zones, large[b := n], taken[b := n], usage[b := Usage(LargePage, n)])
  {
    hide ZoneOk;
    var usage1 := usage[b := Usage(LargePage, n)];
    forall z: nat | z in zones ensures Mapped(usage1, z, g.zonePages) {
      assert Mapped(usage, z, g.zonePages);
    }
  }

  lemma {:induction false} AddLarge(zones: map<nat, Zone>, idle: seq<nat>, large: map<nat, nat>, b: nat, n: nat)
    requires b !in large
    ensures Adds(zones, idle, large, zones, idle, large[b := n], Large(b))
    ensures InUse(zones, large[b := n]) == InUse(zones, large) + n * PAGE
  {
    TotalWith(large, b, n);
  }

  // The zone size in pages and the largest size that zones serve, from the size of the heap in bytes.
  method ZoneSize(limsize: nat) returns (zonePages: nat, limit: nat)
    ensures (zonePages == 8 && limit == 8192) || (zonePages in {16, 32} && limit == 16384)
    ensures zonePages == 8 <==> 65536 >= limsize / 1024
    ensures zonePages == 32 <==> 131072 < limsize / 1024
  {
    var zoneSize := 32768;
    while zoneSize < 131072 && zoneSize * 2 < limsize / 1024
      invariant zoneSize in {32768, 65536, 131072}
      invariant zoneSize > 32768 ==> zoneSize < limsize / 1024
      decreases 131072 - zoneSize
    {
      zoneSize := zoneSize * 2;
    }
    limit := zoneSize / 4;
    if limit > 16384 {
      limit := 16384;
    }
    zonePages := zoneSize / PAGE;
  }

  lemma {:induction false} TablePages(npages: nat)
    requires npages > 0
    ensures 0 < AlignUp(npages * 4, PAGE) / PAGE <= npages
  {
    AlignedUp(npages * 4, PAGE);
  }

  lemma {:induction false} AllPagesFree(npages: nat)
    requires npages > 0
    ensures PagesOk([Run(0, npages)], map[], npages)
  {
    var runs := [Run(0, npages)];
    forall p: nat ensures IsFree(runs, p) <==> p < npages {
      if p < npages { assert Covers(runs[0], p); }
    }
  }

  ghost predicate IdleOk(zones: map<nat, Zone>, idle: seq<nat>) {
    forall z: nat :: z in idle && z in zones ==> zones[z].nfree == zones[z].nmax
  }

  lemma {:induction false} FirstRunIs(runs: seq<Run>, n: nat, i: nat, k: nat)
    requires i <= k <= |runs| && (k < |runs| ==> runs[k].len >= n) && forall j :: i <= j < k ==> runs[j].len < n
    ensures FirstFit(runs, n, i) == k
    decreases k - i
  {
    if i < k { FirstRunIs(runs, n, i + 1, k); }
  }

  // A run lies wholly before or wholly after pages that are not free.
  lemma {:induction false} RunApart(runs: seq<Run>, i: nat, a: nat, n: nat)
    requires Coalesced(runs) && NoneFree(runs, a, n) && n > 0 && i < |runs|
    ensures runs[i].End() <= a || a + n <= runs[i].start
    ensures runs[i].len > 0 && (i + 1 < |runs| ==> runs[i].End() < runs[i + 1].start)
  {
    CoverFree(runs, i, a);
    CoverFree(runs, i, runs[i].start);
  }

  lemma {:induction false} PlaceBefore(runs: seq<Run>, i: nat, a: nat, n: nat)
    requires Coalesced(runs) && NoneFree(runs, a, n) && n > 0 && i <= |runs|
    requires i > 0 ==> runs[i - 1].End() < a
    requires i < |runs| ==> a + n <= runs[i].start
    ensures Position(runs, a) == i && Between(runs, i, a, n)
  {
    PositionIs(runs, a, i);
  }

  lemma {:induction false} PlaceAfter(runs: seq<Run>, i: nat, a: nat, n: nat)
    requires Coalesced(runs) && NoneFree(runs, a, n) && n > 0 && i < |runs| && runs[i].End() == a
    ensures Position(runs, a) == i + 1 && Between(runs, i + 1, a, n)
  {
    RunApart(runs, i, a, n);
    PositionIs(runs, a, i + 1);
    if i + 1 < |runs| { RunApart(runs, i + 1, a, n); }
  }

  lemma {:induction false} PutAfter(runs: seq<Run>, i: nat, a: nat, n: nat)
    requires i < |runs| && runs[i].End() == a
    ensures Put(runs, i + 1, a, n) ==
      if i + 1 < |runs| && a + n == runs[i + 1].start
      then runs[..i] + [Run(runs[i].start, runs[i].len + n + runs[i + 1].len)] + runs[i + 2..]
      else runs[i := Run(runs[i].start, runs[i].len + n)]
  {
  }

  lemma {:induction false} PutBefore(runs: seq<Run>, i: nat, a: nat, n: nat)
    requires i < |runs| && runs[i].start == a + n && (i > 0 ==> runs[i - 1].End() < a)
    ensures Put(runs, i, a, n) == runs[i := Run(a, runs[i].len + n)]
  {
  }

  lemma {:induction false} PutAlone(runs: seq<Run>, i: nat, a: nat, n: nat)
    requires i <= |runs| && (i < |runs| ==> runs[i].start > a + n) && (i > 0 ==> runs[i - 1].End() < a)
    ensures Put(runs, i, a, n) == runs[..i] + [Run(a, n)] + runs[i..]
  {
  }
}
