/** The chunk sizes of the slab allocator. */
module ZoneSizes {
  import opened Arithmetic

  const ZONES := 72 // RT_SLAB_NZONES

  // zoneindex: the size it writes back and the index it returns. Only sizes from 1 on are asked for.
  function ZoneIndex(n: nat): (nat, int) {
    if n < 128 then (AlignUp(n, 8), AlignUp(n, 8) / 8 - 1)
    else if n < 256 then (AlignUp(n, 16), AlignUp(n, 16) / 16 + 7)
    else if n < 512 then (AlignUp(n, 32), AlignUp(n, 32) / 32 + 15)
    else if n < 1024 then (AlignUp(n, 64), AlignUp(n, 64) / 64 + 23)
    else if n < 2048 then (AlignUp(n, 128), AlignUp(n, 128) / 128 + 31)
    else if n < 4096 then (AlignUp(n, 256), AlignUp(n, 256) / 256 + 39)
    else if n < 8192 then (AlignUp(n, 512), AlignUp(n, 512) / 512 + 47)
    else if n < 16384 then (AlignUp(n, 1024), AlignUp(n, 1024) / 1024 + 55)
    else (n, 0)
  }

  // The chunk size of each zone, as the table in the source's header lists them.
  function ChunkOf(i: nat): nat
    requires i < ZONES
  {
    if i < 16 then 8 * (i + 1)
    else if i < 24 then 16 * (i - 7)
    else if i < 32 then 32 * (i - 15)
    else if i < 40 then 64 * (i - 23)
    else if i < 48 then 128 * (i - 31)
    else if i < 56 then 256 * (i - 39)
    else if i < 64 then 512 * (i - 47)
    else 1024 * (i - 55)
  }

  lemma {:induction false} Quotient(n: nat, g: nat) returns (q: nat)
    requires g > 0 && n > 0
    ensures q > 0 && AlignUp(n, g) == q * g && AlignUp(n, g) / g == q && (q - 1) * g < n <= q * g
    ensures AlignUp(AlignUp(n, g), g) == AlignUp(n, g)
  {
    AlignedUp(n, g);
    q := (n + g - 1) / g;
    QuotientOf(q, g);
    AlignedUp(AlignUp(n, g), g);
    assert (q - 1) * g == q * g - g;
    AtLeast(n + g - 1, g, 1);
  }

  lemma {:induction false} QuotientOf(q: nat, g: nat)
    requires g > 0
    ensures q * g / g == q
  {
    MultipleIs(q, g);
    var d := q * g / g - q;
    assert q * g == q * g / g * g + q * g % g;
    assert d * g == q * g / g * g - q * g;
    Multiples(d, g);
  }

  // Chunk i is the smallest that holds n, and wastes less than an eighth of a request of 128 bytes or more.
  ghost predicate Suits(n: nat, bytes: nat, i: int) {
    && 0 <= i < ZONES && bytes == ChunkOf(i) && n <= bytes <= 16384 && bytes % 8 == 0
    && (i > 0 ==> ChunkOf(i - 1) < n)
    && (if n >= 128 then 8 * (bytes - n) < n else bytes - n < 8)
  }

  lemma {:induction false} ZoneFits256(n: nat)
    requires 1 <= n < 256
    ensures Suits(n, ZoneIndex(n).0, ZoneIndex(n).1)
  {
    hide AlignUp;
    var q: nat;
    if n < 128 { q := Quotient(n, 8); } else { q := Quotient(n, 16); }
  }

  lemma {:induction false} ZoneFits1024(n: nat)
    requires 256 <= n < 1024
    ensures Suits(n, ZoneIndex(n).0, ZoneIndex(n).1)
  {
    hide AlignUp;
    var q: nat;
    if n < 512 { q := Quotient(n, 32); } else { q := Quotient(n, 64); }
  }

  lemma {:induction false} ZoneFits4096(n: nat)
    requires 1024 <= n < 4096
    ensures Suits(n, ZoneIndex(n).0, ZoneIndex(n).1)
  {
    hide AlignUp;
    var q: nat;
    if n < 2048 { q := Quotient(n, 128); } else { q := Quotient(n, 256); }
  }

  lemma {:induction false} ZoneFits16384(n: nat)
    requires 4096 <= n < 16384
    ensures Suits(n, ZoneIndex(n).0, ZoneIndex(n).1)
  {
    hide AlignUp;
    var q: nat;
    if n < 8192 { q := Quotient(n, 512); } else { q := Quotient(n, 1024); }
  }

  // zoneindex returns an index in range, which alone determines the chunk size it writes back.
  lemma {:induction false} ZoneFits(n: nat)
    requires 0 < n < 16384
    ensures Suits(n, ZoneIndex(n).0, ZoneIndex(n).1)
  {
    hide ZoneIndex, Suits;
    if n < 256 { ZoneFits256(n); } else if n < 1024 { ZoneFits1024(n); }
    else if n < 4096 { ZoneFits4096(n); } else { ZoneFits16384(n); }
  }

  // Asking again with the size written back gives the same zone if and only if that size is below the limit
  // of zoneindex: the sizes above 15360 are rounded to 16384, for which it returns zone 0.
  lemma {:induction false} ZoneIndexAgain(n: nat)
    requires 0 < n < 16384
    ensures ZoneIndex(ZoneIndex(n).0) == ZoneIndex(n) <==> ZoneIndex(n).0 < 16384
    ensures ZoneIndex(n).0 < 16384 <==> n <= 15360
    ensures ZoneIndex(n).0 == 16384 ==> ZoneIndex(ZoneIndex(n).0) == (16384, 0)
  {
    var m := ZoneIndex(n).0;
    ZoneFits(n);
    if m < 16384 {
      ZoneFits(m);
      ChunksGrow(ZoneIndex(n).1);
      ChunksGrow(ZoneIndex(m).1);
      SmallestChunk(m, ZoneIndex(m).1, ZoneIndex(n).1);
    }
    hide ZoneIndex, AlignUp;
    LastZone(n);
  }

  lemma {:induction false} LastZone(n: nat)
    requires 0 < n < 16384
    ensures ZoneIndex(n).0 < 16384 <==> n <= 15360
    ensures ZoneIndex(n).0 == 16384 ==> ZoneIndex(ZoneIndex(n).0) == (16384, 0)
  {
    hide AlignUp;
    var q: nat;
    if n < 128 { q := Quotient(n, 8); }
    else if n < 256 { q := Quotient(n, 16); }
    else if n < 512 { q := Quotient(n, 32); }
    else if n < 1024 { q := Quotient(n, 64); }
    else if n < 2048 { q := Quotient(n, 128); }
    else if n < 4096 { q := Quotient(n, 256); }
    else if n < 8192 { q := Quotient(n, 512); }
    else { q := Quotient(n, 1024); }
  }

  // The chunk sizes grow with the index.
  lemma {:induction false} ChunksGrow(i: nat)
    requires i < ZONES
    ensures i > 0 ==> ChunkOf(i - 1) < ChunkOf(i)
  {
  }

  lemma {:induction false} ChunksIncrease(i: nat, j: nat)
    requires i < j < ZONES
    ensures ChunkOf(i) < ChunkOf(j)
    decreases j
  {
    ChunksGrow(j);
    if i + 1 < j { ChunksIncrease(i, j - 1); }
  }

  // Only one index has the smallest chunk that holds n.
  lemma {:induction false} SmallestChunk(n: nat, i: nat, j: nat)
    requires i < ZONES && j < ZONES && n <= ChunkOf(i) && n <= ChunkOf(j)
    requires i > 0 ==> ChunkOf(i - 1) < n
    requires j > 0 ==> ChunkOf(j - 1) < n
    ensures i == j
  {
    hide ChunkOf;
    if i < j - 1 { ChunksIncrease(i, j - 1); }
    if j < i - 1 { ChunksIncrease(j, i - 1); }
  }

  lemma {:induction false} LargerRequestLargerZone(m: nat, n: nat)
    requires 0 < m <= n < 16384
    ensures ZoneIndex(m).1 <= ZoneIndex(n).1 && ZoneIndex(m).0 <= ZoneIndex(n).0
  {
    hide ZoneIndex, ChunkOf;
    ZoneFits(m);
    ZoneFits(n);
    var i, j := ZoneIndex(m).1, ZoneIndex(n).1;
    if j < i - 1 { ChunksIncrease(j, i - 1); }
    if i < j { ChunksIncrease(i, j); }
  }

  // Where the first chunk of a zone lies: power-of-two chunks on a multiple of their size.
  predicate PowerOfTwo(n: nat) {
    n == 1 || (n > 1 && n % 2 == 0 && PowerOfTwo(n / 2))
  }

  function FirstOffset(header: nat, size: nat): nat
    requires size > 0
  {
    if PowerOfTwo(size) then AlignUp(header, size) else AlignUp(header, 8)
  }

  // A fresh zone has room for two chunks at least, so it has one to spare after the first is given out.
  lemma {:induction false} RoomForTwo(header: nat, zoneSize: nat, size: nat)
    requires header <= 128 && zoneSize >= 32768 && 8 <= size && 4 * size <= zoneSize
    ensures header <= FirstOffset(header, size) <= zoneSize
    ensures (zoneSize - FirstOffset(header, size)) / size >= 2
    ensures FirstOffset(header, size) + (zoneSize - FirstOffset(header, size)) / size * size <= zoneSize
  {
    AlignedUp(header, size);
    AlignedUp(header, 8);
    var off := FirstOffset(header, size);
    assert off < header + size || off < header + 8;
    var room := zoneSize - off;
    assert room >= 2 * size;
    AtLeast(room, size, 2);
  }

  lemma {:induction false} AtLeast(n: nat, m: nat, q: nat)
    requires m > 0 && n >= q * m
    ensures n / m >= q && n / m * m <= n
  {
    var d := n / m - q;
    assert n == n / m * m + n % m;
    assert d * m == n / m * m - q * m;
    Multiples(d, m);
  }
}
