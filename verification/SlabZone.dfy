/** Size classes and the inside of one slab zone. */
module SlabZone {
  import opened Words

  const PAGE := 4096
  /** sizeof(slab_zone) on a 32-bit target. */
  const HEADER := 36

  // ----- zoneindex -----

  function RoundTo(n: nat, k: nat): nat
    requires k > 0
  {
    (n + k - 1) / k * k
  }

  /** Granularity and index offset of the size class of a request. */
  function Class(n: nat): (nat, int) {
    if n < 128 then (8, -1)
    else if n < 256 then (16, 7)
    else if n < 512 then (32, 15)
    else if n < 1024 then (64, 23)
    else if n < 2048 then (128, 31)
    else if n < 4096 then (256, 39)
    else if n < 8192 then (512, 47)
    else (1024, 55)
  }

  /** zoneindex: the zone number and the chunk size. */
  function ZoneIndex(n: nat): (int, nat) {
    var size := RoundTo(n, Class(n).0);
    (size / Class(n).0 + Class(n).1, size)
  }

  /** Chunk size of a zone number. */
  function ChunkOf(zi: int): int {
    if zi < 16 then (zi + 1) * 8
    else if zi < 24 then (zi - 7) * 16
    else if zi < 32 then (zi - 15) * 32
    else if zi < 40 then (zi - 23) * 64
    else if zi < 48 then (zi - 31) * 128
    else if zi < 56 then (zi - 39) * 256
    else if zi < 64 then (zi - 47) * 512
    else (zi - 55) * 1024
  }

  lemma RoundToBounds(n: nat, k: nat)
    requires k > 0
    ensures n <= RoundTo(n, k) < n + k && RoundTo(n, k) % k == 0 && RoundTo(n, k) / k * k == RoundTo(n, k)
  {
    var q := (n + k - 1) / k;
    assert n + k - 1 == q * k + (n + k - 1) % k;
    Multiple(q, k);
  }

  lemma Multiple(q: nat, k: nat)
    requires k > 0
    ensures q * k % k == 0 && q * k / k == q
  {
    ModUnique(q * k, q, 0, k);
  }

  /** Every request below 16384 bytes gets one of the 72 zones, a chunk that is
      large enough, a multiple of 8, and the same for all requests of that zone;
      less than 8 bytes or less than an eighth of the request is wasted. */
  lemma ZoneIndexSound(n: nat)
    requires 0 < n < 16384
    ensures var (zi, size) := ZoneIndex(n);
      && 0 <= zi < 72 && n <= size == ChunkOf(zi) && size <= 16384 && size % 8 == 0
      && (size < n + 8 || 8 * (size - n) < n)
  {
    var k := Class(n).0;
    RoundToBounds(n, k);
    var size := RoundTo(n, k);
    var q := size / k;
    assert size == q * k;
    if n < 128 { assert 1 <= q <= 16; }
    else if n < 256 { assert 8 <= q <= 16; }
    else if n < 512 { assert 8 <= q <= 16; }
    else if n < 1024 { assert 8 <= q <= 16; }
    else if n < 2048 { assert 8 <= q <= 16; }
    else if n < 4096 { assert 8 <= q <= 16; }
    else if n < 8192 { assert 8 <= q <= 16; }
    else { assert 8 <= q <= 16; }
  }

  // ----- a zone -----

  /** struct slab_zone; `free` is z_freechunk as chunk numbers, `base` the offset
      of z_baseptr, `retired`: on the list of whole free zones. */
  datatype Zone = Zone(zi: int, chunk: int, base: int, nmax: int, nfree: int, uindex: int, free: seq<int>, retired: bool)

  predicate IsPow2(n: int)
    decreases n
  {
    n == 1 || (n > 1 && n % 2 == 0 && IsPow2(n / 2))
  }

  function BaseOf(chunk: nat): nat
    requires chunk > 0
  {
    if IsPow2(chunk) then RoundTo(HEADER, chunk) else RoundTo(HEADER, 8)
  }

  /** A new zone, with its first chunk handed out. */
  function NewZone(zi: int, chunk: nat, zoneSize: nat): Zone
    requires chunk > 0
  {
    var base := BaseOf(chunk);
    var nmax := (zoneSize - base) / chunk;
    Zone(zi, chunk, base, nmax, nmax - 1, 0, [], false)
  }

  predicate Within(s: seq<int>, n: int) {
    forall x :: x in s ==> 0 <= x < n
  }

  /** Chunk j is allocated. */
  predicate LiveIn(z: Zone, j: int) {
    0 <= j <= z.uindex && j !in z.free
  }

  /** z_nfree is the number of never-used chunks plus the free list; the chunks
      fit between the header and the end of the zone. */
  ghost predicate ZoneOk(z: Zone, zoneSize: nat) {
    && z.chunk > 0 && z.base >= HEADER && z.nmax >= 2 && z.base + z.nmax * z.chunk <= zoneSize
    && 0 <= z.uindex < z.nmax && NoDupInts(z.free) && Within(z.free, z.uindex + 1)
    && z.nfree == z.nmax - 1 - z.uindex + |z.free|
    && z.chunk == ChunkOf(z.zi) && 0 <= z.zi < 72 && z.base == BaseOf(z.chunk)
  }

  /** The chunk that rt_malloc takes from a zone with free chunks: a never-used
      one first. */
  function TakenChunk(z: Zone): int {
    if z.uindex + 1 != z.nmax then z.uindex + 1 else if z.free != [] then z.free[0] else 0
  }

  function TakeChunk(z: Zone): Zone {
    var z1 := z.(nfree := z.nfree - 1);
    if z.uindex + 1 != z.nmax then z1.(uindex := z.uindex + 1)
    else z1.(free := if z.free != [] then z.free[1..] else [])
  }

  function ReturnChunk(z: Zone, j: int): Zone {
    z.(free := [j] + z.free, nfree := z.nfree + 1)
  }

  /** A zone that says it has free chunks has one: the taken chunk was not live,
      and is the only one that becomes live. */
  lemma TakeChunkOk(z: Zone, zoneSize: nat)
    requires ZoneOk(z, zoneSize) && z.nfree > 0
    ensures ZoneOk(TakeChunk(z), zoneSize) && !LiveIn(z, TakenChunk(z))
    ensures TakenChunk(z) > z.uindex <==> z.uindex + 1 < z.nmax
    ensures z.uindex + 1 == z.nmax ==> z.free == [TakenChunk(z)] + TakeChunk(z).free
    ensures forall j :: LiveIn(TakeChunk(z), j) <==> LiveIn(z, j) || j == TakenChunk(z)
  {
    if z.uindex + 1 == z.nmax {
      assert z.free == [z.free[0]] + z.free[1..];
      assert z.free[0] in z.free && z.free[0] !in z.free[1..];
      assert forall x :: x in z.free[1..] ==> x in z.free;
    }
  }

  lemma ReturnChunkOk(z: Zone, j: int, zoneSize: nat)
    requires ZoneOk(z, zoneSize) && LiveIn(z, j)
    ensures ZoneOk(ReturnChunk(z, j), zoneSize)
    ensures forall i :: LiveIn(ReturnChunk(z, j), i) <==> LiveIn(z, i) && i != j
  {
  }

  function Without(s: seq<int>, i: nat): seq<int>
    requires i < |s|
  {
    s[..i] + s[i + 1..]
  }

  lemma {:induction false} Pigeon(s: seq<int>, n: nat)
    requires NoDupInts(s) && Within(s, n)
    ensures |s| <= n
    decreases n
  {
    assert s != [] ==> s[0] in s;
    if n > 0 {
      if n - 1 in s {
        var i :| 0 <= i < |s| && s[i] == n - 1;
        var t := Without(s, i);
        forall x | x in t ensures 0 <= x < n - 1 {
          var k :| 0 <= k < |t| && t[k] == x;
          assert x == (if k < i then s[k] else s[k + 1]);
          assert x in s;
        }
        Pigeon(t, n - 1);
      } else {
        Pigeon(s, n - 1);
      }
    }
  }

  lemma {:induction false} Filled(s: seq<int>, n: nat)
    requires forall j :: 0 <= j < n ==> j in s
    ensures |s| >= n
    decreases n
  {
    if n > 0 {
      assert n - 1 in s;
      var i :| 0 <= i < |s| && s[i] == n - 1;
      var t := Without(s, i);
      forall j | 0 <= j < n - 1 ensures j in t {
        assert j in s;
        var k :| 0 <= k < |s| && s[k] == j;
        assert t[if k < i then k else k - 1] == j;
      }
      Filled(t, n - 1);
    }
  }

  /** A zone whose z_nfree reaches z_nmax has no live chunk, and conversely. */
  lemma WholeZoneFree(z: Zone, zoneSize: nat)
    requires ZoneOk(z, zoneSize)
    ensures z.nfree <= z.nmax
    ensures z.nfree == z.nmax <==> forall j :: !LiveIn(z, j)
  {
    Pigeon(z.free, z.uindex + 1);
    if forall j :: !LiveIn(z, j) {
      forall j | 0 <= j < z.uindex + 1 ensures j in z.free { assert !LiveIn(z, j); }
      Filled(z.free, z.uindex + 1);
    }
    if z.nfree == z.nmax {
      forall j | 0 <= j <= z.uindex ensures j in z.free {
        if j !in z.free {
          Pigeon(z.free + [j], z.uindex + 1);
          assert false;
        }
      }
    }
  }

  lemma NewZoneOk(n: nat, zoneSize: nat)
    requires 0 < n < 16384 && 0x8000 <= zoneSize && ZoneIndex(n).1 * 4 <= zoneSize
    ensures ZoneIndex(n).1 > 0 && ZoneOk(NewZone(ZoneIndex(n).0, ZoneIndex(n).1, zoneSize), zoneSize)
    ensures forall j :: LiveIn(NewZone(ZoneIndex(n).0, ZoneIndex(n).1, zoneSize), j) <==> j == 0
    ensures var z := NewZone(ZoneIndex(n).0, ZoneIndex(n).1, zoneSize);
      && z.chunk == ZoneIndex(n).1 && zoneSize < z.base + (z.nmax + 1) * z.chunk
      && z.base < HEADER + if IsPow2(z.chunk) then z.chunk else 8
  {
    ZoneIndexSound(n);
    var c := ZoneIndex(n).1;
    var base := BaseOf(c);
    RoundToBounds(HEADER, c);
    RoundToBounds(HEADER, 8);
    var nmax := (zoneSize - base) / c;
    assert base < HEADER + c || base < HEADER + 8;
    NmaxBound(zoneSize - base, c);
  }

  lemma NmaxBound(room: nat, c: nat)
    requires c > 0 && room >= 2 * c
    ensures room / c >= 2 && room / c * c <= room < (room / c + 1) * c
  {
    assert room == room / c * c + room % c;
    assert (room / c + 1) * c == room / c * c + c;
  }

  // ----- addresses -----

  /** Address of chunk j of the zone at page p. */
  function ChunkAddr(p: int, z: Zone, j: int): int {
    p * PAGE + z.base + j * z.chunk
  }

  lemma {:induction false} Spread(i: int, j: int, c: nat)
    requires i < j
    ensures i * c + c <= j * c
    decreases j - i
  {
    assert j * c == (j - 1) * c + c;
    if i < j - 1 { Spread(i, j - 1, c); }
  }

  /** Chunks lie behind the header, inside the zone, and apart. */
  lemma ChunksApart(p: int, z: Zone, zoneSize: nat, i: int, j: int)
    requires ZoneOk(z, zoneSize) && LiveIn(z, i) && LiveIn(z, j)
    ensures p * PAGE + HEADER <= ChunkAddr(p, z, i) && ChunkAddr(p, z, i) + z.chunk <= p * PAGE + zoneSize
    ensures i < j ==> ChunkAddr(p, z, i) + z.chunk <= ChunkAddr(p, z, j)
  {
    Spread(i, z.nmax, z.chunk);
    if i > 0 { Spread(0, i, z.chunk); }
    if i < j { Spread(i, j, z.chunk); }
  }

  lemma AddMultiple(a: int, q: int, c: nat)
    requires c > 0
    ensures (a + q * c) % c == a % c
  {
    var b := a / c;
    assert a == b * c + a % c;
    assert a + q * c == (b + q) * c + a % c;
    ModUnique(a + q * c, b + q, a % c, c);
  }

  lemma ModUnique(v: int, q: int, r: int, c: nat)
    requires c > 0 && v == q * c + r && 0 <= r < c
    ensures v % c == r && v / c == q
  {
    var a := v / c;
    assert v == a * c + v % c;
    if a < q { Spread(a, q, c); }
    if q < a { Spread(q, a, c); }
  }

  predicate Divides(n: nat, x: int) {
    n > 0 && x % n == 0
  }

  /** A chunk of a power-of-two size is aligned to its size exactly when the start
      of its zone is. */
  lemma AlignedExact(p: int, z: Zone, zoneSize: nat, j: int)
    requires ZoneOk(z, zoneSize) && IsPow2(z.chunk)
    ensures Divides(z.chunk, ChunkAddr(p, z, j)) <==> Divides(z.chunk, p * PAGE)
  {
    hide IsPow2;
    RoundToBounds(HEADER, z.chunk);
    var q := z.base / z.chunk;
    assert z.base == q * z.chunk;
    AddMultiple(p * PAGE, q, z.chunk);
    AddMultiple(p * PAGE + q * z.chunk, j, z.chunk);
  }

  lemma {:induction false} Pow2Divides(c: nat, b: nat)
    requires IsPow2(c) && IsPow2(b) && c <= b
    ensures b % c == 0
    decreases b
  {
    if c > 1 {
      Pow2Divides(c / 2, b / 2);
      assert b == 2 * (b / 2) && c == 2 * (c / 2);
      var h, d := b / 2, c / 2;
      assert h == h / d * d;
      ModUnique(b, h / d, 0, c);
    }
  }

  /** What divides a page divides every page boundary. */
  lemma PageBoundary(p: int, c: nat)
    requires Divides(c, PAGE)
    ensures Divides(c, p * PAGE)
  {
    var q := PAGE / c;
    assert PAGE == q * c;
    assert p * PAGE == (p * q) * c;
    ModUnique(p * PAGE, p * q, 0, c);
  }

  lemma Pow2OfPage(c: nat)
    requires IsPow2(c) && c <= PAGE
    ensures Divides(c, PAGE)
  {
    assert IsPow2(4096) by { assert IsPow2(64) by { assert IsPow2(8); } assert IsPow2(512); }
    Pow2Divides(c, PAGE);
  }

  /** Chunks of a power-of-two size up to a page are naturally aligned. */
  lemma NaturallyAligned(p: int, z: Zone, zoneSize: nat, j: int)
    requires ZoneOk(z, zoneSize) && IsPow2(z.chunk) && z.chunk <= PAGE
    ensures Divides(z.chunk, ChunkAddr(p, z, j))
  {
    hide Divides, ChunkAddr, IsPow2;
    Pow2OfPage(z.chunk);
    PageBoundary(p, z.chunk);
    AlignedExact(p, z, zoneSize, j);
  }

  lemma RoundToSelf(n: nat, k: nat)
    requires k > 0 && n % k == 0
    ensures RoundTo(n, k) == n
  {
    assert n == n / k * k;
    ModUnique(n + k - 1, n / k, k - 1, k);
  }

  /** A power-of-two request gets a chunk of just its size, or of 8 bytes. */
  lemma Pow2Chunk(n: nat)
    requires IsPow2(n) && n < 16384
    ensures ZoneIndex(n).1 == if n < 8 then 8 else n
  {
    hide IsPow2, RoundTo;
    Pow2Grains();
    var k := Class(n).0;
    if n >= 8 {
      Pow2Divides(k, n);
      RoundToSelf(n, k);
    } else {
      Pow2Positive(n);
      RoundToBounds(n, 8);
    }
  }

  lemma Pow2Positive(n: int)
    requires IsPow2(n)
    ensures n > 0
  {
  }

  lemma Pow2Grains()
    ensures IsPow2(8) && IsPow2(16) && IsPow2(32) && IsPow2(64) && IsPow2(128) && IsPow2(256) && IsPow2(512) && IsPow2(1024)
  {
    assert IsPow2(8);
    assert IsPow2(32);
    assert IsPow2(128);
    assert IsPow2(512);
  }

  /** Small requests for a power of two, with heap_start on any page boundary: the
      result is aligned to the request exactly when the start of its zone is, and
      up to a page it always is. */
  lemma SmallAligned(start: int, p: int, z: Zone, zoneSize: nat, j: int, n: nat)
    requires ZoneOk(z, zoneSize) && IsPow2(n) && n < 16384 && z.chunk == ZoneIndex(n).1 && start % PAGE == 0
    ensures Divides(n, start + ChunkAddr(p, z, j)) <==> Divides(n, start + p * PAGE)
    ensures n <= PAGE ==> Divides(n, start + ChunkAddr(p, z, j))
  {
    hide ZoneOk, ChunkAddr, ZoneIndex, IsPow2, Divides;
    Pow2Chunk(n);
    Pow2Positive(n);
    var p1 := start / PAGE + p;
    PageShift(start, p, z, j);
    if n < 8 {
      Pow2Grains();
      NaturallyAligned(p1, z, zoneSize, j);
      AlignedExact(p1, z, zoneSize, j);
      DividesEight(ChunkAddr(p1, z, j), n);
      DividesEight(p1 * PAGE, n);
    } else {
      AlignedExact(p1, z, zoneSize, j);
      if n <= PAGE { NaturallyAligned(p1, z, zoneSize, j); }
    }
  }

  lemma PageShift(start: int, p: int, z: Zone, j: int)
    requires start % PAGE == 0
    ensures start + ChunkAddr(p, z, j) == ChunkAddr(start / PAGE + p, z, j)
    ensures start + p * PAGE == (start / PAGE + p) * PAGE
  {
  }

  lemma DividesEight(x: int, n: nat)
    requires Divides(8, x) && IsPow2(n) && n < 8
    ensures Divides(n, x)
  {
    hide IsPow2;
    Pow2Below8(n);
    var q := x / 8;
    assert x == 8 * q;
    if n == 1 { ModUnique(x, 8 * q, 0, 1); }
    if n == 2 { ModUnique(x, 4 * q, 0, 2); }
    if n == 4 { ModUnique(x, 2 * q, 0, 4); }
  }

  lemma Pow2Below8(n: nat)
    requires IsPow2(n) && n < 8
    ensures n == 1 || n == 2 || n == 4
  {
    assert IsPow2(3) ==> 3 % 2 == 0;
    assert IsPow2(6) ==> IsPow2(3);
  }
}
