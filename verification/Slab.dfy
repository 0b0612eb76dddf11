/** The slab heap: zones of chunks on top of the page allocator. Pages are numbered
    from heap_start, and every page has one owner. */
module Slab {
  import opened Words
  import opened PageRuns
  import opened SlabZone

  datatype Own = FreePage | Table | InZone(p: int) | InLarge(q: int)

  datatype Kind = FREE | SMALL | LARGE

  /** struct memusage. */
  datatype Usage = Usage(kind: Kind, size: int)

  /** The free runs, the memusage array, and who owns each page. */
  datatype Pages = Pages(runs: seq<Run>, usage: seq<Usage>, owner: seq<Own>)

  /** An allocation: chunk j of the zone at page p, or n whole pages from q on. */
  datatype Alloc = Small(p: int, j: int, size: int) | Large(q: int, n: int)

  /** zone_array and zone_free as sequences of zone pages. `live` are the
      allocations, in the order they were made. */
  datatype Heap = Heap(pg: Pages, zones: map<int, Zone>, arr: seq<seq<int>>, zfree: seq<int>, live: seq<Alloc>, used: int)

  /** zone_size, in bytes and pages, and zone_limit. */
  datatype Conf = Conf(zoneSize: nat, pages: nat, limit: nat)

  /** What rt_system_heap_init can choose. */
  predicate ConfOk(c: Conf) {
    && (c.zoneSize == 0x8000 || c.zoneSize == 0x1_0000 || c.zoneSize == 0x2_0000)
    && c.pages == c.zoneSize / PAGE
    && c.limit == (if c.zoneSize / 4 > 0x4000 then 0x4000 else c.zoneSize / 4)
  }

  // ----- pages -----

  function Assign(owner: seq<Own>, at: int, n: int, o: Own): (r: seq<Own>)
    ensures |r| == |owner|
  {
    seq(|owner|, x requires 0 <= x < |owner| => if at <= x < at + n then o else owner[x])
  }

  function MarkSmall(usage: seq<Usage>, at: int, n: int): (r: seq<Usage>)
    ensures |r| == |usage|
  {
    seq(|usage|, x requires 0 <= x < |usage| => if at <= x < at + n then Usage(SMALL, x - at) else usage[x])
  }

  function MarkFree(usage: seq<Usage>, at: int, n: int): (r: seq<Usage>)
    ensures |r| == |usage|
  {
    seq(|usage|, x requires 0 <= x < |usage| => if at <= x < at + n then Usage(FREE, 0) else usage[x])
  }

  ghost predicate PagesOk(pg: Pages) {
    && Canon(pg.runs, -1) && |pg.usage| == |pg.owner|
    && forall x :: Free(pg.runs, x) <==> 0 <= x < |pg.owner| && pg.owner[x] == FreePage
  }

  lemma TakePagesOk(pg: Pages, i: nat, n: int, o: Own)
    requires PagesOk(pg) && i < |pg.runs| && 0 < n <= pg.runs[i].n && o != FreePage
    ensures var at := pg.runs[i].at;
      && 0 <= at && at + n <= |pg.owner|
      && (forall x :: at <= x < at + n ==> pg.owner[x] == FreePage)
      && PagesOk(pg.(runs := Taken(pg.runs, i, n), owner := Assign(pg.owner, at, n, o)))
  {
    TakenMeaning(pg.runs, -1, i, n);
    var at := pg.runs[i].at;
    assert Free(pg.runs, at) && Free(pg.runs, at + n - 1);
    hide Canon, Free, Taken;
  }

  lemma FreePagesOk(pg: Pages, at: int, n: int)
    requires PagesOk(pg) && 0 <= at && n > 0 && at + n <= |pg.owner|
    requires forall x :: at <= x < at + n ==> pg.owner[x] != FreePage
    ensures PagesOk(pg.(runs := Freed(pg.runs, at, n), owner := Assign(pg.owner, at, n, FreePage)))
  {
    FreedMeaning(pg.runs, -1, at, n);
  }

  /** The zone at page p owns its pages, and memusage leads from each of them
      back to p. */
  ghost predicate ZoneHome(pg: Pages, p: int, n: int) {
    && 0 <= p && p + n <= |pg.owner| == |pg.usage|
    && forall x :: p <= x < p + n ==> pg.owner[x] == InZone(p) && pg.usage[x] == Usage(SMALL, x - p)
  }

  ghost predicate LargeHome(pg: Pages, q: int, n: int) {
    && 0 <= q && n > 0 && q + n <= |pg.owner| == |pg.usage| && pg.usage[q] == Usage(LARGE, n)
    && forall x :: q <= x < q + n ==> pg.owner[x] == InLarge(q)
  }

  // ----- invariants -----

  predicate OnList(zones: map<int, Zone>, p: int, zi: int) {
    p in zones && !zones[p].retired && zones[p].zi == zi && zones[p].nfree > 0
  }

  predicate Retired(zones: map<int, Zone>, p: int) {
    p in zones && zones[p].retired
  }

  /** A zone is on the zone_array list of its index exactly when it has free
      chunks and is not retired; retired zones are on zone_free. */
  ghost predicate ListsOk(zones: map<int, Zone>, arr: seq<seq<int>>, zfree: seq<int>) {
    && |arr| == 72 && NoDupInts(zfree) && |zfree| <= 2
    && (forall zi :: 0 <= zi < 72 ==> NoDupInts(arr[zi]))
    && (forall p, zi :: 0 <= zi < 72 ==> (p in arr[zi] <==> OnList(zones, p, zi)))
    && (forall p :: p in zfree <==> Retired(zones, p))
  }

  ghost predicate ZonesOk(pg: Pages, zones: map<int, Zone>, c: Conf) {
    forall p :: p in zones ==> ZoneHome(pg, p, c.pages) && (!zones[p].retired ==> ZoneOk(zones[p], c.zoneSize))
  }

  predicate LiveChunk(zones: map<int, Zone>, p: int, j: int, size: int) {
    p in zones && !zones[p].retired && LiveIn(zones[p], j) && size == zones[p].chunk
  }

  ghost predicate LiveOk(pg: Pages, zones: map<int, Zone>, live: seq<Alloc>) {
    && NoDup(live)
    && (forall p, j, size :: Small(p, j, size) in live <==> LiveChunk(zones, p, j, size))
    && (forall q, n :: Large(q, n) in live ==> LargeHome(pg, q, n))
  }

  function Bytes(a: Alloc): int {
    if a.Small? then a.size else a.n * PAGE
  }

  function Total(live: seq<Alloc>): int {
    if live == [] then 0 else Bytes(live[0]) + Total(live[1..])
  }

  ghost predicate Inv(h: Heap, c: Conf) {
    && PagesOk(h.pg) && ListsOk(h.zones, h.arr, h.zfree) && ZonesOk(h.pg, h.zones, c)
    && LiveOk(h.pg, h.zones, h.live) && h.used == Total(h.live)
  }

  // ----- what the invariant says about allocations -----

  function Addr(zones: map<int, Zone>, a: Alloc): int
    requires a.Small? ==> a.p in zones
  {
    if a.Small? then ChunkAddr(a.p, zones[a.p], a.j) else a.q * PAGE
  }

  /** The pages an allocation lies in have one owner. */
  lemma Extent(h: Heap, c: Conf, a: Alloc, b: int)
    requires Inv(h, c) && ConfOk(c) && a in h.live && (a.Small? ==> a.p in h.zones)
    requires Addr(h.zones, a) <= b < Addr(h.zones, a) + Bytes(a)
    ensures 0 <= b / PAGE < |h.pg.owner|
    ensures h.pg.owner[b / PAGE] == (if a.Small? then InZone(a.p) else InLarge(a.q))
  {
    hide Inv, ZoneOk, LiveIn;
    Sizes(h, c, a);
    if a.Small? {
      ChunksApart(a.p, h.zones[a.p], c.zoneSize, a.j, a.j);
      PageOf(a.p, c.pages, b);
    } else {
      PageOf(a.q, a.n, b);
    }
  }

  lemma PageOf(p: int, n: int, b: int)
    requires p * PAGE <= b < p * PAGE + n * PAGE
    ensures p <= b / PAGE < p + n
  {
  }

  /** Live allocations do not overlap. */
  lemma LiveApart(h: Heap, c: Conf, a: Alloc, b: Alloc)
    requires Inv(h, c) && ConfOk(c) && a in h.live && b in h.live && a != b
    requires (a.Small? ==> a.p in h.zones) && (b.Small? ==> b.p in h.zones)
    ensures Addr(h.zones, a) + Bytes(a) <= Addr(h.zones, b) || Addr(h.zones, b) + Bytes(b) <= Addr(h.zones, a)
  {
    if Addr(h.zones, a) + Bytes(a) > Addr(h.zones, b) && Addr(h.zones, b) + Bytes(b) > Addr(h.zones, a) {
      var x := if Addr(h.zones, a) > Addr(h.zones, b) then Addr(h.zones, a) else Addr(h.zones, b);
      Sizes(h, c, a);
      Sizes(h, c, b);
      Extent(h, c, a, x);
      Extent(h, c, b, x);
      SameOwner(h, c, a, b);
    }
  }

  lemma Sizes(h: Heap, c: Conf, a: Alloc)
    requires Inv(h, c) && a in h.live
    ensures Bytes(a) > 0
    ensures a.Small? ==> LiveChunk(h.zones, a.p, a.j, a.size) && ZoneOk(h.zones[a.p], c.zoneSize) && ZoneHome(h.pg, a.p, c.pages)
    ensures a.Large? ==> LargeHome(h.pg, a.q, a.n)
  {
    if a.Small? {
      assert a == Small(a.p, a.j, a.size);
    } else {
      assert a == Large(a.q, a.n);
    }
  }

  /** Two allocations in the same zone are different chunks; in the same pages
      they are the same. */
  lemma SameOwner(h: Heap, c: Conf, a: Alloc, b: Alloc)
    requires Inv(h, c) && a in h.live && b in h.live && a != b
    requires if a.Small? then b.Small? && a.p == b.p && a.p in h.zones else b.Large? && a.q == b.q
    ensures Addr(h.zones, a) + Bytes(a) <= Addr(h.zones, b) || Addr(h.zones, b) + Bytes(b) <= Addr(h.zones, a)
  {
    Sizes(h, c, a);
    Sizes(h, c, b);
    if a.Small? {
      if a.j < b.j { ChunksApart(a.p, h.zones[a.p], c.zoneSize, a.j, b.j); }
      if b.j < a.j { ChunksApart(a.p, h.zones[a.p], c.zoneSize, b.j, a.j); }
    }
  }

  /** The lookup of rt_free: what memusage says about a pointer. */
  datatype Found = FoundLarge(n: int) | FoundZone(p: int)

  function Lookup(pg: Pages, ptr: int): Found
    requires 0 <= ptr / PAGE < |pg.usage|
  {
    var u := pg.usage[ptr / PAGE];
    if u.kind == LARGE then FoundLarge(u.size) else FoundZone(ptr / PAGE - u.size)
  }

  /** memusage recovers the owning zone of every live chunk, and the length of
      every large allocation. */
  lemma LookupFinds(h: Heap, c: Conf, a: Alloc)
    requires Inv(h, c) && ConfOk(c) && a in h.live && (a.Small? ==> a.p in h.zones)
    ensures 0 <= Addr(h.zones, a) / PAGE < |h.pg.usage|
    ensures Lookup(h.pg, Addr(h.zones, a)) == if a.Small? then FoundZone(a.p) else FoundLarge(a.n)
  {
    hide Inv, ZoneOk, LiveIn;
    Sizes(h, c, a);
    var ptr := Addr(h.zones, a);
    Extent(h, c, a, ptr);
    if a.Small? {
      ChunksApart(a.p, h.zones[a.p], c.zoneSize, a.j, a.j);
      PageOf(a.p, c.pages, ptr);
    }
  }
}
