/** Every operation of the slab heap keeps its invariant. */
module SlabOps {
  import opened Words
  import opened PageRuns
  import opened SlabZone
  import opened Slab

  // ----- bookkeeping of the allocations -----

  function Gone(live: seq<Alloc>, a: Alloc): seq<Alloc> {
    if live == [] then [] else if live[0] == a then live[1..] else [live[0]] + Gone(live[1..], a)
  }

  lemma {:induction false} GoneIn(live: seq<Alloc>, a: Alloc)
    requires NoDup(live) && a in live
    ensures NoDup(Gone(live, a)) && (forall x :: x in Gone(live, a) <==> x in live && x != a)
    ensures Total(Gone(live, a)) == Total(live) - Bytes(a)
  {
    assert live == [live[0]] + live[1..];
    assert live[0] !in live[1..];
    if live[0] != a {
      GoneIn(live[1..], a);
      assert ([live[0]] + Gone(live[1..], a))[1..] == Gone(live[1..], a);
    }
  }

  lemma {:induction false} TotalAppend(live: seq<Alloc>, a: Alloc)
    ensures Total(live + [a]) == Total(live) + Bytes(a)
  {
    if live == [] {
      assert live + [a] == [a] && [a][1..] == [];
    } else {
      assert (live + [a])[1..] == live[1..] + [a];
      TotalAppend(live[1..], a);
    }
  }

  lemma OnceAppend(live: seq<Alloc>, a: Alloc)
    requires NoDup(live) && a !in live
    ensures NoDup(live + [a]) && forall x :: x in live + [a] <==> x in live || x == a
  {
  }

  // ----- changes of one zone -----

  /** Zone p becomes z; its place in the lists changes to match, and nothing else
      does. */
  lemma ListsChange(zones: map<int, Zone>, arr: seq<seq<int>>, zfree: seq<int>, p: int, z: Zone,
                    arr1: seq<seq<int>>, zfree1: seq<int>)
    requires ListsOk(zones, arr, zfree) && |arr1| == 72 && NoDupInts(zfree1) && |zfree1| <= 2
    requires forall zi :: 0 <= zi < 72 ==> NoDupInts(arr1[zi])
    requires forall q, zi :: q != p && 0 <= zi < 72 ==> (q in arr1[zi] <==> q in arr[zi])
    requires forall q :: q != p ==> (q in zfree1 <==> q in zfree)
    requires forall zi :: 0 <= zi < 72 ==> (p in arr1[zi] <==> !z.retired && z.zi == zi && z.nfree > 0)
    requires p in zfree1 <==> z.retired
    ensures ListsOk(zones[p := z], arr1, zfree1)
  {
    hide NoDupInts;
    var zones1 := zones[p := z];
    forall q, zi | 0 <= zi < 72 ensures q in arr1[zi] <==> OnList(zones1, q, zi) {
      if q != p { assert q in arr[zi] <==> OnList(zones, q, zi); }
    }
    forall q ensures q in zfree1 <==> Retired(zones1, q) {
      if q != p { assert q in zfree <==> Retired(zones, q); }
    }
  }

  lemma DistinctTail(s: seq<int>)
    requires s != [] && NoDupInts(s)
    ensures NoDupInts(s[1..]) && s[0] !in s[1..] && forall x :: x in s <==> x == s[0] || x in s[1..]
  {
  }

  lemma DistinctPush(s: seq<int>, x: int)
    requires NoDupInts(s) && x !in s
    ensures NoDupInts([x] + s) && forall y :: y in [x] + s <==> y == x || y in s
  {
  }

  /** The zone in front of its list gives one chunk, and leaves when it was the
      last. */
  lemma TakeLists(zones: map<int, Zone>, arr: seq<seq<int>>, zfree: seq<int>, zi: int)
    requires ListsOk(zones, arr, zfree) && 0 <= zi < 72 && arr[zi] != []
    ensures var p := arr[zi][0];
      && p in zones && !zones[p].retired && zones[p].nfree > 0 && zones[p].zi == zi
      && ListsOk(zones[p := TakeChunk(zones[p])], if zones[p].nfree == 1 then arr[zi := arr[zi][1..]] else arr, zfree)
  {
    var p := arr[zi][0];
    assert p in arr[zi];
    assert OnList(zones, p, zi);
    DistinctTail(arr[zi]);
    var z := TakeChunk(zones[p]);
    var arr1 := if zones[p].nfree == 1 then arr[zi := arr[zi][1..]] else arr;
    forall q | 0 <= q < 72 ensures p in arr1[q] <==> !z.retired && z.zi == q && z.nfree > 0 {
      assert p in arr[q] <==> OnList(zones, p, q);
    }
    assert p in zfree <==> Retired(zones, p);
    hide NoDupInts;
    ListsChange(zones, arr, zfree, p, z, arr1, zfree);
  }

  /** A zone that is on no list goes to the front of list zi. */
  lemma OpenLists(zones: map<int, Zone>, arr: seq<seq<int>>, zfree: seq<int>, zfree1: seq<int>, p: int, z: Zone)
    requires ListsOk(zones, arr, zfree) && 0 <= z.zi < 72 && !z.retired && z.nfree > 0
    requires if p in zones then zfree != [] && p == zfree[0] && zfree1 == zfree[1..] else zfree1 == zfree
    ensures ListsOk(zones[p := z], arr[z.zi := [p] + arr[z.zi]], zfree1)
  {
    var arr1 := arr[z.zi := [p] + arr[z.zi]];
    if p in zones {
      DistinctTail(zfree);
      assert p in zfree && Retired(zones, p);
    } else {
      assert p in zfree <==> Retired(zones, p);
    }
    forall q | 0 <= q < 72 ensures p !in arr[q] { assert p in arr[q] <==> OnList(zones, p, q); }
    DistinctPush(arr[z.zi], p);
    hide NoDupInts;
    ListsChange(zones, arr, zfree, p, z, arr1, zfree1);
  }

  /** The lists after one chunk of zone p is returned. */
  lemma ReturnLists(zones: map<int, Zone>, arr: seq<seq<int>>, zfree: seq<int>, p: int, j: int)
    requires ListsOk(zones, arr, zfree) && p in zones && !zones[p].retired && 0 <= zones[p].zi < 72 && zones[p].nfree >= 0
    ensures var z := zones[p];
      ListsOk(zones[p := ReturnChunk(z, j)], if z.nfree == 0 then arr[z.zi := [p] + arr[z.zi]] else arr, zfree)
  {
    var z, z1 := zones[p], ReturnChunk(zones[p], j);
    var arr1 := if z.nfree == 0 then arr[z.zi := [p] + arr[z.zi]] else arr;
    assert p in arr[z.zi] <==> OnList(zones, p, z.zi);
    if z.nfree == 0 { DistinctPush(arr[z.zi], p); }
    forall q | 0 <= q < 72 ensures p in arr1[q] <==> !z1.retired && z1.zi == q && z1.nfree > 0 {
      assert p in arr[q] <==> OnList(zones, p, q);
    }
    assert p in zfree <==> Retired(zones, p);
    hide NoDupInts;
    ListsChange(zones, arr, zfree, p, z1, arr1, zfree);
  }

  /** s without p. */
  function Minus(s: seq<int>, p: int): seq<int> {
    if s == [] then [] else if s[0] == p then s[1..] else [s[0]] + Minus(s[1..], p)
  }

  lemma {:induction false} MinusIn(s: seq<int>, p: int)
    requires NoDupInts(s)
    ensures NoDupInts(Minus(s, p)) && forall x :: x in Minus(s, p) <==> x in s && x != p
  {
    if s != [] {
      DistinctTail(s);
      if s[0] != p {
        MinusIn(s[1..], p);
        DistinctPush(Minus(s[1..], p), s[0]);
      }
    }
  }

  /** A whole free zone moves from its list to zone_free. */
  lemma RetireLists(zones: map<int, Zone>, arr: seq<seq<int>>, zfree: seq<int>, p: int)
    requires ListsOk(zones, arr, zfree) && p in zones && !zones[p].retired && 0 <= zones[p].zi < 72 && |zfree| < 2
    ensures var z := zones[p];
      ListsOk(zones[p := z.(retired := true)], arr[z.zi := Minus(arr[z.zi], p)], [p] + zfree)
  {
    var z := zones[p];
    MinusIn(arr[z.zi], p);
    assert p in zfree <==> Retired(zones, p);
    DistinctPush(zfree, p);
    var arr1 := arr[z.zi := Minus(arr[z.zi], p)];
    forall q | 0 <= q < 72 ensures p !in arr1[q] { assert p in arr[q] <==> OnList(zones, p, q); }
    hide NoDupInts;
    ListsChange(zones, arr, zfree, p, z.(retired := true), arr1, [p] + zfree);
  }

  /** A whole free zone leaves the heap. */
  lemma DropLists(zones: map<int, Zone>, arr: seq<seq<int>>, zfree: seq<int>, p: int)
    requires ListsOk(zones, arr, zfree) && p in zones && !zones[p].retired && 0 <= zones[p].zi < 72
    ensures ListsOk(zones - {p}, arr[zones[p].zi := Minus(arr[zones[p].zi], p)], zfree)
  {
    var z, zones1 := zones[p], zones - {p};
    MinusIn(arr[z.zi], p);
    var arr1 := arr[z.zi := Minus(arr[z.zi], p)];
    hide NoDupInts;
    forall q, zi | 0 <= zi < 72 ensures q in arr1[zi] <==> OnList(zones1, q, zi) {
      assert q in arr[zi] <==> OnList(zones, q, zi);
    }
    forall q ensures q in zfree <==> Retired(zones1, q) { assert q in zfree <==> Retired(zones, q); }
  }

  // ----- the heap -----

  /** Pages that keep owner and memusage keep their zones and large blocks. */
  ghost predicate KeepsOthers(pg: Pages, pg1: Pages, at: int, n: int) {
    && |pg1.owner| == |pg.owner| && |pg1.usage| == |pg.usage|
    && (forall x :: 0 <= x < |pg.owner| && !(at <= x < at + n) ==> pg1.owner[x] == pg.owner[x])
    && (forall x :: 0 <= x < |pg.usage| && !(at <= x < at + n) ==> pg1.usage[x] == pg.usage[x])
  }

  lemma ZonesKept(pg: Pages, pg1: Pages, at: int, n: int, zones: map<int, Zone>, c: Conf)
    requires ZonesOk(pg, zones, c) && KeepsOthers(pg, pg1, at, n) && 0 <= at && n > 0 && at + n <= |pg.owner|
    requires forall x, p :: at <= x < at + n && p in zones ==> pg.owner[x] != InZone(p)
    ensures ZonesOk(pg1, zones, c)
  {
    forall p | p in zones ensures ZoneHome(pg1, p, c.pages) {
      assert ZoneHome(pg, p, c.pages);
      forall x | p <= x < p + c.pages ensures pg1.owner[x] == pg.owner[x] && pg1.usage[x] == pg.usage[x] {
        assert pg.owner[x] == InZone(p);
      }
    }
  }

  lemma LargeKept(pg: Pages, pg1: Pages, at: int, n: int, q: int, m: int)
    requires LargeHome(pg, q, m) && KeepsOthers(pg, pg1, at, n)
    requires forall x :: at <= x < at + n && 0 <= x < |pg.owner| ==> pg.owner[x] != InLarge(q)
    ensures LargeHome(pg1, q, m)
  {
    forall x | q <= x < q + m ensures pg1.owner[x] == pg.owner[x] && pg1.usage[x] == pg.usage[x] {
      assert pg.owner[x] == InLarge(q);
    }
  }

  /** rt_malloc from the first zone of list zi. */
  function TookSmall(h: Heap, zi: int): Heap
    requires 0 <= zi < |h.arr| && h.arr[zi] != [] && h.arr[zi][0] in h.zones
  {
    var p := h.arr[zi][0];
    var z := h.zones[p];
    h.(zones := h.zones[p := TakeChunk(z)], arr := if z.nfree == 1 then h.arr[zi := h.arr[zi][1..]] else h.arr,
       live := h.live + [Small(p, TakenChunk(z), z.chunk)], used := h.used + z.chunk)
  }

  lemma TookSmallInv(h: Heap, c: Conf, zi: int)
    requires Inv(h, c) && 0 <= zi < 72 && h.arr[zi] != []
    ensures h.arr[zi][0] in h.zones && h.zones[h.arr[zi][0]].zi == zi && h.zones[h.arr[zi][0]].chunk == ChunkOf(zi)
    ensures Inv(TookSmall(h, zi), c)
  {
    TakeLists(h.zones, h.arr, h.zfree, zi);
    var p := h.arr[zi][0];
    var z := h.zones[p];
    TakeChunkOk(z, c.zoneSize);
    var a, r := Small(p, TakenChunk(z), z.chunk), TookSmall(h, zi);
    assert !LiveChunk(h.zones, a.p, a.j, a.size);
    OnceAppend(h.live, a);
    TotalAppend(h.live, a);
    SmallChanges(h.pg, h.zones, h.live, p, TakeChunk(z), r.live);
    hide PagesOk, ListsOk, ZoneOk, LiveOk, TakeChunk;
  }

  /** The live list follows a change of zone p. */
  lemma SmallChanges(pg: Pages, zones: map<int, Zone>, live: seq<Alloc>, p: int, z: Zone, live1: seq<Alloc>)
    requires LiveOk(pg, zones, live) && NoDup(live1)
    requires forall q, n :: Large(q, n) in live1 ==> Large(q, n) in live
    requires forall q, j, size :: q != p ==> (Small(q, j, size) in live1 <==> Small(q, j, size) in live)
    requires forall j, size :: Small(p, j, size) in live1 <==> LiveChunk(zones[p := z], p, j, size)
    ensures LiveOk(pg, zones[p := z], live1)
  {
    hide NoDup;
    forall q, j, size ensures Small(q, j, size) in live1 <==> LiveChunk(zones[p := z], q, j, size) {
      if q != p { assert LiveChunk(zones[p := z], q, j, size) <==> LiveChunk(zones, q, j, size); }
    }
  }

  /** Zone p opens for list z.zi and gives its first chunk. */
  function Opened(h: Heap, pg: Pages, p: int, z: Zone, zfree: seq<int>): Heap
    requires 0 <= z.zi < |h.arr|
  {
    h.(pg := pg, zones := h.zones[p := z], arr := h.arr[z.zi := [p] + h.arr[z.zi]], zfree := zfree,
       live := h.live + [Small(p, 0, z.chunk)], used := h.used + z.chunk)
  }

  lemma OpenedInv(h: Heap, c: Conf, pg: Pages, p: int, z: Zone, zfree: seq<int>)
    requires Inv(h, c) && PagesOk(pg) && ZonesOk(pg, h.zones, c) && ZoneHome(pg, p, c.pages)
    requires forall q, n :: Large(q, n) in h.live ==> LargeHome(pg, q, n)
    requires ZoneOk(z, c.zoneSize) && !z.retired && z.nfree > 0 && forall j :: LiveIn(z, j) <==> j == 0
    requires if p in h.zones then h.zones[p].retired && h.zfree != [] && p == h.zfree[0] && zfree == h.zfree[1..] else zfree == h.zfree
    ensures Inv(Opened(h, pg, p, z, zfree), c)
  {
    OpenLists(h.zones, h.arr, h.zfree, zfree, p, z);
    var a, r := Small(p, 0, z.chunk), Opened(h, pg, p, z, zfree);
    assert !LiveChunk(h.zones, a.p, a.j, a.size);
    OnceAppend(h.live, a);
    TotalAppend(h.live, a);
    forall j, size ensures Small(p, j, size) in r.live <==> LiveChunk(r.zones, p, j, size) {
      assert Small(p, j, size) in h.live <==> LiveChunk(h.zones, p, j, size);
    }
    SmallChanges(pg, h.zones, h.live, p, z, r.live);
    hide PagesOk, ListsOk, ZoneOk, LiveOk, ZoneHome;
  }

  /** Pages taken for a new zone. */
  function ZonePages(pg: Pages, i: nat, n: nat): Pages
    requires i < |pg.runs|
  {
    var p := pg.runs[i].at;
    Pages(Taken(pg.runs, i, n), MarkSmall(pg.usage, p, n), Assign(pg.owner, p, n, InZone(p)))
  }

  lemma ZonePagesOk(h: Heap, c: Conf, i: nat)
    requires Inv(h, c) && c.pages > 0 && i < |h.pg.runs| && c.pages <= h.pg.runs[i].n
    ensures var p := h.pg.runs[i].at; var pg := ZonePages(h.pg, i, c.pages);
      && p !in h.zones && PagesOk(pg) && ZonesOk(pg, h.zones, c) && ZoneHome(pg, p, c.pages)
      && (forall q, n :: Large(q, n) in h.live ==> LargeHome(pg, q, n))
  {
    var p, pg := h.pg.runs[i].at, ZonePages(h.pg, i, c.pages);
    TakePagesOk(h.pg, i, c.pages, InZone(p));
    hide Canon, Free, Taken;
    assert h.pg.owner[p] == FreePage;
    assert p in h.zones ==> ZoneHome(h.pg, p, c.pages);
    ZonesKept(h.pg, pg, p, c.pages, h.zones, c);
    forall q, n | Large(q, n) in h.live ensures LargeHome(pg, q, n) { LargeKept(h.pg, pg, p, c.pages, q, n); }
  }

  /** rt_malloc of n whole pages. */
  function TookLarge(h: Heap, i: nat, n: nat): Heap
    requires i < |h.pg.runs| && 0 <= h.pg.runs[i].at < |h.pg.usage|
  {
    var q := h.pg.runs[i].at;
    h.(pg := Pages(Taken(h.pg.runs, i, n), h.pg.usage[q := Usage(LARGE, n)], Assign(h.pg.owner, q, n, InLarge(q))),
       live := h.live + [Large(q, n)], used := h.used + n * PAGE)
  }

  lemma TookLargeInv(h: Heap, c: Conf, i: nat, n: nat)
    requires Inv(h, c) && i < |h.pg.runs| && 0 < n <= h.pg.runs[i].n
    ensures 0 <= h.pg.runs[i].at < |h.pg.usage| && Inv(TookLarge(h, i, n), c)
  {
    var q := h.pg.runs[i].at;
    TakePagesOk(h.pg, i, n, InLarge(q));
    hide Canon, Free, Taken;
    var r := TookLarge(h, i, n);
    assert h.pg.owner[q] == FreePage;
    ZonesKept(h.pg, r.pg, q, n, h.zones, c);
    assert Large(q, n) in h.live ==> LargeHome(h.pg, q, n);
    OnceAppend(h.live, Large(q, n));
    TotalAppend(h.live, Large(q, n));
    forall q1, n1 | Large(q1, n1) in r.live ensures LargeHome(r.pg, q1, n1) {
      if Large(q1, n1) in h.live { LargeKept(h.pg, r.pg, q, n, q1, n1); }
    }
    assert PagesOk(r.pg);
    hide PagesOk, ListsOk, ZonesOk, LargeHome;
  }

  /** rt_free of a large block; its memusage entry keeps the type. */
  function FreedLarge(h: Heap, q: int, n: int): Heap
    requires 0 <= q < |h.pg.usage|
  {
    h.(pg := Pages(Freed(h.pg.runs, q, n), h.pg.usage[q := h.pg.usage[q].(size := 0)], Assign(h.pg.owner, q, n, FreePage)),
       live := Gone(h.live, Large(q, n)), used := h.used - n * PAGE)
  }

  lemma FreedLargeInv(h: Heap, c: Conf, q: int, n: int)
    requires Inv(h, c) && Large(q, n) in h.live
    ensures 0 <= q < |h.pg.usage| && Inv(FreedLarge(h, q, n), c)
  {
    assert LargeHome(h.pg, q, n);
    FreePagesOk(h.pg, q, n);
    GoneIn(h.live, Large(q, n));
    hide Canon, Free, Freed, Gone;
    var r := FreedLarge(h, q, n);
    assert PagesOk(r.pg);
    ZonesKept(h.pg, r.pg, q, n, h.zones, c);
    forall q1, n1 | Large(q1, n1) in r.live ensures LargeHome(r.pg, q1, n1) {
      assert LargeHome(h.pg, q1, n1);
      assert q1 != q;
      LargeKept(h.pg, r.pg, q, n, q1, n1);
    }
    hide PagesOk, ListsOk, ZonesOk, LargeHome;
  }

  /** rt_free of chunk j of zone p, before the whole zone is considered. */
  function Returned(h: Heap, p: int, j: int): Heap
    requires p in h.zones && 0 <= h.zones[p].zi < |h.arr|
  {
    var z := h.zones[p];
    h.(zones := h.zones[p := ReturnChunk(z, j)],
       arr := if z.nfree == 0 then h.arr[z.zi := [p] + h.arr[z.zi]] else h.arr,
       live := Gone(h.live, Small(p, j, z.chunk)), used := h.used - z.chunk)
  }

  lemma ReturnedInv(h: Heap, c: Conf, p: int, j: int)
    requires Inv(h, c) && p in h.zones && Small(p, j, h.zones[p].chunk) in h.live
    ensures 0 <= h.zones[p].zi < 72 && Inv(Returned(h, p, j), c)
  {
    var z := h.zones[p];
    assert LiveChunk(h.zones, p, j, z.chunk);
    WholeZoneFree(z, c.zoneSize);
    ReturnChunkOk(z, j, c.zoneSize);
    ReturnLists(h.zones, h.arr, h.zfree, p, j);
    ReturnedLive(h, c, p, j);
    hide PagesOk, ListsOk, ZoneOk, LiveOk, Gone, ReturnChunk;
  }

  lemma ReturnedLive(h: Heap, c: Conf, p: int, j: int)
    requires Inv(h, c) && p in h.zones && Small(p, j, h.zones[p].chunk) in h.live && 0 <= h.zones[p].zi < |h.arr|
    ensures var r := Returned(h, p, j); LiveOk(h.pg, r.zones, r.live) && r.used == Total(r.live)
  {
    hide PagesOk, ListsOk, NoDup, Gone, LargeHome, ZoneHome;
    var z := h.zones[p];
    assert LiveChunk(h.zones, p, j, z.chunk);
    ReturnChunkOk(z, j, c.zoneSize);
    LiveOnce(h.pg, h.zones, h.live);
    GoneIn(h.live, Small(p, j, z.chunk));
    var r := Returned(h, p, j);
    forall i, size ensures Small(p, i, size) in r.live <==> LiveChunk(r.zones, p, i, size) {
      assert Small(p, i, size) in h.live <==> LiveChunk(h.zones, p, i, size);
    }
    SmallChanges(h.pg, h.zones, h.live, p, ReturnChunk(z, j), r.live);
  }

  lemma LiveOnce(pg: Pages, zones: map<int, Zone>, live: seq<Alloc>)
    requires LiveOk(pg, zones, live)
    ensures NoDup(live)
  {
  }

  /** A zone with no live chunk moves to zone_free. */
  function RetiredZone(h: Heap, p: int): Heap
    requires p in h.zones && 0 <= h.zones[p].zi < |h.arr|
  {
    var z := h.zones[p];
    h.(zones := h.zones[p := z.(retired := true)], arr := h.arr[z.zi := Minus(h.arr[z.zi], p)], zfree := [p] + h.zfree)
  }

  lemma RetiredZoneInv(h: Heap, c: Conf, p: int)
    requires Inv(h, c) && p in h.zones && !h.zones[p].retired && h.zones[p].nfree == h.zones[p].nmax && |h.zfree| < 2
    ensures 0 <= h.zones[p].zi < 72 && Inv(RetiredZone(h, p), c)
  {
    var z := h.zones[p];
    WholeZoneFree(z, c.zoneSize);
    RetireLists(h.zones, h.arr, h.zfree, p);
    forall j, size ensures Small(p, j, size) in h.live <==> LiveChunk(RetiredZone(h, p).zones, p, j, size) {
      assert Small(p, j, size) in h.live <==> LiveChunk(h.zones, p, j, size);
    }
    SmallChanges(h.pg, h.zones, h.live, p, z.(retired := true), h.live);
    hide PagesOk, ListsOk, ZoneOk, LiveOk, Minus;
  }

  /** A zone with no live chunk goes back to the page allocator. */
  function Dropped(h: Heap, c: Conf, p: int): Heap
    requires p in h.zones && 0 <= h.zones[p].zi < |h.arr|
  {
    var z := h.zones[p];
    h.(pg := Pages(Freed(h.pg.runs, p, c.pages), MarkFree(h.pg.usage, p, c.pages), Assign(h.pg.owner, p, c.pages, FreePage)),
       zones := h.zones - {p}, arr := h.arr[z.zi := Minus(h.arr[z.zi], p)])
  }

  lemma DroppedInv(h: Heap, c: Conf, p: int)
    requires Inv(h, c) && c.pages > 0 && p in h.zones && !h.zones[p].retired && h.zones[p].nfree == h.zones[p].nmax
    ensures 0 <= h.zones[p].zi < 72 && Inv(Dropped(h, c, p), c)
  {
    var z := h.zones[p];
    WholeZoneFree(z, c.zoneSize);
    DropLists(h.zones, h.arr, h.zfree, p);
    DroppedPages(h, c, p);
    var r := Dropped(h, c, p);
    forall q, j, size ensures Small(q, j, size) in h.live <==> LiveChunk(r.zones, q, j, size) {
      assert Small(q, j, size) in h.live <==> LiveChunk(h.zones, q, j, size);
    }
    hide PagesOk, ListsOk, ZonesOk, LargeHome, NoDup, Minus, Freed;
  }

  lemma DroppedPages(h: Heap, c: Conf, p: int)
    requires Inv(h, c) && c.pages > 0 && p in h.zones && 0 <= h.zones[p].zi < |h.arr|
    ensures var r := Dropped(h, c, p);
      PagesOk(r.pg) && ZonesOk(r.pg, r.zones, c) && forall q, n :: Large(q, n) in h.live ==> LargeHome(r.pg, q, n)
  {
    assert ZoneHome(h.pg, p, c.pages);
    FreePagesOk(h.pg, p, c.pages);
    hide Canon, Free, Freed;
    var r := Dropped(h, c, p);
    assert ZonesOk(h.pg, r.zones, c);
    ZonesKept(h.pg, r.pg, p, c.pages, r.zones, c);
    forall q, n | Large(q, n) in h.live ensures LargeHome(r.pg, q, n) { LargeKept(h.pg, r.pg, p, c.pages, q, n); }
  }

  /** rt_free of chunk j of zone p. A zone that is free as a whole and not the only
      one on its list is retired, or dropped when two are retired already. */
  function GaveBack(h: Heap, c: Conf, p: int, j: int): Heap
    requires p in h.zones && 0 <= h.zones[p].zi < |h.arr|
  {
    var r := Returned(h, p, j);
    var z := r.zones[p];
    if z.nfree != z.nmax || |r.arr[z.zi]| <= 1 then r
    else if |r.zfree| < 2 then RetiredZone(r, p)
    else Dropped(r, c, p)
  }
}
