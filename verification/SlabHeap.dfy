/** rt_malloc and rt_free of the slab allocator. */
module SlabHeap {
  import opened Words
  import opened PageRuns
  import PageList
  import opened SlabZone
  import opened Slab
  import opened SlabOps

  /** A result: RT_NULL, or an address relative to heap_start. */
  datatype Ptr = Null | Ptr(addr: int)

  /** memset of the free pages' entries, as the release loop does it. */
  method ClearUsage(usage: seq<Usage>, p: int, n: nat) returns (r: seq<Usage>)
    requires 0 <= p && p + n <= |usage|
    ensures r == MarkFree(usage, p, n)
  {
    r := usage;
    for i := 0 to n
      invariant r == MarkFree(usage, p, i)
    {
      r := r[p + i := Usage(FREE, 0)];
    }
  }

  method FillUsage(usage: seq<Usage>, p: int, n: nat) returns (r: seq<Usage>)
    requires 0 <= p && p + n <= |usage|
    ensures r == MarkSmall(usage, p, n)
  {
    r := usage;
    for off := 0 to n
      invariant r == MarkSmall(usage, p, off)
    {
      r := r[p + off := Usage(SMALL, off)];
    }
  }

  /** Minus passes over the elements in front of the first p. */
  lemma {:induction false} MinusAt(list: seq<int>, p: int, i: nat)
    requires i < |list| && list[i] == p && p !in list[..i]
    ensures Minus(list, p) == list[..i] + list[i + 1..]
    decreases i
  {
    if i > 0 {
      assert list[0] == list[..i][0];
      assert list[1..][..i - 1] == list[..i][1..] && list[1..][i..] == list[i + 1..];
      MinusAt(list[1..], p, i - 1);
      assert list[..i] == [list[0]] + list[1..][..i - 1];
    }
  }

  /** The unlinking loop of rt_free. */
  method Unlink(list: seq<int>, p: int) returns (r: seq<int>)
    requires p in list
    ensures r == Minus(list, p)
  {
    hide Minus;
    var i := 0;
    while list[i] != p
      invariant 0 <= i < |list| && p !in list[..i]
      decreases |list| - i
    {
      assert list[..i + 1] == list[..i] + [list[i]];
      assert list == list[..i + 1] + list[i + 1..];
      i := i + 1;
    }
    MinusAt(list, p, i);
    r := list[..i] + list[i + 1..];
  }

  /** RT_ALIGN to pages in 32-bit arithmetic, as a number of pages. */
  function PagesFor(size: nat): nat {
    (size + PAGE - 1) % TWO32 / PAGE
  }

  /** A size is rounded up, or wraps to no pages at all. */
  lemma PagesExact(size: nat)
    requires 0 < size < TWO32
    ensures size <= PagesFor(size) * PAGE < size + PAGE || PagesFor(size) == 0
    ensures PagesFor(size) == 0 <==> size > TWO32 - PAGE
  {
  }

  /** The largest of the three zone sizes that the number of KiB exceeds, or the
      smallest of them. */
  function ZoneSize(kib: nat): nat {
    if kib > 0x2_0000 then 0x2_0000 else if kib > 0x1_0000 then 0x1_0000 else 0x8000
  }

  /** The doubling loop of rt_system_heap_init. */
  method FindZoneSize(kib: nat) returns (size: nat)
    ensures size == ZoneSize(kib)
  {
    size := 0x8000;
    while size < 0x2_0000 && size * 2 < kib
      invariant size == 0x8000 || (size == 0x1_0000 && kib > size) || (size == 0x2_0000 && kib > size)
      decreases 0x2_0000 - size
    {
      size := size * 2;
    }
  }

  /** The pages that are left when the first t have gone to the memusage array. */
  function LeftOver(npages: nat, t: nat): seq<Run> {
    if t < npages then [Run(t, npages - t)] else []
  }

  lemma InitPages(npages: nat, t: nat)
    requires 0 < t <= npages
    ensures Canon(LeftOver(npages, t), -1) && forall x :: Free(LeftOver(npages, t), x) <==> t <= x < npages
  {
    var runs := LeftOver(npages, t);
    assert runs != [] ==> runs[1..] == [];
    forall x ensures Free(runs, x) <==> t <= x < npages {}
  }

  lemma TableTaken(npages: nat, t: nat)
    requires 0 < t <= npages
    ensures FirstFit([Run(0, npages)], t) == 0 && Taken([Run(0, npages)], 0, t) == LeftOver(npages, t)
  {
  }

  lemma TablePages(npages: nat)
    requires 0 < npages && npages * PAGE < TWO32
    ensures 0 < PagesFor(npages * 4) <= npages
  {
  }

  /** What a request of `size` bytes is answered with: a chunk of its size class
      below zone_limit, whole pages from there on. */
  predicate Serves(c: Conf, size: nat, a: Alloc) {
    if size < c.limit then a.Small? && a.size == ZoneIndex(size).1 else a.Large? && a.n == PagesFor(size)
  }

  /** First page of the zone or block an allocation lies in. */
  function Home(a: Alloc): int {
    if a.Small? then a.p else a.q
  }

  /** Of power-of-two requests of any size, with heap_start on any page boundary:
      up to a page the result is aligned to the request; beyond that exactly when
      the zone or block starts at an aligned address. */
  lemma RequestAligned(h: Heap, c: Conf, a: Alloc, size: nat, start: int)
    requires Inv(h, c) && ConfOk(c) && a in h.live && Serves(c, size, a) && IsPow2(size) && start % PAGE == 0
    ensures a.Small? ==> a.p in h.zones
    ensures Divides(size, start + Addr(h.zones, a)) <==> Divides(size, start + Home(a) * PAGE)
    ensures size <= PAGE ==> Divides(size, start + Addr(h.zones, a))
  {
    hide Inv, ZoneOk, ZoneHome, LargeHome, ChunkAddr, ZoneIndex, IsPow2, Divides;
    Sizes(h, c, a);
    if a.Small? { SmallAligned(start, a.p, h.zones[a.p], c.zoneSize, a.j, size); }
  }

  /** A page, or none. */
  datatype Page = NoPage | Page(p: int)

  /** Where rt_page_alloc will take n pages from. */
  function FromRuns(runs: seq<Run>, n: nat): Page {
    if n == 0 || FirstFit(runs, n) == |runs| then NoPage else Page(runs[FirstFit(runs, n)].at)
  }

  /** Which zone or block the answer to a request will lie in, known before the
      call: the first run that is long enough; for a small request the first zone
      of its size class, else the first retired zone, else such a run. */
  function Source(h: Heap, c: Conf, size: nat): Page {
    if size == 0 then NoPage
    else if size >= c.limit then FromRuns(h.pg.runs, PagesFor(size))
    else
      var zi := ZoneIndex(size).0;
      if 0 <= zi < |h.arr| && h.arr[zi] != [] then Page(h.arr[zi][0])
      else if h.zfree != [] then Page(h.zfree[0])
      else FromRuns(h.pg.runs, c.pages)
  }

  predicate AlignedAt(start: int, addr: int, size: nat) {
    Divides(size, start + addr)
  }

  /** With heap_start on any page boundary, an address is aligned to a size exactly
      when page p is, and up to a page always. */
  ghost predicate AlignedFrom(addr: int, p: int, size: nat) {
    forall start :: start % PAGE == 0 ==>
      && (AlignedAt(start, addr, size) <==> AlignedAt(start, p * PAGE, size))
      && (size <= PAGE ==> AlignedAt(start, addr, size))
  }

  lemma AnyStart(h: Heap, c: Conf, a: Alloc, size: nat)
    requires Inv(h, c) && ConfOk(c) && a in h.live && Serves(c, size, a) && IsPow2(size)
    ensures a.Small? ==> a.p in h.zones
    ensures AlignedFrom(Addr(h.zones, a), Home(a), size)
  {
    hide Inv, IsPow2, Divides, Serves, Addr;
    RequestAligned(h, c, a, size, 0);
    forall start | start % PAGE == 0 ensures
      && (AlignedAt(start, Addr(h.zones, a), size) <==> AlignedAt(start, Home(a) * PAGE, size))
      && (size <= PAGE ==> AlignedAt(start, Addr(h.zones, a), size))
    {
      RequestAligned(h, c, a, size, start);
    }
  }

  class SlabHeap {
    const c: Conf
    const pages: PageList.PageList
    var usage: seq<Usage>
    var zones: map<int, Zone>
    var arr: seq<seq<int>>
    var zfree: seq<int>
    var used: int
    var maxUsed: int
    ghost var owner: seq<Own>
    ghost var live: seq<Alloc>

    ghost function Now(): Heap
      reads this, pages
    {
      Heap(Pages(pages.runs, usage, owner), zones, arr, zfree, live, used)
    }

    ghost predicate Valid()
      reads this, pages
    {
      pages.Valid() && ConfOk(c) && Inv(Now(), c) && used <= maxUsed
    }

    /** rt_system_heap_init over npages pages: all pages are free, then the first
        ones go to the memusage array. */
    constructor (npages: nat, raw: seq<Usage>)
      requires |raw| == npages && 0 < npages && npages * PAGE < TWO32
      ensures Valid() && fresh(pages) && live == [] && used == maxUsed == 0 && |usage| == npages
      ensures c.zoneSize == ZoneSize(npages * 4) && pages.runs == LeftOver(npages, PagesFor(npages * 4))
    {
      var size := FindZoneSize(npages * 4);
      c := Conf(size, size / PAGE, if size / 4 > 0x4000 then 0x4000 else size / 4);
      var t := PagesFor(npages * 4);
      TablePages(npages);
      pages := new PageList.PageList(0, npages);
      usage, owner := raw, seq(npages, x => if x < t then Table else FreePage);
      zones, arr, zfree, used, maxUsed, live := map[], seq(72, _ => []), [], 0, 0, [];
      new;
      var table := pages.Alloc(t);
      TableTaken(npages, t);
      InitPages(npages, t);
    }

    method Count(bytes: int)
      modifies this`used, this`maxUsed
      ensures used == old(used) + bytes && maxUsed == Max(old(maxUsed), used)
    {
      used := used + bytes;
      if used > maxUsed { maxUsed := used; }
    }

    /** rt_malloc. A result is a new live allocation of at least the size asked
        for; RT_NULL leaves everything as it was. */
    method Malloc(size: nat) returns (r: Ptr, ghost a: Alloc)
      requires Valid() && size < TWO32
      modifies this, pages
      ensures Valid() && maxUsed == if r.Null? then old(maxUsed) else Max(old(maxUsed), used)
      ensures r.Null? ==> Now() == old(Now())
      ensures r.Ptr? ==> live == old(live) + [a] && (a.Small? ==> a.p in zones) && r.addr == Addr(zones, a) && Bytes(a) >= size > 0
      ensures r.Ptr? ==> Serves(c, size, a)
      ensures Source(old(Now()), c, size) == if r.Null? then NoPage else Page(Home(a))
      ensures r.Ptr? && IsPow2(size) ==> AlignedFrom(r.addr, Source(old(Now()), c, size).p, size)
      ensures r.Null? && size >= c.limit ==> size > TWO32 - PAGE || forall x :: x in pages.runs ==> x.n < PagesFor(size)
      ensures r.Null? && 0 < size < c.limit ==>
        && |arr| == 72 && 0 <= ZoneIndex(size).0 < 72 && arr[ZoneIndex(size).0] == []
        && zfree == [] && forall x :: x in pages.runs ==> x.n < c.pages
    {
      hide Inv, ZoneIndex, AlignedFrom, IsPow2, ListsOk, PagesFor, ChunkOf;
      a := Large(0, 0);
      if size == 0 { return Null, a; }
      if size >= c.limit {
        r, a := MallocLarge(size);
      } else {
        ZoneIndexSound(size);
        var zi := ZoneIndex(size).0;
        InvLists(Now(), c);
        if arr[zi] != [] {
          r, a := TakeExisting(zi);
        } else {
          r, a := OpenZone(size);
        }
      }
      if r.Ptr? && IsPow2(size) { AnyStart(Now(), c, a, size); }
    }

    method MallocLarge(size: nat) returns (r: Ptr, ghost a: Alloc)
      requires Valid() && 0 < size < TWO32
      modifies this, pages
      ensures Valid() && maxUsed == if r.Null? then old(maxUsed) else Max(old(maxUsed), used)
      ensures r.Null? ==> Now() == old(Now()) && (size > TWO32 - PAGE || forall x :: x in pages.runs ==> x.n < PagesFor(size))
      ensures r.Ptr? ==> live == old(live) + [a] && a.Large? && r.addr == Addr(zones, a) && Bytes(a) >= size
      ensures r.Ptr? ==> a.n == PagesFor(size) > 0
      ensures FromRuns(old(pages.runs), PagesFor(size)) == if r.Null? then NoPage else Page(a.q)
      ensures r.Ptr? ==> var k := FirstFit(old(pages.runs), a.n);
        k < |old(pages.runs)| && 0 <= a.q < |old(usage)| && Now() == TookLarge(old(Now()), k, a.n)
    {
      hide Inv, PagesFor;
      a := Large(0, 0);
      PagesExact(size);
      var n := PagesFor(size);
      ghost var k := FirstFit(pages.runs, n);
      if n > 0 && k < |pages.runs| { TookLargeInv(Now(), c, k, n); }
      var b := pages.Alloc(n);
      if b.Null? { return Null, a; }
      var q := b.page;
      a := Large(q, n);
      owner := Assign(owner, q, n, InLarge(q));
      usage := usage[q := Usage(LARGE, n)];
      live := live + [a];
      Count(n * PAGE);
      r := Ptr(q * PAGE);
    }

    /** A zone with free chunks exists: take one of its chunks. */
    method TakeExisting(zi: int) returns (r: Ptr, ghost a: Alloc)
      requires Valid() && 0 <= zi < 72 && |arr| == 72 && arr[zi] != []
      modifies this
      ensures Valid() && r.Ptr? && live == old(live) + [a] && a.Small? && a.p in zones && r.addr == Addr(zones, a)
      ensures a.p == old(arr[zi][0]) && maxUsed == Max(old(maxUsed), used)
      ensures a.size == ChunkOf(zi) && old(arr[zi][0] in zones) && Now() == TookSmall(old(Now()), zi)
    {
      hide Inv, ListsOk, ChunkOf;
      InvLists(Now(), c);
      TookSmallInv(Now(), c, zi);
      TakeLists(zones, arr, zfree, zi);
      var p := arr[zi][0];
      var z := zones[p];
      TakenOne(Now(), c, p);
      var j;
      var z1 := z.(nfree := z.nfree - 1);
      if z1.nfree == 0 { arr := arr[zi := arr[zi][1..]]; }
      if z.uindex + 1 != z.nmax {
        z1 := z1.(uindex := z1.uindex + 1);
        j := z1.uindex;
      } else {
        j := z1.free[0];
        z1 := z1.(free := z1.free[1..]);
      }
      zones := zones[p := z1];
      a := Small(p, j, z.chunk);
      live := live + [a];
      Count(z.chunk);
      r := Ptr(ChunkAddr(p, z1, j));
    }

    /** No zone has free chunks: reuse a retired zone or take new pages. */
    method OpenZone(size: nat) returns (r: Ptr, ghost a: Alloc)
      requires Valid() && 0 < size < c.limit
      modifies this, pages
      ensures Valid() && maxUsed == if r.Null? then old(maxUsed) else Max(old(maxUsed), used)
      ensures r.Null? ==> Now() == old(Now()) && zfree == [] && forall x :: x in pages.runs ==> x.n < c.pages
      ensures r.Ptr? ==> live == old(live) + [a] && a.Small? && a.p in zones && r.addr == Addr(zones, a) && a.size >= size
      ensures r.Ptr? ==> a.size == ZoneIndex(size).1
      ensures r.Ptr? ==> var zi := ZoneIndex(size).0;
        0 <= zi < |old(arr)| && arr == old(arr)[zi := [a.p] + old(arr)[zi]]
      ensures old(zfree) != [] ==> r.Ptr? && a.p == old(zfree[0]) && zfree == old(zfree[1..]) && pages.runs == old(pages.runs)
      ensures old(zfree) == [] ==> FromRuns(old(pages.runs), c.pages) == if r.Null? then NoPage else Page(a.p)
      ensures r.Ptr? && old(zfree) == [] ==> var k := FirstFit(old(pages.runs), c.pages);
        k < |old(pages.runs)| && pages.runs == Taken(old(pages.runs), k, c.pages)
    {
      hide Inv, ZoneOk, ZoneIndex, NewZone, LiveIn, ListsOk, Assign, MarkSmall;
      OpenReady(c, size);
      var zi, chunk := ZoneIndex(size).0, ZoneIndex(size).1;
      var z := NewZone(zi, chunk, c.zoneSize);
      a := Large(0, 0);
      InvLists(Now(), c);
      if zfree != [] {
        var p := zfree[0];
        ReuseInv(Now(), c, z);
        zfree := zfree[1..];
        Open(p, z);
        return Ptr(ChunkAddr(p, z, 0)), Small(p, 0, z.chunk);
      }
      ghost var k := FirstFit(pages.runs, c.pages);
      if k < |pages.runs| { FreshInv(Now(), c, k, z); }
      var b := pages.Alloc(c.pages);
      if b.Null? { return Null, a; }
      var p := b.page;
      usage := FillUsage(usage, p, c.pages);
      owner := Assign(owner, p, c.pages, InZone(p));
      Open(p, z);
      return Ptr(ChunkAddr(p, z, 0)), Small(p, 0, z.chunk);
    }

    /** Links the new zone and hands out its first chunk. */
    method Open(p: int, z: Zone)
      requires 0 <= z.zi < |arr|
      modifies this`zones, this`arr, this`live, this`used, this`maxUsed
      ensures Now() == Opened(old(Now()), old(Now()).pg, p, z, zfree) && maxUsed == Max(old(maxUsed), used)
    {
      zones := zones[p := z];
      arr := arr[z.zi := [p] + arr[z.zi]];
      live := live + [Small(p, 0, z.chunk)];
      Count(z.chunk);
    }

    /** rt_free of RT_NULL or of the address of live allocation a. */
    method FreePtr(ptr: Ptr, ghost a: Alloc)
      requires Valid() && (ptr.Ptr? ==> a in live && (a.Small? ==> a.p in zones) && ptr.addr == Addr(zones, a))
      modifies this, pages
      ensures Valid() && maxUsed == old(maxUsed) && live == (if ptr.Null? then old(live) else Gone(old(live), a))
      ensures ptr.Null? ==> Now() == old(Now())
      ensures ptr.Ptr? && a.Large? ==> 0 <= a.q < |old(usage)| && Now() == FreedLarge(old(Now()), a.q, a.n)
      ensures ptr.Ptr? && a.Small? ==> 0 <= old(zones[a.p].zi) < |old(arr)| && Now() == GaveBack(old(Now()), c, a.p, a.j)
    {
      if ptr.Null? { return; }
      LookupFinds(Now(), c, a);
      Sizes(Now(), c, a);
      var u := usage[ptr.addr / PAGE];
      if u.kind == LARGE {
        ReleaseLarge(ptr.addr / PAGE, u.size);
      } else {
        var p := ptr.addr / PAGE - u.size;
        IndexOf(p, zones[p], c.zoneSize, a.j);
        ReleaseChunk(p, (ptr.addr - p * PAGE - zones[p].base) / zones[p].chunk);
      }
    }

    method ReleaseLarge(q: int, n: int)
      requires Valid() && Large(q, n) in live
      modifies this, pages
      ensures Valid() && maxUsed == old(maxUsed) && 0 <= q < |old(usage)| && Now() == FreedLarge(old(Now()), q, n)
      ensures pages.runs == Freed(old(pages.runs), q, n) && |usage| == |old(usage)| && usage[q].size == 0
    {
      hide Inv, Gone, Freed;
      FreedLargeInv(Now(), c, q, n);
      LargeApart(Now(), c, q, n);
      usage := usage[q := usage[q].(size := 0)];
      used := used - n * PAGE;
      pages.Release(q, n);
      owner := Assign(owner, q, n, FreePage);
      live := Gone(live, Large(q, n));
    }

    /** Puts chunk j back; a zone that is free as a whole is retired, or given
        back to the page allocator when two are retired already. */
    method ReleaseChunk(p: int, j: int)
      requires Valid() && p in zones && Small(p, j, zones[p].chunk) in live
      modifies this, pages
      ensures Valid() && maxUsed == old(maxUsed) && 0 <= old(zones[p].zi) < |old(arr)| && Now() == GaveBack(old(Now()), c, p, j)
      ensures var z := old(zones[p]); var whole := z.nfree + 1 == z.nmax && old(arr[z.zi]) != [] && old(arr[z.zi]) != [p];
        && (!whole ==> p in zones && !zones[p].retired && zfree == old(zfree) && pages.runs == old(pages.runs))
        && (whole && |old(zfree)| < 2 ==> p in zones && zones[p].retired && zfree == [p] + old(zfree) && pages.runs == old(pages.runs))
        && (whole && |old(zfree)| >= 2 ==> p !in zones && zfree == old(zfree) && pages.runs == Freed(old(pages.runs), p, c.pages))
    {
      hide Inv, Returned, RetiredZone, Dropped, Freed;
      PutChunk(p, j);
      ReturnedZone(old(Now()), c, p, j);
      BackMeaning(old(Now()), c, p, j);
      InvLists(Now(), c);
      var z := zones[p];
      if z.nfree == z.nmax && |arr[z.zi]| > 1 {
        if |zfree| < 2 { RetireZone(p); } else { DropZone(p); }
      }
    }

    method PutChunk(p: int, j: int)
      requires Valid() && p in zones && Small(p, j, zones[p].chunk) in live
      modifies this`zones, this`arr, this`live, this`used
      ensures Valid() && 0 <= old(zones[p].zi) < |old(arr)| && Now() == Returned(old(Now()), p, j)
      ensures p in zones && zones[p].free == [j] + old(zones[p].free) && zones[p].nfree == old(zones[p].nfree) + 1
      ensures arr == if old(zones[p].nfree) == 0 then old(arr)[zones[p].zi := [p] + old(arr)[zones[p].zi]] else old(arr)
    {
      hide Inv, Gone;
      ReturnedInv(Now(), c, p, j);
      InvLists(Now(), c);
      ZonePositive(Now(), c, p, j);
      var z := zones[p];
      live := Gone(live, Small(p, j, z.chunk));
      used := used - z.chunk;
      if z.nfree == 0 { arr := arr[z.zi := [p] + arr[z.zi]]; }
      zones := zones[p := z.(free := [j] + z.free, nfree := z.nfree + 1)];
    }

    method RetireZone(p: int)
      requires Valid() && p in zones && !zones[p].retired && zones[p].nfree == zones[p].nmax > 0 && |zfree| < 2
      modifies this`zones, this`arr, this`zfree
      ensures Valid() && 0 <= old(zones[p].zi) < |old(arr)| && Now() == RetiredZone(old(Now()), p)
    {
      hide Inv, Minus, ListsOk;
      RetiredZoneInv(Now(), c, p);
      InvLists(Now(), c);
      ListedZone(Now(), c, p);
      var z := zones[p];
      var rest := Unlink(arr[z.zi], p);
      arr := arr[z.zi := rest];
      zones := zones[p := z.(retired := true)];
      zfree := [p] + zfree;
    }

    method DropZone(p: int)
      requires Valid() && p in zones && !zones[p].retired && zones[p].nfree == zones[p].nmax > 0
      modifies this`zones, this`arr, this`usage, this`owner, pages
      ensures Valid() && 0 <= old(zones[p].zi) < |old(arr)| && Now() == Dropped(old(Now()), c, p)
    {
      hide Inv, Minus, ListsOk, Freed;
      DroppedInv(Now(), c, p);
      InvLists(Now(), c);
      ListedZone(Now(), c, p);
      HomeApart(Now(), c, p);
      var z := zones[p];
      var rest := Unlink(arr[z.zi], p);
      arr := arr[z.zi := rest];
      zones := zones - {p};
      usage := ClearUsage(usage, p, c.pages);
      pages.Release(p, c.pages);
      owner := Assign(owner, p, c.pages, FreePage);
    }
  }

  /** The rule for whole free zones, on the heap before the call. */
  lemma BackMeaning(h: Heap, c: Conf, p: int, j: int)
    requires Inv(h, c) && p in h.zones && Small(p, j, h.zones[p].chunk) in h.live
    ensures |h.arr| == 72 && 0 <= h.zones[p].zi < 72
    ensures var z, r := h.zones[p], GaveBack(h, c, p, j);
      var whole := z.nfree + 1 == z.nmax && h.arr[z.zi] != [] && h.arr[z.zi] != [p];
      && (!whole ==> p in r.zones && !r.zones[p].retired && r.zfree == h.zfree && r.pg.runs == h.pg.runs)
      && (whole && |h.zfree| < 2 ==> p in r.zones && r.zones[p].retired && r.zfree == [p] + h.zfree && r.pg.runs == h.pg.runs)
      && (whole && |h.zfree| >= 2 ==> p !in r.zones && r.zfree == h.zfree && r.pg.runs == Freed(h.pg.runs, p, c.pages))
  {
    hide Inv, Gone, Freed, Minus, MarkFree, Assign;
    InvLists(h, c);
    ReturnedInv(h, c, p, j);
    ZonePositive(h, c, p, j);
    AloneOrNot(h, c, p, j);
  }

  /** After the chunk is back, its zone is alone on its list exactly when the list
      held nothing else before. */
  lemma AloneOrNot(h: Heap, c: Conf, p: int, j: int)
    requires Inv(h, c) && p in h.zones && Small(p, j, h.zones[p].chunk) in h.live && |h.arr| == 72 && 0 <= h.zones[p].zi < 72
    ensures var z := h.zones[p];
      |Returned(h, p, j).arr[z.zi]| > 1 <==> h.arr[z.zi] != [] && h.arr[z.zi] != [p]
  {
    hide Inv, Gone;
    var z := h.zones[p];
    ZonePositive(h, c, p, j);
    if z.nfree == 0 {
      NotListed(h, c, p);
    } else {
      ListedZone(h, c, p);
    }
  }

  lemma NotListed(h: Heap, c: Conf, p: int)
    requires Inv(h, c) && p in h.zones && h.zones[p].nfree == 0 && |h.arr| == 72 && 0 <= h.zones[p].zi < 72
    ensures h.arr[h.zones[p].zi] != [p]
  {
    assert !OnList(h.zones, p, h.zones[p].zi);
    assert p in [p];
  }

  lemma ReturnedZone(h: Heap, c: Conf, p: int, j: int)
    requires Inv(h, c) && p in h.zones && Small(p, j, h.zones[p].chunk) in h.live
    ensures |h.arr| == 72 && 0 <= h.zones[p].zi < 72
    ensures var r := Returned(h, p, j);
      p in r.zones && !r.zones[p].retired && r.zones[p].nfree > 0 && r.zones[p].zi == h.zones[p].zi && r.zfree == h.zfree
  {
    hide Inv, Gone;
    InvLists(h, c);
    ReturnedInv(h, c, p, j);
    ZonePositive(h, c, p, j);
  }

  lemma OpenReady(c: Conf, size: nat)
    requires ConfOk(c) && 0 < size < c.limit
    ensures size <= ZoneIndex(size).1 && c.pages > 0
    ensures var z := NewZone(ZoneIndex(size).0, ZoneIndex(size).1, c.zoneSize);
      && ZoneOk(z, c.zoneSize) && !z.retired && z.nfree > 0 && 0 <= z.zi < 72 && z.zi == ZoneIndex(size).0 && z.chunk == ZoneIndex(size).1
      && forall j :: LiveIn(z, j) <==> j == 0
  {
    ZoneIndexSound(size);
    NewZoneOk(size, c.zoneSize);
  }

  lemma InvLists(h: Heap, c: Conf)
    requires Inv(h, c)
    ensures |h.arr| == 72 && ListsOk(h.zones, h.arr, h.zfree) && |h.zfree| <= 2
  {
  }

  lemma TakenOne(h: Heap, c: Conf, p: int)
    requires Inv(h, c) && p in h.zones && !h.zones[p].retired && h.zones[p].nfree > 0
    ensures h.zones[p].uindex + 1 == h.zones[p].nmax ==> h.zones[p].free != []
    ensures h.zones[p].chunk == ChunkOf(h.zones[p].zi) && h.zones[p].chunk > 0
  {
  }

  lemma ReuseInv(h: Heap, c: Conf, z: Zone)
    requires Inv(h, c) && h.zfree != [] && ZoneOk(z, c.zoneSize) && !z.retired && z.nfree > 0
    requires forall j :: LiveIn(z, j) <==> j == 0
    ensures |h.arr| == 72 && Inv(Opened(h, h.pg, h.zfree[0], z, h.zfree[1..]), c)
  {
    var p := h.zfree[0];
    assert p in h.zfree;
    assert Retired(h.zones, p);
    OpenedInv(h, c, h.pg, p, z, h.zfree[1..]);
  }

  lemma FreshInv(h: Heap, c: Conf, i: nat, z: Zone)
    requires Inv(h, c) && c.pages > 0 && i < |h.pg.runs| && c.pages <= h.pg.runs[i].n
    requires ZoneOk(z, c.zoneSize) && !z.retired && z.nfree > 0 && forall j :: LiveIn(z, j) <==> j == 0
    ensures |h.arr| == 72 && Inv(Opened(h, ZonePages(h.pg, i, c.pages), h.pg.runs[i].at, z, h.zfree), c)
    ensures 0 <= h.pg.runs[i].at && h.pg.runs[i].at + c.pages <= |h.pg.usage|
  {
    ZonePagesOk(h, c, i);
    OpenedInv(h, c, ZonePages(h.pg, i, c.pages), h.pg.runs[i].at, z, h.zfree);
  }

  /** The chunk number is recovered from the address. */
  lemma IndexOf(p: int, z: Zone, zoneSize: nat, j: int)
    requires ZoneOk(z, zoneSize)
    ensures (ChunkAddr(p, z, j) - p * PAGE - z.base) / z.chunk == j
  {
    ModUnique(j * z.chunk, j, 0, z.chunk);
  }

  lemma LargeApart(h: Heap, c: Conf, q: int, n: int)
    requires Inv(h, c) && Large(q, n) in h.live
    ensures q >= 0 && n > 0 && Apart(h.pg.runs, q, n)
  {
    assert LargeHome(h.pg, q, n);
    hide Canon, Free;
  }

  lemma ZonePositive(h: Heap, c: Conf, p: int, j: int)
    requires Inv(h, c) && p in h.zones && Small(p, j, h.zones[p].chunk) in h.live
    ensures h.zones[p].chunk > 0 && h.zones[p].nfree >= 0 && !h.zones[p].retired
  {
    assert LiveChunk(h.zones, p, j, h.zones[p].chunk);
    WholeZoneFree(h.zones[p], c.zoneSize);
  }

  lemma ListedZone(h: Heap, c: Conf, p: int)
    requires Inv(h, c) && p in h.zones && !h.zones[p].retired && h.zones[p].nfree > 0
    ensures 0 <= h.zones[p].zi < 72 && p in h.arr[h.zones[p].zi]
  {
    assert OnList(h.zones, p, h.zones[p].zi);
  }

  lemma HomeApart(h: Heap, c: Conf, p: int)
    requires Inv(h, c) && p in h.zones
    ensures 0 <= p && p + c.pages <= |h.pg.usage| && Apart(h.pg.runs, p, c.pages)
  {
    assert ZoneHome(h.pg, p, c.pages);
    hide Canon, Free;
  }

  /** In a fresh heap of up to 1024 pages the first free page is page 1, and a
      request of two pages is not aligned to its size if heap_start is. */
  method OddPage(npages: nat, raw: seq<Usage>, start: int) returns (heap: SlabHeap, r: Ptr)
    requires |raw| == npages && 3 <= npages <= 1024 && start % 8192 == 0
    ensures heap.Valid() && r.Ptr? && IsPow2(8192) && !Divides(8192, start + r.addr)
  {
    hide Inv, ZoneIndex;
    heap := new SlabHeap(npages, raw);
    assert heap.pages.runs == [Run(1, npages - 1)];
    assert FromRuns(heap.pages.runs, 2) == Page(1) && PagesFor(8192) == 2;
    ghost var a;
    r, a := heap.Malloc(8192);
    assert IsPow2(8192) by { Pow2Grains(); assert IsPow2(4096); }
  }
}
