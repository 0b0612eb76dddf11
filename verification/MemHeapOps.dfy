/** What the operations of a memheap do to its lists and blocks: results, facts
    that the pointer writes rely on, and the return to the invariant. */
module MemHeapOps {
  import opened Words
  import opened MemHeapCore
  import opened MemHeapLists
  import opened MemHeapShape
  import opened MemHeapInv

  /** Live blocks have at least the minimum of data bytes. */
  ghost predicate LiveMin(s: seq<Blk>) {
    forall x :: x in Live(s) ==> x.len >= MINI
  }

  /** Fills in the six words of the header at x. */
  function SetItem(m: Memory, x: int, magic: int, pool: int, next: int, prev: int, nextFree: int, prevFree: int): (m2: Memory)
    ensures x in m2 && m2[x] == magic && x + POOL in m2 && m2[x + POOL] == pool
    ensures x + NEXT in m2 && m2[x + NEXT] == next && x + PREV in m2 && m2[x + PREV] == prev
    ensures x + NFREE in m2 && m2[x + NFREE] == nextFree && x + PFREE in m2 && m2[x + PFREE] == prevFree
    ensures forall w :: w in m ==> w in m2
    ensures forall w :: w in m && !(x <= w < x + SIZE) ==> m2[w] == m[w]
    ensures forall w :: w in m2 ==> w in m || x <= w < x + SIZE
  {
    m[x := magic][x + POOL := pool][x + NEXT := next][x + PREV := prev][x + NFREE := nextFree][x + PFREE := prevFree]
  }

  lemma RoundUpTwice(n: nat)
    ensures RoundUp(RoundUp(n)) == RoundUp(n) && Aligned(RoundUp(n))
  {
  }

  lemma HeaderPositive(c: Conf, mem: Memory, s: seq<Blk>, fr: seq<int>, i: nat)
    requires Inv(c, mem, s, fr) && i < |s|
    ensures s[i].addr > 0
  {
    ReadBlock(c, mem, s, fr, i);
  }

  lemma ReleaseOthers(c: Conf, m0: Memory, m1: Memory, s: seq<Blk>, fr: seq<int>, s2: seq<Blk>, fr2: seq<int>, i: nat)
    requires Inv(c, m0, s, fr) && Inv(c, m1, s2, fr2) && i < |s| && !s[i].free && s2 == Released(s, i)
    requires DataKept(m0, m1, Items(c, s) + Items(c, s2))
    ensures OthersKept(s, s[i], m0, m1)
  {
    ReleaseLive(c, m0, s, fr, i);
    forall y | y in Live(s) && y != s[i] ensures SameData(m0, m1, y) {
      LiveDataKept(c, m0, m1, s, s2, y);
    }
  }

  lemma ResizeLive(c: Conf, s: seq<Blk>, i: nat, size: int)
    requires c.Ok() && Tiles(s, c.start, c.Tail()) && i < |s| && !s[i].free && 0 <= size && Aligned(size) && InPlace(s, i, size)
    ensures var x := if size <= s[i].len <= size + SIZE + MINI then s[i] else Blk(s[i].addr, size, false);
      && Live(Resized(s, i, size)) == Live(s) - multiset{s[i]} + multiset{x}
      && x.addr == s[i].addr && x.len >= size
  {
    LiveAt(s, i);
    BlockAt(s, i, c.start);
    if size > s[i].len {
      BlockAt(s, i + 1, c.start);
      MovedTiles(s, i, size, c.start, c.Tail());
    } else if size + SIZE + MINI < s[i].len {
      ShrunkShape(c, s, i, size);
    }
  }

  lemma InvShape(c: Conf, mem: Memory, s: seq<Blk>, fr: seq<int>)
    requires Inv(c, mem, s, fr)
    ensures c.Ok() && Tiles(s, c.start, c.Tail())
  {
  }

  lemma ResizeKept(c: Conf, m0: Memory, m1: Memory, s: seq<Blk>, fr: seq<int>, s2: seq<Blk>, fr2: seq<int>,
                   i: nat, size: int, p: int)
    requires Inv(c, m0, s, fr) && Inv(c, m1, s2, fr2) && i < |s| && !s[i].free && 0 <= size && Aligned(size)
    requires InPlace(s, i, size) && s2 == Resized(s, i, size) && p == s[i].addr + SIZE
    requires DataKept(m0, m1, Items(c, s) + Items(c, s2))
    ensures OthersKept(s, s[i], m0, m1)
    ensures forall w :: 0 <= w < Min(s[i].len, size) ==> SameWord(m1, p, m0, p, w)
  {
    hide Resized, Inv, DataKept, SameWord, InPlace, Tiles, Aligned, Items, Live;
    InvShape(c, m0, s, fr);
    ResizeLive(c, s, i, size);
    ResizeOthers(c, m0, m1, s, fr, s2, fr2, i, size);
    LiveAt(s, i);
    var x := if size <= s[i].len <= size + SIZE + MINI then s[i] else Blk(s[i].addr, size, false);
    SharedWords(c, m0, m1, s, fr, s2, fr2, s[i], x, Min(s[i].len, size), p);
  }

  lemma ResizeOthers(c: Conf, m0: Memory, m1: Memory, s: seq<Blk>, fr: seq<int>, s2: seq<Blk>, fr2: seq<int>, i: nat, size: int)
    requires Inv(c, m0, s, fr) && Inv(c, m1, s2, fr2) && i < |s| && !s[i].free && 0 <= size && Aligned(size)
    requires InPlace(s, i, size) && s2 == Resized(s, i, size) && DataKept(m0, m1, Items(c, s) + Items(c, s2))
    ensures OthersKept(s, s[i], m0, m1)
  {
    hide Resized, Inv, DataKept, InPlace, Tiles, Aligned, Items, Live;
    InvShape(c, m0, s, fr);
    ResizeLive(c, s, i, size);
    forall y | y in Live(s) && y != s[i] ensures SameData(m0, m1, y) {
      SharedData(c, m0, m1, s, fr, s2, fr2, y);
    }
  }

  lemma SharedData(c: Conf, m0: Memory, m1: Memory, s: seq<Blk>, fr: seq<int>, s2: seq<Blk>, fr2: seq<int>, y: Blk)
    requires Inv(c, m0, s, fr) && Inv(c, m1, s2, fr2) && DataKept(m0, m1, Items(c, s) + Items(c, s2))
    requires y in Live(s) && y in Live(s2)
    ensures SameData(m0, m1, y)
  {
    LiveDataKept(c, m0, m1, s, s2, y);
  }

  lemma SharedWords(c: Conf, m0: Memory, m1: Memory, s: seq<Blk>, fr: seq<int>, s2: seq<Blk>, fr2: seq<int>,
                    y: Blk, z: Blk, n: int, p: int)
    requires Inv(c, m0, s, fr) && Inv(c, m1, s2, fr2) && DataKept(m0, m1, Items(c, s) + Items(c, s2))
    requires y in Live(s) && z in Live(s2) && y.addr == z.addr && p == y.addr + SIZE && n <= y.len && n <= z.len
    ensures forall w :: 0 <= w < n ==> SameWord(m1, p, m0, p, w)
  {
    var i := LiveIndex(s, y);
    var j := LiveIndex(s2, z);
    forall w | 0 <= w < n ensures SameWord(m1, p, m0, p, w) {
      DataQuiet(c, s, i, p + w);
      DataQuiet(c, s2, j, p + w);
    }
  }

  /** Where block i of s is after block a has served a request. */
  function Shift(s: seq<Blk>, a: nat, size: int, i: nat): nat
    requires a < |s|
  {
    if a < i && s[a].len >= size + SIZE + MINI then i + 1 else i
  }

  lemma KeptSelf(c: Conf, mem: Memory, s: seq<Blk>, fr: seq<int>, x: Blk)
    requires Inv(c, mem, s, fr)
    ensures OthersKept(s, x, mem, mem)
  {
    forall y | y in Live(s) && y != x ensures SameData(mem, mem, y) {
      DataSelf(mem, Items(c, s) + Items(c, s));
      LiveDataKept(c, mem, mem, s, s, y);
    }
  }

  /** After the allocation: the new block a, and the old block x = s[i] at its
      shifted place, both live, with every old block's data in place. */
  lemma AllocKept(c: Conf, m0: Memory, m1: Memory, s: seq<Blk>, fr: seq<int>, s1: seq<Blk>, fr1: seq<int>,
                  a: nat, k: nat, size: int, i: nat)
    requires Inv(c, m0, s, fr) && Inv(c, m1, s1, fr1) && FirstFit(s, fr, size, a, k) && size % 4 == 0 && 0 <= size
    requires s1 == Allocated(s, a, size) && DataKept(m0, m1, Items(c, s) + Items(c, s1))
    requires i < |s| && !s[i].free
    ensures s[i].len >= 0 && a != i && a < |s1| && !s1[a].free && s1[a].addr == s[a].addr && s1[a].len >= size
    ensures var i1 := Shift(s, a, size, i); i1 < |s1| && s1[i1] == s[i] && i1 != a
    ensures Live(s1) == Live(s) + multiset{s1[a]} && s[i] in Live(s) && s[i] != s1[a] && s1[a] !in Live(s)
    ensures forall y :: y in Live(s) ==> SameData(m0, m1, y)
  {
    AllocLive(c, s, a, size);
    AllocIndex(s, a, size, i);
    hide Allocated, Shift;
    LiveAt(s, i);
    ReadBlock(c, m0, s, fr, i);
    forall y | y in Live(s) ensures SameData(m0, m1, y) {
      LiveDataKept(c, m0, m1, s, s1, y);
    }
    if s1[a] in Live(s) {
      var j := LiveIndex(s, s1[a]);
      Disjoint(c, m0, s, fr, a, j);
      ReadBlock(c, m0, s, fr, a);
      ReadBlock(c, m0, s, fr, j);
      assert false;
    }
  }

  lemma AllocLive(c: Conf, s: seq<Blk>, a: nat, size: int)
    requires Tiles(s, c.start, c.Tail()) && a < |s| && s[a].free && 0 <= size <= s[a].len && size % 4 == 0
    ensures var s1 := Allocated(s, a, size);
      && a < |s1| && s1[a] == Blk(s[a].addr, s1[a].len, false) && s1[a].len >= size
      && Live(s1) == Live(s) + multiset{s1[a]}
  {
    BlockAt(s, a, c.start);
    if s[a].len >= size + SIZE + MINI {
      CutTiles(s, a, size, c.start, c.Tail());
      hide Tiles, Live, FreeBytes;
      assert Cut(s, a, size)[a] == Blk(s[a].addr, size, false);
    } else {
      TakenTiles(s, a, c.start, c.Tail());
      hide Tiles, Live, FreeBytes;
      assert Taken(s, a)[a] == s[a].(free := false);
    }
  }

  lemma AllocIndex(s: seq<Blk>, a: nat, size: int, i: nat)
    requires a < |s| && i < |s| && i != a
    ensures var s1, i1 := Allocated(s, a, size), Shift(s, a, size, i); i1 < |s1| && s1[i1] == s[i] && i1 != a
  {
  }

  lemma CopyKept(c: Conf, m1: Memory, m2: Memory, s1: seq<Blk>, fr1: seq<int>, s: seq<Blk>, x: Blk, a: nat, i1: nat, n: int)
    requires Inv(c, m1, s1, fr1) && a < |s1| && 0 <= n <= s1[a].len && m2.Keys == m1.Keys
    requires forall w :: w in m2 && !(s1[a].addr + SIZE <= w < s1[a].addr + SIZE + n) ==> m2[w] == m1[w]
    requires Live(s1) == Live(s) + multiset{s1[a]} && s1[a] !in Live(s)
    ensures forall y :: y in Live(s) ==> SameData(m1, m2, y)
  {
    forall y | y in Live(s) ensures SameData(m1, m2, y) {
      var j := LiveIndex(s1, y);
      Disjoint(c, m1, s1, fr1, a, j);
      forall w | 0 <= w < y.len ensures KeptWord(m1, m2, y, w) {
        assert y.addr + SIZE + w in m1;
      }
    }
  }

  lemma ReleaseLive(c: Conf, mem: Memory, s: seq<Blk>, fr: seq<int>, i: nat)
    requires Inv(c, mem, s, fr) && i < |s| && !s[i].free
    ensures Live(Released(s, i)) == Live(s) - multiset{s[i]}
  {
    ReleasedTiles(s, i, c.start, c.Tail());
  }

  /** Blocks live all through keep their data over allocation, copy, release. */
  lemma OldKept(c: Conf, m0: Memory, m1: Memory, m2: Memory, m3: Memory, s1: seq<Blk>, f1: seq<int>,
                s2: seq<Blk>, f2: seq<int>, s: seq<Blk>, x: Blk, z: Blk)
    requires Inv(c, m2, s1, f1) && Inv(c, m3, s2, f2) && DataKept(m2, m3, Items(c, s1) + Items(c, s2))
    requires Live(s1) == Live(s) + multiset{z} && Live(s2) == Live(s1) - multiset{x}
    requires forall y :: y in Live(s) ==> SameData(m0, m1, y)
    requires forall y :: y in Live(s) ==> SameData(m1, m2, y)
    ensures OthersKept(s, x, m0, m3)
  {
    hide Live;
    forall y | y in Live(s) && y != x ensures SameData(m0, m3, y) {
      LiveDataKept(c, m2, m3, s1, s2, y);
      SameDataThen(m0, m1, m2, m3, y);
    }
  }

  lemma SameDataThen(m0: Memory, m1: Memory, m2: Memory, m3: Memory, y: Blk)
    requires SameData(m0, m1, y) && SameData(m1, m2, y) && SameData(m2, m3, y)
    ensures SameData(m0, m3, y)
  {
    forall w | 0 <= w < y.len ensures KeptWord(m0, m3, y, w) {
      assert KeptWord(m0, m1, y, w) && KeptWord(m1, m2, y, w) && KeptWord(m2, m3, y, w);
    }
  }

  /** The copied words are still in the new block z after the release of x. */
  lemma NewKept(c: Conf, m0: Memory, m1: Memory, m2: Memory, m3: Memory, s1: seq<Blk>, f1: seq<int>,
                s2: seq<Blk>, f2: seq<int>, x: Blk, z: Blk, to: int, from: int)
    requires Inv(c, m2, s1, f1) && Inv(c, m3, s2, f2) && DataKept(m2, m3, Items(c, s1) + Items(c, s2))
    requires Live(s2) == Live(s1) - multiset{x} && z in Live(s1) && z != x
    requires to == z.addr + SIZE && from == x.addr + SIZE && 0 <= x.len <= z.len && SameData(m0, m1, x)
    requires forall w :: 0 <= w < x.len ==> SameWord(m2, to, m1, from, w)
    ensures forall w :: 0 <= w < x.len ==> SameWord(m3, to, m0, from, w)
  {
    hide Live, DataKept, Items;
    LiveDataKept(c, m2, m3, s1, s2, z);
    forall w | 0 <= w < x.len ensures SameWord(m3, to, m0, from, w) {
      assert SameWord(m2, to, m1, from, w);
      assert KeptWord(m0, m1, x, w) && KeptWord(m2, m3, z, w);
    }
  }

  /** The comparison that decides whether a block grows into the free block after
      it, in unsigned 32-bit arithmetic. */
  predicate GrowTest(nextsize: int, oldsize: int, newsize: int) {
    (nextsize + oldsize) % TWO32 > (newsize + MINI) % TWO32
  }

  /** The grow test admits only what fits, with a block to spare, exactly when
      adding the minimum to the new size does not wrap. */
  lemma GrowTestExact(nextsize: int, oldsize: int, newsize: int)
    requires MINI <= oldsize && 0 <= nextsize && nextsize + oldsize < TWO32 && 0 <= newsize < TWO32
    ensures (GrowTest(nextsize, oldsize, newsize) ==> nextsize + oldsize > newsize + MINI)
      <==> newsize + MINI < TWO32
    ensures newsize + MINI < TWO32 ==> (GrowTest(nextsize, oldsize, newsize) <==> nextsize + oldsize > newsize + MINI)
  {
  }

  predicate GrowSafe(s: seq<Blk>, i: nat, size: int) {
    NextFree(s, i) ==> size + MINI < TWO32
  }

  predicate InPlace(s: seq<Blk>, i: nat, size: int)
    requires i < |s|
  {
    size <= s[i].len || (NextFree(s, i) && s[i].len + s[i + 1].len > size + MINI)
  }

  /** The blocks after a live block is resized where it stands. */
  function Resized(s: seq<Blk>, i: nat, size: int): seq<Blk>
    requires i < |s| && InPlace(s, i, size)
  {
    if size > s[i].len then Moved(s, i, size)
    else if size + SIZE + MINI >= s[i].len then s
    else Shrunk(s, i, size)
  }

  lemma ResizeBytes(c: Conf, mem: Memory, s: seq<Blk>, fr: seq<int>, i: nat, size: int)
    requires Inv(c, mem, s, fr) && i < |s| && !s[i].free && 0 <= size && Aligned(size)
    ensures NextFree(s, i) ==> 0 <= s[i].len + s[i + 1].len < TWO32
    ensures NextFree(s, i) && s[i].len < size <= s[i].len + s[i + 1].len ==>
      FreeBytes(Moved(s, i, size)) == FreeBytes(s) + s[i].len - size
    ensures size + SIZE + MINI < s[i].len ==>
      FreeBytes(Shrunk(s, i, size)) == FreeBytes(s) + s[i].len - size - if NextFree(s, i) then 0 else SIZE
    ensures LiveMin(s) && MINI <= size && InPlace(s, i, size) ==> LiveMin(Resized(s, i, size))
  {
    hide Inv, Tiles, Aligned, Moved, Shrunk, FreeBytes, LiveMin, Resized, InPlace;
    InvShape(c, mem, s, fr);
    if NextFree(s, i) {
      PairBounds(c, mem, s, fr, i);
      if s[i].len < size <= s[i].len + s[i + 1].len { MovedTiles(s, i, size, c.start, c.Tail()); }
    }
    if size + SIZE + MINI < s[i].len { ShrunkShape(c, s, i, size); }
    if LiveMin(s) && MINI <= size && InPlace(s, i, size) { ResizeMin(c, s, i, size); }
  }

  lemma PairBounds(c: Conf, mem: Memory, s: seq<Blk>, fr: seq<int>, i: nat)
    requires Inv(c, mem, s, fr) && i + 1 < |s|
    ensures 0 <= s[i].len + s[i + 1].len < TWO32
  {
    ReadBlock(c, mem, s, fr, i);
    ReadBlock(c, mem, s, fr, i + 1);
  }

  lemma ResizeMin(c: Conf, s: seq<Blk>, i: nat, size: int)
    requires c.Ok() && Tiles(s, c.start, c.Tail()) && i < |s| && !s[i].free && 0 <= size && Aligned(size)
    requires LiveMin(s) && MINI <= size && InPlace(s, i, size)
    ensures LiveMin(Resized(s, i, size))
  {
    hide Resized, InPlace, Tiles, Live, Aligned;
    LiveAt(s, i);
    ResizeLive(c, s, i, size);
  }

  lemma Disjoint(c: Conf, mem: Memory, s: seq<Blk>, fr: seq<int>, i: nat, j: nat)
    requires Inv(c, mem, s, fr) && i < |s| && j < |s| && i != j
    ensures s[i].addr + SIZE + s[i].len <= s[j].addr || s[j].addr + SIZE + s[j].len <= s[i].addr
    ensures forall w :: s[i].addr + SIZE <= w < s[i].addr + SIZE + s[i].len ==> w in mem
    ensures forall w :: s[j].addr + SIZE <= w < s[j].addr + SIZE + s[j].len ==> w in mem
  {
    ReadBlock(c, mem, s, fr, i);
    ReadBlock(c, mem, s, fr, j);
    if i < j { ChainApart(s, c.start, false, i, j); } else { ChainApart(s, c.start, false, j, i); }
  }

  /** The blocks after used block i is cut to `size` bytes. */
  function Shrunk(s: seq<Blk>, i: nat, size: int): seq<Blk>
    requires i < |s|
  {
    if NextFree(s, i) then Moved(s, i, size) else Cut(s, i, size)
  }

  predicate NextFree(s: seq<Blk>, i: nat) {
    i + 1 < |s| && s[i + 1].free
  }

  function ShrunkRing(b: seq<int>, i: nat, q: int, merge: bool): seq<int>
    requires i + 1 < |b|
  {
    if merge then Remove(Insert(b, i + 1, q), i + 2) else Insert(b, i + 1, q)
  }

  function ShrunkFreeList(fr: seq<int>, q: int, k: nat, merge: bool): seq<int>
    requires merge ==> k < |fr|
  {
    [q] + if merge then Remove(fr, k) else fr
  }

  lemma ShrinkFacts(c: Conf, mem: Memory, s: seq<Blk>, fr: seq<int>, i: nat, size: int) returns (k: nat)
    requires Inv(c, mem, s, fr) && i < |s| && !s[i].free
    requires 0 <= size && Aligned(size) && size + SIZE <= s[i].len
    ensures var b, U, I, q := Headers(c, s), UsedSet(c, s), Items(c, s), s[i].addr + SIZE + size;
      var b2 := Insert(b, i + 1, q);
      && Good(c.hdr, c.self, mem, I, b, fr, U) && Covers(c, mem) && NoDupInts(fr)
      && i + 1 < |b| && b[i] == s[i].addr && b2[i + 1] == q && b2[i + 2] == b[i + 1]
      && q !in I && q !in U && q != c.hdr && q !in fr && Arena(I + {q}) && Backed(mem, I + {q})
      && b[i + 1] in b2 && (b[i + 1] !in U <==> NextFree(s, i))
      && b[i + 1] == s[i].addr + SIZE + s[i].len
      && (NextFree(s, i) ==>
        && k < |fr| && fr[k] == b[i + 1] == s[i + 1].addr && i + 2 < |b| && q !in Remove(fr, k)
        && b[i + 2] == s[i + 1].addr + SIZE + s[i + 1].len
        && Succ(b2, i + 2) == b[i + 2] && Succ(Remove(b2, i + 2), i + 1) == b[i + 2] && Remove(b2, i + 2)[i + 1] == q)
  {
    var b, U, I, q := Headers(c, s), UsedSet(c, s), Items(c, s), s[i].addr + SIZE + size;
    k := NextFacts(c, mem, s, fr, i);
    BetweenHeaders(c, s, i, q);
    Crowded(c, mem, s, q);
    hide Good, Arena, Backed, Tiles, UsedSet, Items, Covers;
    assert b[i + 1] in b && Insert(b, i + 1, q)[i + 2] == b[i + 1];
    if NextFree(s, i) { RemoveIn(fr, k, q); }
  }

  /** Used block i and what follows it. */
  lemma NextFacts(c: Conf, mem: Memory, s: seq<Blk>, fr: seq<int>, i: nat) returns (k: nat)
    requires Inv(c, mem, s, fr) && i < |s| && !s[i].free
    ensures var b, U := Headers(c, s), UsedSet(c, s);
      && i + 1 < |b| && b[i] == s[i].addr && NoDupInts(fr)
      && b[i + 1] == s[i].addr + SIZE + s[i].len && (b[i + 1] !in U <==> NextFree(s, i))
      && (NextFree(s, i) ==>
        && k < |fr| && fr[k] == b[i + 1] == s[i + 1].addr && i + 2 < |b|
        && b[i + 2] == s[i + 1].addr + SIZE + s[i + 1].len)
      && (forall x :: x in U || x in fr ==> x in Items(c, s))
  {
    var b, U := Headers(c, s), UsedSet(c, s);
    ReadBlock(c, mem, s, fr, i);
    ReadTail(c, mem, s, fr);
    GoodDistinct(c.hdr, c.self, mem, Items(c, s), b, fr, U);
    assert b[i] == s[i].addr && b[i + 1] in b;
    k := 0;
    if i + 1 < |s| {
      ReadBlock(c, mem, s, fr, i + 1);
      assert b[i + 1] == s[i + 1].addr;
      if s[i + 1].free { k :| 0 <= k < |fr| && fr[k] == s[i + 1].addr; }
    }
  }

  /** A header-sized hole between two headers is apart from every header. */
  lemma BetweenHeaders(c: Conf, s: seq<Blk>, i: nat, q: int)
    requires c.Ok() && Tiles(s, c.start, c.Tail()) && i < |s|
    requires s[i].addr + SIZE <= q && q + SIZE <= s[i].addr + SIZE + s[i].len
    ensures forall x :: x in Items(c, s) ==> Apart(x, q)
    ensures c.start <= q && q + SIZE <= c.Tail()
  {
    var b := Headers(c, s);
    ChainAt(s, c.start, false, i);
    forall x | x in Items(c, s) ensures Apart(x, q) {
      if x != c.hdr {
        var j :| 0 <= j < |b| && b[j] == x;
        if j < i { ChainApart(s, c.start, false, j, i); ChainAt(s, c.start, false, j); }
        if i < j < |s| { ChainApart(s, c.start, false, i, j); }
      }
    }
  }

  lemma Crowded(c: Conf, mem: Memory, s: seq<Blk>, q: int)
    requires c.Ok() && Covers(c, mem) && Tiles(s, c.start, c.Tail())
    requires (forall x :: x in Items(c, s) ==> Apart(x, q)) && c.start <= q && q + SIZE <= c.Tail()
    ensures q !in Items(c, s) && Arena(Items(c, s) + {q}) && Backed(mem, Items(c, s) + {q})
  {
    TilesArena(c, s);
  }

  lemma ShrinkClose(c: Conf, mem0: Memory, mem: Memory, s: seq<Blk>, fr: seq<int>, i: nat, size: int, k: nat)
    requires Inv(c, mem0, s, fr) && i < |s| && !s[i].free && Covers(c, mem)
    requires 0 <= size && Aligned(size) && size + SIZE <= s[i].len && i + 1 < |Headers(c, s)|
    requires NextFree(s, i) ==> k < |fr| && fr[k] == s[i + 1].addr
    requires var q, m := s[i].addr + SIZE + size, NextFree(s, i);
      Good(c.hdr, c.self, mem, Items(c, s) + {q}, ShrunkRing(Headers(c, s), i, q, m), ShrunkFreeList(fr, q, k, m), UsedSet(c, s))
    ensures var q, m := s[i].addr + SIZE + size, NextFree(s, i);
      && Inv(c, mem, Shrunk(s, i, size), ShrunkFreeList(fr, q, k, m))
      && q in Items(c, Shrunk(s, i, size))
      && FreeBytes(Shrunk(s, i, size)) - FreeBytes(s) ==
        if m then s[i].len - size else s[i].len - size - SIZE
  {
    hide Inv, Good, Shrunk, UsedSet, Tiles, Live, FreeBytes, FreeHeader, Aligned, Headers, ShrunkFreeList, ShrunkRing, Marks;
    var q, m, b, s2, U := s[i].addr + SIZE + size, NextFree(s, i), Headers(c, s), Shrunk(s, i, size), UsedSet(c, s);
    var fr2 := ShrunkFreeList(fr, q, k, m);
    InvShape(c, mem0, s, fr);
    ShrunkShape(c, s, i, size);
    RingEqual(b, i, q, m);
    ShrinkFree(c, mem0, s, fr, i, size, k);
    FreeInHeaders(c, s2, fr2);
    ShrinkMarks(c, s, i, size);
    Close(c, mem, Items(c, s) + {q}, s2, fr2, U);
  }

  lemma ShrinkFree(c: Conf, mem0: Memory, s: seq<Blk>, fr: seq<int>, i: nat, size: int, k: nat)
    requires Inv(c, mem0, s, fr) && i < |s| && !s[i].free && 0 <= size && Aligned(size) && size + SIZE <= s[i].len
    requires NextFree(s, i) ==> k < |fr| && fr[k] == s[i + 1].addr
    ensures FreeList(Shrunk(s, i, size), ShrunkFreeList(fr, s[i].addr + SIZE + size, k, NextFree(s, i)))
  {
    hide Good, Shrunk, Tiles, Live, FreeBytes, FreeHeader, Aligned, Headers;
    var s2, m := Shrunk(s, i, size), NextFree(s, i);
    var fr2 := ShrunkFreeList(fr, s[i].addr + SIZE + size, k, m);
    ShrunkShape(c, s, i, size);
    GoodDistinct(c.hdr, c.self, mem0, Items(c, s), Headers(c, s), fr, UsedSet(c, s));
    forall x ensures x in fr2 <==> FreeHeader(s2, x) {
      if m { RemoveIn(fr, k, x); }
    }
  }

  lemma RingEqual(b: seq<int>, i: nat, q: int, merge: bool)
    requires i + 1 < |b|
    ensures var t := ShrunkRing(b, i, q, merge);
      && t == (if merge then Insert(Remove(b, i + 1), i + 1, q) else Insert(b, i + 1, q))
      && t[i + 1] == q && q in t
  {
    var t := ShrunkRing(b, i, q, merge);
    assert t[i + 1] == q;
  }

  lemma ShrunkShape(c: Conf, s: seq<Blk>, i: nat, size: int)
    requires c.Ok() && Tiles(s, c.start, c.Tail()) && i < |s| && !s[i].free
    requires 0 <= size && Aligned(size) && size + SIZE <= s[i].len
    ensures var q, m, s2 := s[i].addr + SIZE + size, NextFree(s, i), Shrunk(s, i, size);
      && Tiles(s2, c.start, c.Tail()) && s2 != []
      && i + 1 < |Headers(c, s)| && (m ==> Headers(c, s)[i + 1] == s[i + 1].addr)
      && Headers(c, s2) == (if m then Insert(Remove(Headers(c, s), i + 1), i + 1, q) else Insert(Headers(c, s), i + 1, q))
      && (forall x :: FreeHeader(s2, x) <==> (FreeHeader(s, x) && !(m && x == s[i + 1].addr)) || x == q)
      && FreeBytes(s2) - FreeBytes(s) == (if m then s[i].len - size else s[i].len - size - SIZE)
      && Live(s2) == Live(s) - multiset{s[i]} + multiset{Blk(s[i].addr, size, false)}
  {
    hide Moved, Cut;
    if NextFree(s, i) {
      BlockAt(s, i + 1, c.start);
      MovedTiles(s, i, size, c.start, c.Tail());
      MovedHeaders(c, s, i, size);
      forall x ensures FreeHeader(Moved(s, i, size), x) <==>
          (FreeHeader(s, x) && x != s[i + 1].addr) || x == s[i].addr + SIZE + size { MovedFree(s, i, size, c.start, x); }
    } else {
      CutTiles(s, i, size, c.start, c.Tail());
      CutHeaders(c, s, i, size);
      forall x ensures FreeHeader(Cut(s, i, size), x) <==>
          FreeHeader(s, x) || x == s[i].addr + SIZE + size { CutFree(s, i, size, c.start, x); }
    }
  }

  lemma ShrinkMarks(c: Conf, s: seq<Blk>, i: nat, size: int)
    requires c.Ok() && Tiles(s, c.start, c.Tail()) && i < |s| && !s[i].free
    requires 0 <= size && Aligned(size) && size + SIZE <= s[i].len
    ensures Marks(c, Shrunk(s, i, size), UsedSet(c, s))
  {
    var q, s2, b := s[i].addr + SIZE + size, Shrunk(s, i, size), Headers(c, s);
    ShrunkShape(c, s, i, size);
    TilesArena(c, s);
    BetweenHeaders(c, s, i, q);
    assert q !in b by { assert q in b ==> q in Items(c, s); }
    hide Shrunk, Tiles, Headers;
    forall x | x in Headers(c, s2) ensures x in UsedSet(c, s) <==> !FreeHeader(s2, x) {
      if NextFree(s, i) { RemoveIn(b, i + 1, x); }
    }
  }

  lemma MoveFacts(c: Conf, mem: Memory, s: seq<Blk>, fr: seq<int>, i: nat, size: int) returns (k: nat)
    requires Inv(c, mem, s, fr) && i + 1 < |s| && !s[i].free && s[i + 1].free
    requires 0 <= size && Aligned(size) && size <= s[i].len + s[i + 1].len
    ensures var b, U, I, q, n := Headers(c, s), UsedSet(c, s), Items(c, s), s[i].addr + SIZE + size, s[i + 1].addr;
      var J := I - {n};
      && Good(c.hdr, c.self, mem, I, b, fr, U) && Covers(c, mem) && NoDupInts(fr)
      && i + 2 < |b| && b[i] == s[i].addr && b[i + 1] == n && Remove(b, i + 1)[i] == b[i]
      && k < |fr| && fr[k] == n
      && c.hdr in J && (forall x :: x in Remove(b, i + 1) || x in Remove(fr, k) ==> x in J)
      && q !in J && q !in U && q != c.hdr && q !in Remove(fr, k) && Arena(J + {q}) && Backed(mem, J + {q})
  {
    var b, U, I, q, n := Headers(c, s), UsedSet(c, s), Items(c, s), s[i].addr + SIZE + size, s[i + 1].addr;
    var J := I - {n};
    k := NextFacts(c, mem, s, fr, i);
    TilesArena(c, s);
    MovedRoom(c, mem, s, i, size);
    hide Good, Tiles, Arena, Backed, Covers;
    GoodDistinct(c.hdr, c.self, mem, I, b, fr, U);
    forall x ensures x in Remove(b, i + 1) <==> x in b && x != n { RemoveIn(b, i + 1, x); }
    forall x ensures x in Remove(fr, k) <==> x in fr && x != n { RemoveIn(fr, k, x); }
    UsedNotFree(c, s, fr, n);
  }

  lemma MovedRoom(c: Conf, mem: Memory, s: seq<Blk>, i: nat, size: int)
    requires c.Ok() && Covers(c, mem) && Tiles(s, c.start, c.Tail())
    requires i + 1 < |s| && !s[i].free && s[i + 1].free
    requires 0 <= size && Aligned(size) && size <= s[i].len + s[i + 1].len
    ensures var q, J := s[i].addr + SIZE + size, Items(c, s) - {s[i + 1].addr};
      q !in J && q != c.hdr && Arena(J + {q}) && Backed(mem, J + {q})
  {
    var b, q, n := Headers(c, s), s[i].addr + SIZE + size, s[i + 1].addr;
    var s2 := Moved(s, i, size);
    MovedTiles(s, i, size, c.start, c.Tail());
    MovedHeaders(c, s, i, size);
    TilesArena(c, s);
    TilesArena(c, s2);
    InsertOnly(Remove(b, i + 1), i + 1, q);
    assert b[i + 1] == n && s2[i + 1].addr == q;
    hide Moved, Tiles, Arena, Backed;
    forall x | x in Items(c, s) - {n} ensures x == c.hdr || (x in Headers(c, s2) && x != q) {
      RemoveIn(b, i + 1, x);
    }
    RoomFor(c, mem, Items(c, s) - {n}, s2, i + 1);
    assert Headers(c, s2)[i + 1] == q;
  }

  lemma UsedNotFree(c: Conf, s: seq<Blk>, fr: seq<int>, n: int)
    requires FreeList(s, fr) && n in fr
    ensures n !in UsedSet(c, s)
  {
  }

  lemma MoveClose(c: Conf, mem0: Memory, mem: Memory, s: seq<Blk>, fr: seq<int>, i: nat, size: int, k: nat)
    requires Inv(c, mem0, s, fr) && i + 1 < |s| && !s[i].free && s[i + 1].free && Covers(c, mem)
    requires 0 <= size && Aligned(size) && size <= s[i].len + s[i + 1].len
    requires k < |fr| && fr[k] == s[i + 1].addr && i + 2 < |Headers(c, s)|
    requires var q, n := s[i].addr + SIZE + size, s[i + 1].addr;
      Good(c.hdr, c.self, mem, Items(c, s) - {n} + {q}, Insert(Remove(Headers(c, s), i + 1), i + 1, q),
        [q] + Remove(fr, k), UsedSet(c, s))
    ensures Inv(c, mem, Moved(s, i, size), [s[i].addr + SIZE + size] + Remove(fr, k))
    ensures s[i].addr + SIZE + size in Items(c, Moved(s, i, size))
  {
    hide Inv, Good, Moved, Live, FreeBytes, FreeHeader, Chain, End, Aligned, UsedSet, Marks, FreeList, Headers;
    var q, n, b := s[i].addr + SIZE + size, s[i + 1].addr, Headers(c, s);
    var s2, fr2 := Moved(s, i, size), [q] + Remove(fr, k);
    InvShape(c, mem0, s, fr);
    MovedTiles(s, i, size, c.start, c.Tail());
    MovedHeaders(c, s, i, size);
    assert Headers(c, s2)[i + 1] == q;
    MoveFreeList(c, mem0, s, fr, i, size, k);
    FreeInHeaders(c, s2, fr2);
    MoveMarks(c, mem0, s, fr, i, size);
    Close(c, mem, Items(c, s) - {n} + {q}, s2, fr2, UsedSet(c, s));
  }

  lemma MoveFreeList(c: Conf, mem0: Memory, s: seq<Blk>, fr: seq<int>, i: nat, size: int, k: nat)
    requires Inv(c, mem0, s, fr) && i + 1 < |s| && !s[i].free && s[i + 1].free && k < |fr| && fr[k] == s[i + 1].addr
    requires 0 <= size && Aligned(size) && size <= s[i].len + s[i + 1].len
    ensures FreeList(Moved(s, i, size), [s[i].addr + SIZE + size] + Remove(fr, k))
  {
    hide Good, Moved, Live, FreeBytes, FreeHeader, Chain, End, Aligned, Headers, UsedSet;
    var s2, fr2 := Moved(s, i, size), [s[i].addr + SIZE + size] + Remove(fr, k);
    GoodDistinct(c.hdr, c.self, mem0, Items(c, s), Headers(c, s), fr, UsedSet(c, s));
    forall x ensures x in fr2 <==> FreeHeader(s2, x) {
      RemoveIn(fr, k, x);
      MovedFree(s, i, size, c.start, x);
    }
  }

  lemma MoveMarks(c: Conf, mem0: Memory, s: seq<Blk>, fr: seq<int>, i: nat, size: int)
    requires Inv(c, mem0, s, fr) && i + 1 < |s| && !s[i].free && s[i + 1].free
    requires 0 <= size && Aligned(size) && size <= s[i].len + s[i + 1].len
    ensures Marks(c, Moved(s, i, size), UsedSet(c, s))
  {
    hide Good, Moved, Live, FreeBytes, FreeHeader, Chain, End, Aligned;
    var q, b, s2 := s[i].addr + SIZE + size, Headers(c, s), Moved(s, i, size);
    MovedTiles(s, i, size, c.start, c.Tail());
    MovedHeaders(c, s, i, size);
    TilesArena(c, s);
    TilesArena(c, s2);
    InsertOnly(Remove(b, i + 1), i + 1, q);
    assert b[i + 1] == s[i + 1].addr && Headers(c, s2)[i + 1] == q;
    forall x | x in Headers(c, s2) ensures x in UsedSet(c, s) <==> !FreeHeader(s2, x) {
      MovedFree(s, i, size, c.start, x);
      RemoveIn(b, i + 1, x);
      assert x == q || x in Remove(b, i + 1);
      FreeAt(s, i + 1);
      RemoveIn(b, i + 1, q);
    }
  }

  lemma BackedKept(a: Memory, b: Memory, d: Memory, I: set<int>, J: set<int>)
    requires Backed(a, J) && DataKept(a, b, I) && DataKept(b, d, I)
    ensures Backed(d, J)
  {
    assert d.Keys == a.Keys;
  }

  lemma DataMoved(a: Memory, b: Memory, d: Memory, e: Memory, f: Memory, I: set<int>, n: int, q: int)
    requires DataKept(a, b, I) && DataKept(b, d, I)
    requires DataKept(d, e, I - {n} + {q}) && DataKept(e, f, I - {n} + {q})
    ensures DataKept(a, f, I + {q})
  {
    forall w | Quiet(w, I + {q}) ensures Quiet(w, I) && Quiet(w, I - {n} + {q}) {
    }
  }

  /** Block list after the release of the block at index i. */
  function ReleasedRing(b: seq<int>, i: nat, left: bool, right: bool): seq<int>
    requires i + 1 < |b| && (left ==> i > 0) && (right ==> i + 2 < |b|)
  {
    var b1 := if left then Remove(b, i) else b;
    var j := if left then i - 1 else i;
    if right then Remove(b1, j + 1) else b1
  }

  function ReleasedFreeList(fr: seq<int>, h: int, k: nat, left: bool, right: bool): seq<int>
    requires right ==> k < |fr|
  {
    var fr1 := if right then Remove(fr, k) else fr;
    if left then fr1 else [h] + fr1
  }

  /** What the release of used block i can rely on; k is the place of the right
      neighbour in the free list, if it is free. */
  lemma ReleaseFacts(c: Conf, mem: Memory, s: seq<Blk>, fr: seq<int>, i: nat) returns (k: nat)
    requires Inv(c, mem, s, fr) && i < |s| && !s[i].free
    ensures var b, U, h := Headers(c, s), UsedSet(c, s), s[i].addr;
      && Good(c.hdr, c.self, mem, Items(c, s), b, fr, U) && Covers(c, mem) && NoDupInts(fr) && NoDupInts(b)
      && i + 1 < |b| && b[i] == h && h in b && h in U && h in Items(c, s) && h != c.hdr && h !in fr
      && Pred(b, i) in b && Pred(b, i) != h && (Pred(b, i) !in U <==> Lo(s, i) < i)
      && b[i + 1] in b && b[i + 1] != h && (b[i + 1] !in U <==> Hi(s, i) > i + 1)
      && (Lo(s, i) < i ==> i > 0 && Pred(b, i) == b[i - 1])
      && b[i + 1] == s[i].addr + SIZE + s[i].len
      && (Hi(s, i) > i + 1 ==> k < |fr| && fr[k] == b[i + 1] && i + 2 < |b|)
  {
    var b, U, h := Headers(c, s), UsedSet(c, s), s[i].addr;
    ReadBlock(c, mem, s, fr, i);
    ReadTail(c, mem, s, fr);
    TilesArena(c, s);
    GoodDistinct(c.hdr, c.self, mem, Items(c, s), b, fr, U);
    assert b[i] == h && b[i + 1] in b && Pred(b, i) in b;
    k := 0;
    if i > 0 {
      ReadBlock(c, mem, s, fr, i - 1);
      assert b[i - 1] == s[i - 1].addr;
    }
    if i + 1 < |s| {
      ReadBlock(c, mem, s, fr, i + 1);
      assert b[i + 1] == s[i + 1].addr;
      if s[i + 1].free { k :| 0 <= k < |fr| && fr[k] == s[i + 1].addr; }
    }
  }

  lemma ReleaseClose(c: Conf, mem0: Memory, mem: Memory, s: seq<Blk>, fr: seq<int>, i: nat, k: nat)
    requires Inv(c, mem0, s, fr) && i < |s| && !s[i].free && Covers(c, mem)
    requires i + 2 <= |Headers(c, s)| && (Hi(s, i) > i + 1 ==> i + 2 < |Headers(c, s)| && k < |fr| && fr[k] == Headers(c, s)[i + 1])
    requires var left, right := Lo(s, i) < i, Hi(s, i) > i + 1;
      Good(c.hdr, c.self, mem, Items(c, s), ReleasedRing(Headers(c, s), i, left, right),
        ReleasedFreeList(fr, s[i].addr, k, left, right), UsedSet(c, s) - {s[i].addr})
    ensures var left, right := Lo(s, i) < i, Hi(s, i) > i + 1;
      Inv(c, mem, Released(s, i), ReleasedFreeList(fr, s[i].addr, k, left, right))
  {
    hide Good, Inv, Released, UsedSet, Tiles, ReleasedFreeList, FreeHeader, FreeList, Covers, Marks, Items, ReleasedRing;
    var left, right, s2, b, U := Lo(s, i) < i, Hi(s, i) > i + 1, Released(s, i), Headers(c, s), UsedSet(c, s) - {s[i].addr};
    var fr2 := ReleasedFreeList(fr, s[i].addr, k, left, right);
    InvShape(c, mem0, s, fr);
    ReleasedTiles(s, i, c.start, c.Tail());
    ReleasedHeaders(c, s, i);
    RingMerged(b, i, Lo(s, i), Hi(s, i));
    ReleaseFreeList(c, mem0, s, fr, i, k);
    FreeInHeaders(c, s2, fr2);
    ReleaseMarks(c, s, i);
    Close(c, mem, Items(c, s), s2, fr2, U);
  }

  lemma RingMerged(b: seq<int>, i: nat, lo: int, hi: int)
    requires i + 1 < |b| && (lo == i || (lo == i - 1 && lo >= 0)) && (hi == i + 1 || (hi == i + 2 && i + 2 < |b|))
    ensures ReleasedRing(b, i, lo < i, hi > i + 1) == MergedHeaders(b, lo, hi)
  {
  }

  lemma ReleaseFreeList(c: Conf, mem: Memory, s: seq<Blk>, fr: seq<int>, i: nat, k: nat)
    requires Inv(c, mem, s, fr) && i < |s| && !s[i].free
    requires Hi(s, i) > i + 1 ==> k < |fr| && fr[k] == s[i + 1].addr
    ensures FreeList(Released(s, i), ReleasedFreeList(fr, s[i].addr, k, Lo(s, i) < i, Hi(s, i) > i + 1))
  {
    hide Good, Released;
    var left, right, s2 := Lo(s, i) < i, Hi(s, i) > i + 1, Released(s, i);
    var fr2 := ReleasedFreeList(fr, s[i].addr, k, left, right);
    GoodDistinct(c.hdr, c.self, mem, Items(c, s), Headers(c, s), fr, UsedSet(c, s));
    if left { FreeAt(s, i - 1); }
    LoNotRight(c, s, i);
    forall x ensures x in fr2 <==> FreeHeader(s2, x) {
      ReleasedFree(s, i, c.start, x);
      if right { RemoveIn(fr, k, x); }
    }
  }

  lemma ReleaseBytes(c: Conf, mem: Memory, s: seq<Blk>, fr: seq<int>, i: nat)
    requires Inv(c, mem, s, fr) && i < |s| && !s[i].free
    ensures LiveMin(s) ==> LiveMin(Released(s, i))
    ensures FreeBytes(s) <= FreeBytes(Released(s, i))
      == FreeBytes(s) + s[i].len + SIZE * (Hi(s, i) - Lo(s, i) - 1)
  {
    ReadBlock(c, mem, s, fr, i);
    ReleasedTiles(s, i, c.start, c.Tail());
  }

  lemma LoNotRight(c: Conf, s: seq<Blk>, i: nat)
    requires Chain(s, c.start, false) && i < |s|
    ensures i + 1 < |s| ==> s[Lo(s, i)].addr != s[i + 1].addr
  {
    if i + 1 < |s| {
      ChainAt(s, c.start, false, Lo(s, i));
      ChainApart(s, c.start, false, Lo(s, i), i + 1);
    }
  }

  lemma ReleaseMarks(c: Conf, s: seq<Blk>, i: nat)
    requires c.Ok() && Tiles(s, c.start, c.Tail()) && i < |s| && !s[i].free
    ensures Marks(c, Released(s, i), UsedSet(c, s) - {s[i].addr})
  {
    var s2, lo, hi, b := Released(s, i), Lo(s, i), Hi(s, i), Headers(c, s);
    ReleasedHeaders(c, s, i);
    TilesArena(c, s);
    forall x | x in Headers(c, s2) ensures x in UsedSet(c, s) - {s[i].addr} <==> !FreeHeader(s2, x) {
      ReleasedFree(s, i, c.start, x);
      var j :| 0 <= j < |b| && b[j] == x && (j <= lo || hi <= j);
      assert b[i] == s[i].addr && b[lo] == s[lo].addr;
      assert i + 1 < |s| ==> b[i + 1] == s[i + 1].addr;
      if lo < i { FreeAt(s, lo); }
    }
  }

  lemma InitInv(c: Conf, mem: Memory)
    requires c.Ok() && Covers(c, mem)
    requires var h, x, t := c.hdr, c.start, c.Tail();
      && mem[x] == MAGIC && mem[x + POOL] == c.self && mem[x + NEXT] == t && mem[x + PREV] == t
      && mem[h + NFREE] == x && mem[h + PFREE] == x && mem[x + NFREE] == h && mem[x + PFREE] == h
      && mem[t] == MAGIC + USED && mem[t + POOL] == c.self && mem[t + NEXT] == x && mem[t + PREV] == x
    ensures var s := [Blk(c.start, c.size - 2 * SIZE, true)];
      Inv(c, mem, s, [c.start]) && FreeBytes(s) == c.size - 2 * SIZE && Live(s) == multiset{}
  {
    var y := Blk(c.start, c.size - 2 * SIZE, true);
    var s, b, r, U := [y], Headers(c, [y]), [c.hdr, c.start], UsedSet(c, [y]);
    AlignedSum(c.size, c.size);
    ChainOf1(y, false);
    SumsOf1(y);
    TilesArena(c, s);
    assert b == [c.start, c.Tail()];
    assert [c.hdr] + [c.start] == r;
    forall x ensures FreeHeader(s, x) <==> x == c.start { FreeOf1(y, x); }
    assert LinkAt(mem, b, 0, NEXT, PREV) && LinkAt(mem, b, 1, NEXT, PREV);
    assert LinkAt(mem, r, 0, NFREE, PFREE) && LinkAt(mem, r, 1, NFREE, PFREE);
    assert Flags(c.self, mem, b, U);
  }

  /** Allocating and at once releasing restores the block list, hence also the
      live allocations and the available bytes. */
  lemma AllocThenFree(c: Conf, s: seq<Blk>, a: nat, size: int)
    requires Tiles(s, c.start, c.Tail()) && a < |s| && s[a].free && 0 <= size <= s[a].len && size % 4 == 0
    ensures a < |Allocated(s, a, size)| && Released(Allocated(s, a, size), a) == s
  {
    hide Tiles;
    UsedNeighbours(c, s, a);
    var x, s1 := s[a], Allocated(s, a, size);
    if x.len >= size + SIZE + MINI {
      assert s1 == s[..a] + [Blk(x.addr, size, false), Blk(x.addr + SIZE + size, x.len - size - SIZE, true)] + s[a + 1..];
      assert Lo(s1, a) == a && Hi(s1, a) == a + 2;
      assert Released(s1, a) == s[..a] + [x] + s[a + 1..];
    } else {
      assert s1 == s[..a] + [x.(free := false)] + s[a + 1..];
      assert Lo(s1, a) == a && Hi(s1, a) == a + 1;
      assert Released(s1, a) == s[..a] + [x] + s[a + 1..];
    }
    assert s == s[..a] + [x] + s[a + 1..];
  }

  lemma UsedNeighbours(c: Conf, s: seq<Blk>, a: nat)
    requires Tiles(s, c.start, c.Tail()) && a < |s| && s[a].free
    ensures a > 0 ==> !s[a - 1].free
    ensures a + 1 < |s| ==> !s[a + 1].free
  {
    BlockAt(s, a, c.start);
    if a > 0 { BlockAt(s, a - 1, c.start); }
  }

  /** The blocks after block i serves a request of `size` bytes: split when the
      rest can hold a header and a minimal block. */
  function Allocated(s: seq<Blk>, i: nat, size: int): seq<Blk>
    requires i < |s|
  {
    if s[i].len >= size + SIZE + MINI then Cut(s, i, size) else Taken(s, i)
  }

  lemma AllocBytes(c: Conf, mem: Memory, s: seq<Blk>, fr: seq<int>, i: nat, size: int)
    requires Inv(c, mem, s, fr) && i < |s| && s[i].free && size % 4 == 0 && 0 <= size <= s[i].len
    ensures Aligned(size) && s[i].addr > 0
    ensures MINI <= size && LiveMin(s) ==> LiveMin(Allocated(s, i, size))
    ensures FreeBytes(Allocated(s, i, size)) ==
      FreeBytes(s) - (if s[i].len >= size + SIZE + MINI then size + SIZE else s[i].len)
  {
    ReadBlock(c, mem, s, fr, i);
    BlockAt(s, i, c.start);
    if s[i].len >= size + SIZE + MINI {
      CutTiles(s, i, size, c.start, c.Tail());
    } else {
      TakenTiles(s, i, c.start, c.Tail());
    }
  }

  lemma CutFacts(c: Conf, mem: Memory, s: seq<Blk>, fr: seq<int>, i: nat, size: int)
    requires Inv(c, mem, s, fr) && i < |s| && 0 <= size && Aligned(size) && size + SIZE <= s[i].len
    requires i + 1 < |s| && !s[i].free ==> !s[i + 1].free
    ensures var q, s2, I := s[i].addr + SIZE + size, Cut(s, i, size), Items(c, s);
      && Tiles(s2, c.start, c.Tail()) && s2 != [] && Headers(c, s2) == Insert(Headers(c, s), i + 1, q)
      && q !in I && q != c.hdr && Arena(I + {q}) && Backed(mem, I + {q}) && q !in UsedSet(c, s) && q !in fr
      && s[i].addr in I && s[i].addr in Headers(c, s) && s[i].addr != c.hdr && Headers(c, s)[i] == s[i].addr
    ensures NoDupInts(fr) && Covers(c, mem) && i < |Headers(c, s)|
    ensures Good(c.hdr, c.self, mem, Items(c, s), Headers(c, s), fr, UsedSet(c, s))
    ensures s[i].free ==> s[i].addr !in UsedSet(c, s)
  {
    var q, I, b := s[i].addr + SIZE + size, Items(c, s), Headers(c, s);
    BlockAt(s, i, c.start);
    CutTiles(s, i, size, c.start, c.Tail());
    CutHeaders(c, s, i, size);
    BetweenHeaders(c, s, i, q);
    Crowded(c, mem, s, q);
    hide Cut, Tiles, Arena, Backed;
    assert b[i] == s[i].addr;
    FreeInHeaders(c, s, fr);
    GoodDistinct(c.hdr, c.self, mem, I, b, fr, UsedSet(c, s));
    if s[i].free { FreeAt(s, i); }
  }

  lemma CutClose(c: Conf, mem0: Memory, mem: Memory, s: seq<Blk>, fr: seq<int>, i: nat, size: int, k: nat)
    requires Inv(c, mem0, s, fr) && i < |s| && k < |fr| && s[i].free && s[i].addr == fr[k]
    requires 0 <= size && Aligned(size) && size + SIZE <= s[i].len && Covers(c, mem)
    requires var q := s[i].addr + SIZE + size;
      Good(c.hdr, c.self, mem, Items(c, s) + {q}, Insert(Headers(c, s), i + 1, q), [q] + Remove(fr, k), UsedSet(c, s) + {fr[k]})
    ensures Inv(c, mem, Cut(s, i, size), [s[i].addr + SIZE + size] + Remove(fr, k))
    ensures s[i].addr + SIZE + size in Items(c, Cut(s, i, size))
  {
    hide Good, Cut;
    var q, s2, fr2, U := s[i].addr + SIZE + size, Cut(s, i, size), [s[i].addr + SIZE + size] + Remove(fr, k), UsedSet(c, s) + {fr[k]};
    CutFacts(c, mem0, s, fr, i, size);
    forall x ensures x in fr2 <==> FreeHeader(s2, x) {
      RemoveIn(fr, k, x);
      CutFree(s, i, size, c.start, x);
    }
    FreeInHeaders(c, s2, fr2);
    forall x | x in Headers(c, s2) ensures x in U <==> !FreeHeader(s2, x) {
      CutFree(s, i, size, c.start, x);
    }
    assert Headers(c, s2)[i + 1] == q;
    Close(c, mem, Items(c, s) + {q}, s2, fr2, U);
  }

  lemma DataChain(a: Memory, b: Memory, d: Memory, e: Memory, f: Memory, g: Memory, I: set<int>)
    requires DataKept(a, b, I) && DataKept(b, d, I) && DataKept(d, e, I) && DataKept(e, f, I) && DataKept(f, g, I)
    ensures DataKept(a, g, I)
  {
  }

  lemma DataSelf(mem: Memory, I: set<int>)
    ensures DataKept(mem, mem, I)
  {
  }

  lemma DataWider(a: Memory, d: Memory, I: set<int>, s: seq<Blk>, s2: seq<Blk>, c: Conf, q: int)
    requires I == Items(c, s)
    requires DataKept(a, d, I) || (DataKept(a, d, I + {q}) && q in Items(c, s2))
    ensures DataKept(a, d, I + Items(c, s2))
  {
    forall w | Quiet(w, I + Items(c, s2)) ensures Quiet(w, I) && (q in Items(c, s2) ==> Quiet(w, I + {q})) {
    }
  }

  /** Block i is free, is k-th in the free list, and is the first there with at
      least size bytes. */
  ghost predicate FirstFit(s: seq<Blk>, fr: seq<int>, size: int, i: nat, k: nat) {
    && i < |s| && k < |fr| && s[i].free && s[i].addr == fr[k] && s[i].len >= size
    && TooSmall(s, fr[..k], size)
  }

  ghost predicate TooSmall(s: seq<Blk>, xs: seq<int>, size: int) {
    forall j :: 0 <= j < |s| && s[j].free && s[j].addr in xs ==> s[j].len < size
  }

  lemma SmallerOne(c: Conf, s: seq<Blk>, fr: seq<int>, size: int, i: nat, k: nat)
    requires Tiles(s, c.start, c.Tail()) && k < |fr| && i < |s| && s[i].addr == fr[k] && s[i].len < size
    requires TooSmall(s, fr[..k], size)
    ensures TooSmall(s, fr[..k + 1], size)
  {
    forall j | 0 <= j < |s| && s[j].free && s[j].addr in fr[..k + 1] ensures s[j].len < size {
      if s[j].addr == s[i].addr {
        ChainAt(s, c.start, false, i);
        ChainAt(s, c.start, false, j);
        if j < i { ChainApart(s, c.start, false, j, i); }
        if i < j { ChainApart(s, c.start, false, i, j); }
      } else {
        assert s[j].addr in fr[..k];
      }
    }
  }

  lemma AllSmall(s: seq<Blk>, fr: seq<int>, size: int)
    requires FreeList(s, fr) && TooSmall(s, fr[..|fr|], size)
    ensures forall j :: 0 <= j < |s| && s[j].free ==> s[j].len < size
  {
    forall j | 0 <= j < |s| && s[j].free ensures s[j].len < size {
      FreeAt(s, j);
      assert s[j].addr in fr && fr[..|fr|] == fr;
    }
  }

  lemma DataThen(a: Memory, b: Memory, d: Memory, I: set<int>)
    ensures DataKept(a, b, I) && DataKept(b, d, I) ==> DataKept(a, d, I)
    ensures DataKept(a, b, I) && b == d ==> DataKept(a, d, I)
  {
  }

  lemma CoversKept(c: Conf, mem: Memory, mem2: Memory, I: set<int>)
    requires Covers(c, mem) && DataKept(mem, mem2, I)
    ensures Covers(c, mem2)
  {
  }

  lemma FreeNeighbours(hdr: int, self: int, mem: Memory, I: set<int>, b: seq<int>, fr: seq<int>, U: set<int>, k: nat)
    requires Good(hdr, self, mem, I, b, fr, U) && k < |fr|
    ensures Apart(Succ([hdr] + fr, k + 1), fr[k])
  {
    var s := [hdr] + fr;
    assert fr[k] in fr && Succ(s, k + 1) == if k + 1 < |fr| then fr[k + 1] else hdr;
    assert k + 1 < |fr| ==> fr[k + 1] in fr;
  }

  lemma FrontApart(hdr: int, self: int, mem: Memory, I: set<int>, b: seq<int>, fr: seq<int>, U: set<int>, x: int)
    requires Good(hdr, self, mem, I, b, fr, U) && x in I && x != hdr && x !in fr
    ensures Apart(x, hdr) && Apart(x, Succ([hdr] + fr, 0)) && x + NFREE in mem && x + PFREE in mem
    ensures Succ([hdr] + fr, 0) == hdr || Apart(Succ([hdr] + fr, 0), hdr)
  {
    assert Succ([hdr] + fr, 0) == if fr == [] then hdr else fr[0];
    assert fr != [] ==> fr[0] in fr;
  }

  lemma BlockNeighbours(hdr: int, self: int, mem: Memory, I: set<int>, b: seq<int>, fr: seq<int>, U: set<int>, j: nat)
    requires Good(hdr, self, mem, I, b, fr, U) && j < |b| && |b| >= 2
    ensures Apart(Succ(b, j), b[j])
  {
    var n := if j + 1 < |b| then j + 1 else 0;
    assert b[n] in b && b[j] in b && b[n] != b[j];
  }

  lemma BlockApart(hdr: int, self: int, mem: Memory, I: set<int>, b: seq<int>, fr: seq<int>, U: set<int>, j: nat, q: int)
    requires Good(hdr, self, mem, I, b, fr, U) && j < |b| && q !in I && Arena(I + {q})
    ensures Apart(q, b[j]) && Apart(q, Succ(b, j)) && (Succ(b, j) == b[j] || Apart(Succ(b, j), b[j]))
  {
    var n := if j + 1 < |b| then j + 1 else 0;
    assert b[n] in b && b[j] in b && q in I + {q} && b[n] in I + {q} && b[j] in I + {q};
  }
}
