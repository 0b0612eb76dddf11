/** The invariant of a memheap, and its preservation by the pointer writes of
    each operation. */
module MemHeapInv {
  import opened Words
  import opened MemHeapCore
  import opened MemHeapLists
  import opened MemHeapShape

  /** A pool of `size` bytes at `start`, the address `hdr` of the free-list
      header, which lies outside the pool, and the address of the heap object. */
  datatype Conf = Conf(start: int, size: int, hdr: int, self: int) {
    ghost predicate Ok() {
      && 0 < start && Aligned(start) && Aligned(size) && 2 * SIZE <= size && start + size <= TWO32
      && 0 < hdr && (hdr + SIZE <= start || start + size <= hdr)
    }
    function Tail(): int { start + size - SIZE }
  }

  /** Headers in the block list: those of the blocks and the used tail. */
  function Headers(c: Conf, s: seq<Blk>): seq<int> { Addrs(s) + [c.Tail()] }

  ghost function Items(c: Conf, s: seq<Blk>): set<int> { (set x <- Headers(c, s)) + {c.hdr} }

  ghost predicate Covers(c: Conf, mem: Memory) {
    && (forall w :: c.start <= w < c.start + c.size ==> w in mem)
    && (forall w :: c.hdr <= w < c.hdr + SIZE ==> w in mem)
  }

  /** fr lists exactly the free blocks of s. */
  ghost predicate FreeList(s: seq<Blk>, fr: seq<int>) {
    forall x :: x in fr <==> FreeHeader(s, x)
  }

  ghost predicate Marks(c: Conf, s: seq<Blk>, U: set<int>) {
    forall x :: x in Headers(c, s) ==> (x in U <==> !FreeHeader(s, x))
  }

  ghost function UsedSet(c: Conf, s: seq<Blk>): set<int> {
    set x | x in Headers(c, s) && !FreeHeader(s, x)
  }

  /** The whole invariant: the blocks tile the pool and are coalesced; next and
      prev link them, with the tail, into one ring; next_free and prev_free link
      exactly the free ones behind the header; the used marks agree. */
  ghost predicate Inv(c: Conf, mem: Memory, s: seq<Blk>, fr: seq<int>) {
    && c.Ok() && Covers(c, mem) && Tiles(s, c.start, c.Tail()) && s != []
    && Good(c.hdr, c.self, mem, Items(c, s), Headers(c, s), fr, UsedSet(c, s))
    && FreeList(s, fr)
  }

  lemma TilesArena(c: Conf, s: seq<Blk>)
    requires c.Ok() && Tiles(s, c.start, c.Tail())
    ensures Arena(Items(c, s)) && NoDupInts(Headers(c, s)) && c.hdr !in Headers(c, s)
    ensures forall x :: x in Headers(c, s) ==> c.start <= x <= c.Tail()
  {
    var tail, b := c.Tail(), Headers(c, s);
    forall i | 0 <= i < |b| ensures c.start <= b[i] <= tail {
      if i < |s| { ChainAt(s, c.start, false, i); } else { ChainEnds(s, c.start, false); }
    }
    forall i, j | 0 <= i < j < |b| ensures b[i] + SIZE <= b[j] {
      ChainAt(s, c.start, false, i);
      if j < |s| { ChainApart(s, c.start, false, i, j); }
    }
    forall x, y | x in Items(c, s) && y in Items(c, s) && x != y ensures Apart(x, y) {
      if x in b && y in b {
        var i :| 0 <= i < |b| && b[i] == x;
        var j :| 0 <= j < |b| && b[j] == y;
        assert i < j || j < i;
      }
    }
  }

  /** Back from the lists to the invariant. */
  lemma Close(c: Conf, mem: Memory, I: set<int>, s: seq<Blk>, fr: seq<int>, U: set<int>)
    requires c.Ok() && Covers(c, mem) && Tiles(s, c.start, c.Tail()) && s != []
    requires Good(c.hdr, c.self, mem, I, Headers(c, s), fr, U) && Marks(c, s, U) && FreeList(s, fr)
    requires forall x :: x in fr ==> x in Headers(c, s)
    ensures Inv(c, mem, s, fr)
  {
    var b, U2 := Headers(c, s), UsedSet(c, s);
    TilesArena(c, s);
    forall x <- b ensures Flag(c.self, mem, x, x in U2) {
      assert Flag(c.self, mem, x, x in U);
    }
  }

  lemma FreeInHeaders(c: Conf, s: seq<Blk>, fr: seq<int>)
    requires FreeList(s, fr)
    ensures forall x :: x in fr ==> x in Headers(c, s)
  {
    forall x | x in fr ensures x in Headers(c, s) {
      var i := FreeBlock(s, x);
      assert Headers(c, s)[i] == x;
    }
  }

  /** Block i in memory: where its links point. */
  lemma ReadBlock(c: Conf, mem: Memory, s: seq<Blk>, fr: seq<int>, i: nat)
    requires Inv(c, mem, s, fr) && i < |s|
    ensures forall w :: s[i].addr <= w < s[i].addr + SIZE ==> w in mem
    ensures mem[s[i].addr + NEXT] == s[i].addr + SIZE + s[i].len == Headers(c, s)[i + 1]
    ensures mem[s[i].addr + PREV] == if i > 0 then s[i - 1].addr else c.Tail()
    ensures mem[s[i].addr] == if s[i].free then MAGIC else MAGIC + USED
    ensures s[i].free <==> s[i].addr in fr
    ensures c.start <= s[i].addr && s[i].len >= 0 && s[i].addr + SIZE + s[i].len <= c.Tail()
  {
    var b := Headers(c, s);
    assert b[i] == s[i].addr && b[i] in b;
    assert LinkAt(mem, b, i, NEXT, PREV);
    assert Flag(c.self, mem, b[i], b[i] in UsedSet(c, s));
    ChainAt(s, c.start, false, i);
    if s[i].free { FreeAt(s, i); } else { UsedAt(s, i, c.start); }
  }

  lemma ReadTail(c: Conf, mem: Memory, s: seq<Blk>, fr: seq<int>)
    requires Inv(c, mem, s, fr)
    ensures c.Tail() in mem && mem[c.Tail()] == MAGIC + USED && !FreeHeader(s, c.Tail())
  {
    var b := Headers(c, s);
    assert b[|s|] == c.Tail() && b[|s|] in b;
    assert Flag(c.self, mem, c.Tail(), c.Tail() in UsedSet(c, s));
    if FreeHeader(s, c.Tail()) { FreeRange(s, c.start, false, c.Tail()); assert false; }
  }

  lemma ReadFree(c: Conf, mem: Memory, s: seq<Blk>, fr: seq<int>, k: nat)
    requires Inv(c, mem, s, fr) && k <= |fr|
    ensures forall w :: c.hdr <= w < c.hdr + SIZE ==> w in mem
    ensures var x := ([c.hdr] + fr)[k];
      && x + NFREE in mem && mem[x + NFREE] == (if k < |fr| then fr[k] else c.hdr)
      && x + PFREE in mem && mem[x + PFREE] == Pred([c.hdr] + fr, k)
  {
    assert LinkAt(mem, [c.hdr] + fr, k, NFREE, PFREE);
  }

  lemma RemoveIn(s: seq<int>, k: nat, x: int)
    requires k < |s| && NoDupInts(s)
    ensures x in Remove(s, k) <==> x in s && x != s[k]
  {
    if x in s && x != s[k] {
      var i :| 0 <= i < |s| && s[i] == x;
      assert Remove(s, k)[if i < k then i else i - 1] == x;
    }
  }

  lemma SpliceHeaders(c: Conf, s: seq<Blk>, i: nat, k: nat, mid: seq<Blk>)
    requires i <= k <= |s|
    ensures Headers(c, Splice(s, i, k, mid)) == Headers(c, s)[..i] + Addrs(mid) + Headers(c, s)[k..]
  {
  }

  // ----- the free blocks and headers after each operation -----

  lemma FreeOf1(y: Blk, x: int)
    ensures FreeHeader([y], x) <==> y.free && y.addr == x
  {
    assert [y][1..] == [];
  }

  lemma FreeOf2(y: Blk, z: Blk, x: int)
    ensures FreeHeader([y, z], x) <==> (y.free && y.addr == x) || (z.free && z.addr == x)
  {
    assert [y, z][1..] == [z];
    FreeOf1(z, x);
  }

  lemma TakenHeaders(c: Conf, s: seq<Blk>, i: nat)
    requires i < |s|
    ensures Taken(s, i) != [] && Headers(c, Taken(s, i)) == Headers(c, s)
  {
    var y, b := s[i].(free := false), Headers(c, s);
    SpliceHeaders(c, s, i, i + 1, [y]);
    assert Addrs([y]) == [b[i]];
  }

  lemma TakenFree(s: seq<Blk>, i: nat, start: int, x: int)
    requires Chain(s, start, false) && i < |s| && s[i].free
    ensures FreeHeader(Taken(s, i), x) <==> FreeHeader(s, x) && x != s[i].addr
  {
    hide Chain, Splice;
    var y := s[i].(free := false);
    assert s[i..i + 1] == [s[i]];
    SpliceFree(s, i, i + 1, [y], start, x);
    FreeOf1(s[i], x);
    FreeOf1(y, x);
  }

  lemma CutHeaders(c: Conf, s: seq<Blk>, i: nat, len: int)
    requires i < |s|
    ensures Cut(s, i, len) != []
    ensures Headers(c, Cut(s, i, len)) == Insert(Headers(c, s), i + 1, s[i].addr + SIZE + len)
  {
    var y, b := s[i], Headers(c, s);
    var u, v := Blk(y.addr, len, false), Blk(y.addr + SIZE + len, y.len - len - SIZE, true);
    SpliceHeaders(c, s, i, i + 1, [u, v]);
    assert Addrs([u, v]) == [b[i], v.addr];
  }

  lemma CutFree(s: seq<Blk>, i: nat, len: int, start: int, x: int)
    requires Chain(s, start, false) && i < |s|
    ensures FreeHeader(Cut(s, i, len), x) <==>
      (FreeHeader(s, x) && !(s[i].free && x == s[i].addr)) || x == s[i].addr + SIZE + len
  {
    hide Chain, Splice;
    var y := s[i];
    var u, v := Blk(y.addr, len, false), Blk(y.addr + SIZE + len, y.len - len - SIZE, true);
    assert s[i..i + 1] == [y];
    SpliceFree(s, i, i + 1, [u, v], start, x);
    FreeOf1(y, x);
    FreeOf2(u, v, x);
  }

  lemma MovedHeaders(c: Conf, s: seq<Blk>, i: nat, len: int)
    requires i + 1 < |s|
    ensures Moved(s, i, len) != []
    ensures Headers(c, Moved(s, i, len)) == Insert(Remove(Headers(c, s), i + 1), i + 1, s[i].addr + SIZE + len)
  {
    var y, z, b := s[i], s[i + 1], Headers(c, s);
    var u, v := Blk(y.addr, len, false), Blk(y.addr + SIZE + len, y.len + z.len - len, true);
    SpliceHeaders(c, s, i, i + 2, [u, v]);
    assert Addrs([u, v]) == [b[i], v.addr];
  }

  lemma MovedFree(s: seq<Blk>, i: nat, len: int, start: int, x: int)
    requires Chain(s, start, false) && i + 1 < |s| && !s[i].free && s[i + 1].free
    ensures FreeHeader(Moved(s, i, len), x) <==>
      (FreeHeader(s, x) && x != s[i + 1].addr) || x == s[i].addr + SIZE + len
  {
    hide Chain, Splice;
    var y, z := s[i], s[i + 1];
    var u, v := Blk(y.addr, len, false), Blk(y.addr + SIZE + len, y.len + z.len - len, true);
    assert s[i..i + 2] == [y, z];
    SpliceFree(s, i, i + 2, [u, v], start, x);
    FreeOf2(y, z, x);
    FreeOf2(u, v, x);
  }

  /** Headers of the block list after the blocks from lo up to hi merge. */
  function MergedHeaders(b: seq<int>, lo: nat, hi: nat): seq<int>
    requires lo < hi <= |b|
  {
    b[..lo + 1] + b[hi..]
  }

  lemma ReleasedHeaders(c: Conf, s: seq<Blk>, i: nat)
    requires i < |s|
    ensures Released(s, i) != []
    ensures Headers(c, Released(s, i)) == MergedHeaders(Headers(c, s), Lo(s, i), Hi(s, i))
  {
    var lo, hi, b := Lo(s, i), Hi(s, i), Headers(c, s);
    var y := Blk(s[lo].addr, s[hi - 1].addr + s[hi - 1].len - s[lo].addr, true);
    SpliceHeaders(c, s, lo, hi, [y]);
    assert Addrs([y]) == [b[lo]];
  }

  lemma ReleasedFree(s: seq<Blk>, i: nat, start: int, x: int)
    requires Chain(s, start, false) && i < |s| && !s[i].free
    ensures FreeHeader(Released(s, i), x) <==>
      (FreeHeader(s, x) && !(Hi(s, i) > i + 1 && x == s[i + 1].addr)) || x == s[Lo(s, i)].addr
  {
    hide Chain, Splice;
    var lo, hi := Lo(s, i), Hi(s, i);
    var y := Blk(s[lo].addr, s[hi - 1].addr + s[hi - 1].len - s[lo].addr, true);
    SpliceFree(s, lo, hi, [y], start, x);
    FreeOf1(y, x);
    StretchFree(s, i, x);
  }

  lemma StretchFree(s: seq<Blk>, i: nat, x: int)
    requires i < |s| && !s[i].free
    ensures FreeHeader(s[Lo(s, i)..Hi(s, i)], x) <==>
      (Lo(s, i) < i && x == s[Lo(s, i)].addr) || (Hi(s, i) > i + 1 && x == s[i + 1].addr)
  {
    hide FreeHeader, Lo, Hi;
    var lo, hi := Lo(s, i), Hi(s, i);
    StretchParts(s, lo, hi, i);
    var left, mid, right := s[lo..i], [s[i]], s[i + 1..hi];
    FreeConcat(left, mid + right, x);
    FreeConcat(mid, right, x);
    FreeOf0(x);
    FreeOf1(s[i], x);
    FreeOf1(s[lo], x);
    if hi > i + 1 { FreeOf1(s[i + 1], x); }
  }

  lemma FreeOf0(x: int)
    ensures !FreeHeader([], x)
  {
  }

  // ----- room for a new header -----

  /** A header that the new tiling has, and the old one did not, fits between
      the others. */
  lemma RoomFor(c: Conf, mem: Memory, I: set<int>, s2: seq<Blk>, j: nat)
    requires c.Ok() && Covers(c, mem) && Tiles(s2, c.start, c.Tail()) && j < |s2|
    requires forall x :: x in I ==> x == c.hdr || (x in Headers(c, s2) && x != s2[j].addr)
    ensures s2[j].addr !in I && Arena(I + {s2[j].addr}) && Backed(mem, I + {s2[j].addr})
  {
    var q, J := s2[j].addr, I + {s2[j].addr};
    TilesArena(c, s2);
    assert Headers(c, s2)[j] == q;
    assert q in Headers(c, s2);
    forall x, y | x in J && y in J && x != y ensures Apart(x, y) {
      assert x in Items(c, s2) && y in Items(c, s2);
    }
  }

  lemma InsertOnly(b: seq<int>, k: nat, q: int)
    requires k <= |b| && NoDupInts(Insert(b, k, q))
    ensures forall x :: x in b ==> x in Insert(b, k, q) && x != q
  {
    var t := Insert(b, k, q);
    assert t[k] == q;
    forall x | x in b ensures x in t && x != q {
      var i :| 0 <= i < |b| && b[i] == x;
      var j := if i < k then i else i + 1;
      assert t[j] == x && j != k;
    }
  }

  lemma GoodShrink(hdr: int, self: int, mem: Memory, I: set<int>, J: set<int>, b: seq<int>, fr: seq<int>, U: set<int>)
    requires Good(hdr, self, mem, I, b, fr, U) && hdr in J
    requires forall x :: x in J ==> x in I
    requires forall x :: x in b || x in fr ==> x in J
    ensures Good(hdr, self, mem, J, b, fr, U)
  {
  }

  lemma GoodDistinct(hdr: int, self: int, mem: Memory, I: set<int>, b: seq<int>, fr: seq<int>, U: set<int>)
    requires Good(hdr, self, mem, I, b, fr, U)
    ensures NoDupInts(fr) && NoDupInts(b) && hdr !in b && hdr !in fr
    ensures forall x :: x in b || x in fr || x == hdr ==> x in I
  {
  }

  // ----- the users' bytes -----

  /** The data of a block lies outside every header. */
  lemma DataQuiet(c: Conf, s: seq<Blk>, i: nat, w: int)
    requires c.Ok() && Tiles(s, c.start, c.Tail()) && i < |s|
    requires s[i].addr + SIZE <= w < s[i].addr + SIZE + s[i].len
    ensures Quiet(w, Items(c, s)) && c.start <= w < c.Tail()
  {
    var b := Headers(c, s);
    ChainAt(s, c.start, false, i);
    forall x | x in Items(c, s) ensures w < x || x + SIZE <= w {
      if x != c.hdr {
        var j :| 0 <= j < |b| && b[j] == x;
        if j < i { ChainApart(s, c.start, false, j, i); ChainAt(s, c.start, false, j); }
        if i < j < |s| { ChainApart(s, c.start, false, i, j); }
      }
    }
  }

  /** Writing a word outside every header keeps the invariant. */
  lemma UserWrite(c: Conf, mem: Memory, s: seq<Blk>, fr: seq<int>, w: int, v: int)
    requires Inv(c, mem, s, fr) && Quiet(w, Items(c, s)) && w in mem
    ensures Inv(c, mem[w := v], s, fr)
  {
    var m2, b, r, U := mem[w := v], Headers(c, s), [c.hdr] + fr, UsedSet(c, s);
    forall i | 0 <= i < |b| ensures LinkAt(m2, b, i, NEXT, PREV) {
      assert LinkAt(mem, b, i, NEXT, PREV) && b[i] in b && b[i] in Items(c, s);
    }
    forall i | 0 <= i < |r| ensures LinkAt(m2, r, i, NFREE, PFREE) {
      assert LinkAt(mem, r, i, NFREE, PFREE) && r[i] in Items(c, s);
    }
    forall x <- b ensures Flag(c.self, m2, x, x in U) {
      assert Flag(c.self, mem, x, x in U) && x in Items(c, s);
    }
  }

  /** The word at offset w from a in one memory is the one at the same offset
      from b in the other. */
  ghost predicate SameWord(m1: Memory, a: int, m2: Memory, b: int, w: int) {
    a + w in m1 && b + w in m2 && m1[a + w] == m2[b + w]
  }

  ghost predicate KeptWord(m1: Memory, m2: Memory, x: Blk, w: int) {
    SameWord(m2, x.addr + SIZE, m1, x.addr + SIZE, w)
  }

  /** The data of block x is the same in both memories. */
  ghost predicate SameData(m1: Memory, m2: Memory, x: Blk) {
    forall w :: 0 <= w < x.len ==> KeptWord(m1, m2, x, w)
  }

  /** Every live block of s except x keeps its data. */
  ghost predicate OthersKept(s: seq<Blk>, x: Blk, m1: Memory, m2: Memory) {
    forall y :: y in Live(s) && y != x ==> SameData(m1, m2, y)
  }

  lemma {:induction false} LiveIndex(s: seq<Blk>, x: Blk) returns (i: nat)
    requires x in Live(s)
    ensures i < |s| && s[i] == x && !x.free
  {
    if s[0] == x && !x.free {
      i := 0;
    } else {
      i := LiveIndex(s[1..], x);
      i := i + 1;
    }
  }

  lemma {:induction false} LiveAt(s: seq<Blk>, i: nat)
    requires i < |s| && !s[i].free
    ensures s[i] in Live(s)
  {
    if i > 0 { LiveAt(s[1..], i - 1); }
  }

  /** A block that is live before and after keeps its data when only headers
      are written. */
  lemma LiveDataKept(c: Conf, m1: Memory, m2: Memory, s: seq<Blk>, s2: seq<Blk>, x: Blk)
    requires c.Ok() && Covers(c, m1) && Tiles(s, c.start, c.Tail()) && Tiles(s2, c.start, c.Tail())
    requires x in Live(s) && x in Live(s2) && DataKept(m1, m2, Items(c, s) + Items(c, s2))
    ensures SameData(m1, m2, x)
  {
    var i := LiveIndex(s, x);
    var j := LiveIndex(s2, x);
    forall w | 0 <= w < x.len ensures KeptWord(m1, m2, x, w) {
      DataQuiet(c, s, i, x.addr + SIZE + w);
      DataQuiet(c, s2, j, x.addr + SIZE + w);
    }
  }
}
