/** The small heap of mem.c: blocks that tile the heap, and the headers in memory
    that describe them. Positions are offsets from heap_ptr. */
module SmallMemShape {

  /** SIZEOF_STRUCT_MEM and MIN_SIZE_ALIGNED. */
  const SIZE := 12
  const MIN := 12

  /** struct heap_mem. */
  datatype Hdr = Hdr(used: bool, next: int, prev: int)

  /** A block: its header, the header after it, its state. */
  datatype Blk = Blk(at: int, end: int, used: bool)

  function Len(b: Blk): int {
    b.end - b.at - SIZE
  }

  predicate Aligned(n: int) {
    n % 4 == 0
  }

  lemma AlignedSum(a: int, b: int)
    requires Aligned(a) && Aligned(b)
    ensures Aligned(a + b) && Aligned(a + SIZE)
  {
  }

  // ----- tilings -----

  function End(s: seq<Blk>, from: int): int {
    if s == [] then from else s[|s| - 1].end
  }

  function EndsFree(s: seq<Blk>, before: bool): bool {
    if s == [] then before else !s[|s| - 1].used
  }

  /** Blocks lie end to end from `from`. */
  predicate Tile(s: seq<Blk>, from: int) {
    s == [] || (s[0].at == from && s[0].end >= from + SIZE && Aligned(s[0].end) && Tile(s[1..], s[0].end))
  }

  /** No two neighbours are both free; `before`: a free block precedes. */
  predicate Calm(s: seq<Blk>, before: bool) {
    s == [] || (!(before && !s[0].used) && Calm(s[1..], !s[0].used))
  }

  lemma {:induction false} TileConcat(a: seq<Blk>, b: seq<Blk>, from: int)
    ensures Tile(a + b, from) <==> Tile(a, from) && Tile(b, End(a, from))
    ensures End(a + b, from) == End(b, End(a, from))
    decreases |a|
  {
    if a == [] {
      assert a + b == b;
    } else {
      assert (a + b)[1..] == a[1..] + b;
      TileConcat(a[1..], b, a[0].end);
    }
  }

  lemma {:induction false} CalmConcat(a: seq<Blk>, b: seq<Blk>, before: bool)
    ensures Calm(a + b, before) <==> Calm(a, before) && Calm(b, EndsFree(a, before))
    decreases |a|
  {
    if a == [] {
      assert a + b == b;
    } else {
      assert (a + b)[1..] == a[1..] + b;
      CalmConcat(a[1..], b, !a[0].used);
    }
  }

  lemma {:induction false} TileAt(s: seq<Blk>, from: int, i: nat)
    requires Tile(s, from) && i < |s|
    ensures from <= s[i].at == End(s[..i], from) && s[i].at + SIZE <= s[i].end <= End(s, from) && Aligned(s[i].end)
    ensures i + 1 < |s| ==> s[i + 1].at == s[i].end
    ensures i + 1 == |s| ==> s[i].end == End(s, from)
    decreases i
  {
    if i == 0 {
      TileEnds(s[1..], s[0].end);
    } else {
      TileAt(s[1..], s[0].end, i - 1);
      assert s[..i][1..] == s[1..][..i - 1];
    }
  }

  lemma {:induction false} TileEnds(s: seq<Blk>, from: int)
    requires Tile(s, from)
    ensures from <= End(s, from)
    ensures s != [] ==> from + SIZE <= End(s, from)
  {
    if s != [] { TileEnds(s[1..], s[0].end); }
  }

  lemma {:induction false} TileApart(s: seq<Blk>, from: int, i: nat, j: nat)
    requires Tile(s, from) && i < j < |s|
    ensures s[i].end <= s[j].at
    decreases j
  {
    TileAt(s, from, i);
    if j > i + 1 {
      TileApart(s, from, i, j - 1);
      TileAt(s, from, j - 1);
    }
  }

  lemma {:induction false} CalmAt(s: seq<Blk>, before: bool, i: nat)
    requires Calm(s, before) && i + 1 < |s|
    ensures s[i].used || s[i + 1].used
    decreases i
  {
    if i > 0 { CalmAt(s[1..], !s[0].used, i - 1); }
  }

  /** Bytes of used blocks, headers included. */
  function UsedBytes(s: seq<Blk>): int {
    if s == [] then 0 else (if s[0].used then s[0].end - s[0].at else 0) + UsedBytes(s[1..])
  }

  /** The allocations. */
  function Live(s: seq<Blk>): multiset<Blk> {
    if s == [] then multiset{} else (if s[0].used then multiset{s[0]} else multiset{}) + Live(s[1..])
  }

  lemma {:induction false} UsedConcat(a: seq<Blk>, b: seq<Blk>)
    ensures UsedBytes(a + b) == UsedBytes(a) + UsedBytes(b) && Live(a + b) == Live(a) + Live(b)
  {
    if a == [] {
      assert a + b == b;
    } else {
      assert (a + b)[1..] == a[1..] + b;
      UsedConcat(a[1..], b);
    }
  }

  // ----- headers -----

  /** Offset of the last header of a, or p. */
  function LastAt(a: seq<Blk>, p: int): int {
    if a == [] then p else a[|a| - 1].at
  }

  /** The headers in memory describe s: next is the next header and prev the one
      before, which is p for the first. */
  predicate Described(mem: map<int, Hdr>, s: seq<Blk>, p: int) {
    s == [] ||
    (s[0].at in mem && mem[s[0].at] == Hdr(s[0].used, s[0].end, p) && Described(mem, s[1..], s[0].at))
  }

  lemma {:induction false} DescribedConcat(mem: map<int, Hdr>, a: seq<Blk>, b: seq<Blk>, p: int)
    ensures Described(mem, a + b, p) <==> Described(mem, a, p) && Described(mem, b, LastAt(a, p))
    decreases |a|
  {
    if a == [] {
      assert a + b == b;
    } else {
      assert (a + b)[1..] == a[1..] + b;
      DescribedConcat(mem, a[1..], b, a[0].at);
    }
  }

  lemma {:induction false} DescribedAt(mem: map<int, Hdr>, s: seq<Blk>, p: int, i: nat)
    requires Described(mem, s, p) && i < |s|
    ensures s[i].at in mem && mem[s[i].at] == Hdr(s[i].used, s[i].end, if i == 0 then p else s[i - 1].at)
    decreases i
  {
    if i > 0 { DescribedAt(mem, s[1..], s[0].at, i - 1); }
  }

  /** The two memories hold the same headers from lo up to hi. */
  ghost predicate Same(m1: map<int, Hdr>, m2: map<int, Hdr>, lo: int, hi: int) {
    forall x :: lo <= x < hi && x in m1 ==> x in m2 && m2[x] == m1[x]
  }

  lemma {:induction false} DescribedFrame(m1: map<int, Hdr>, m2: map<int, Hdr>, s: seq<Blk>, p: int, from: int)
    requires Described(m1, s, p) && Tile(s, from) && Same(m1, m2, from, End(s, from))
    ensures Described(m2, s, p)
    decreases |s|
  {
    if s != [] {
      TileEnds(s[1..], s[0].end);
      DescribedFrame(m1, m2, s[1..], s[0].at, s[0].end);
    }
  }

  /** Only the first header of s gets a new predecessor. */
  ghost predicate Rebased(m1: map<int, Hdr>, m2: map<int, Hdr>, s: seq<Blk>, p: int, hi: int) {
    s != [] ==>
      && s[0].at in m1 && s[0].at in m2 && m2[s[0].at] == m1[s[0].at].(prev := p)
      && Same(m1, m2, s[0].at + 1, hi)
  }

  lemma DescribedRebase(m1: map<int, Hdr>, m2: map<int, Hdr>, s: seq<Blk>, p: int, q: int, from: int)
    requires Described(m1, s, p) && Tile(s, from) && Rebased(m1, m2, s, q, End(s, from))
    ensures Described(m2, s, q)
  {
    if s != [] { DescribedFrame(m1, m2, s[1..], s[0].at, s[0].end); }
  }

  /** Replacing the blocks m between a and z by mid: the headers before stay, the
      headers of mid are written, and the first header after gets its prev. */
  lemma Rewired(m1: map<int, Hdr>, m2: map<int, Hdr>, a: seq<Blk>, m: seq<Blk>, z: seq<Blk>, mid: seq<Blk>)
    requires Tile(a + (m + z), 0) && Described(m1, a + (m + z), 0) && mid != []
    requires Tile(mid, End(a, 0)) && End(mid, End(a, 0)) == End(m, End(a, 0))
    requires Same(m1, m2, 0, End(a, 0)) && Described(m2, mid, LastAt(a, 0))
    requires Rebased(m1, m2, z, LastAt(mid, 0), End(a + (m + z), 0))
    ensures Tile(a + (mid + z), 0) && End(a + (mid + z), 0) == End(a + (m + z), 0)
    ensures Described(m2, a + (mid + z), 0)
  {
    var at := End(a, 0);
    TileConcat(a, m + z, 0);
    TileConcat(m, z, at);
    TileConcat(mid, z, at);
    TileConcat(a, mid + z, 0);
    DescribedConcat(m1, a, m + z, 0);
    DescribedConcat(m1, m, z, LastAt(a, 0));
    DescribedConcat(m2, mid, z, LastAt(a, 0));
    DescribedConcat(m2, a, mid + z, 0);
    DescribedFrame(m1, m2, a, 0, 0);
    DescribedRebase(m1, m2, z, LastAt(m, LastAt(a, 0)), LastAt(mid, 0), End(m, at));
  }
}
