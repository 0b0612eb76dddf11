/** rt_malloc, rt_free and rt_realloc of the small heap. */
module SmallMem {
  import opened Words
  import opened SmallMemShape
  import opened SmallMemOps

  /** A result of malloc: the offset of the data, or RT_NULL. */
  datatype Ptr = Null | Off(n: int)

  // ----- the region -----

  datatype Region = NoRegion | Region(start: int, bytes: int)

  /** rt_system_heap_init: the aligned part of the region less two headers, or
      nothing when these do not fit. */
  function HeapRegion(begin: nat, end: nat): Region {
    var b, e := Align(begin), end - end % 4;
    if e > 2 * SIZE && e - 2 * SIZE >= b then Region(b, e - b - 2 * SIZE) else NoRegion
  }

  /** The heap and its two headers lie aligned inside the region given, and are
      refused exactly when they do not fit there. */
  lemma RegionFits(begin: nat, end: nat)
    requires begin <= TWO32 - 4 && end < TWO32
    ensures var r := HeapRegion(begin, end);
      if r.Region? then
        && r.start % 4 == 0 && r.bytes % 4 == 0 && r.bytes >= 0
        && begin <= r.start < begin + 4 && end - 4 < r.start + r.bytes + 2 * SIZE <= end
      else end < 28 || forall x :: begin <= x && x % 4 == 0 ==> x + 2 * SIZE > end - end % 4
  {
    AlignExact(begin);
  }

  // ----- the lowest-free cursor -----

  ghost predicate FreeAt(s: seq<Blk>, x: int) {
    exists i :: 0 <= i < |s| && s[i].at == x && !s[i].used
  }

  /** lfree is a free block or the end stub. */
  ghost predicate Cursor(s: seq<Blk>, x: int, m: nat) {
    x == m + SIZE || FreeAt(s, x)
  }

  /** Every block below lfree is used. */
  ghost predicate Low(s: seq<Blk>, x: int) {
    forall i :: 0 <= i < |s| && s[i].at < x ==> s[i].used
  }

  /** The cursor after the blocks around free block i are merged. */
  function AfterMerge(s: seq<Blk>, i: nat, x: int): int
    requires i < |s|
  {
    if s[Lo(s, i)].at <= x < s[Hi(s, i) - 1].end then s[Lo(s, i)].at else x
  }

  lemma MergedAt(s: seq<Blk>, i: nat)
    requires i < |s|
    ensures var t := Merged(s, i); var lo, hi := Lo(s, i), Hi(s, i);
      && |t| == |s| - (hi - lo) + 1 && t[lo] == Blk(s[lo].at, s[hi - 1].end, false)
      && (forall j :: 0 <= j < lo ==> t[j] == s[j])
      && (forall j :: hi <= j < |s| ==> t[j - (hi - lo) + 1] == s[j])
  {
  }

  lemma MergedCursor(s: seq<Blk>, i: nat, x: int, m: nat)
    requires Tile(s, 0) && End(s, 0) == m + SIZE && i < |s| && Cursor(s, x, m)
    ensures Cursor(Merged(s, i), AfterMerge(s, i, x), m)
  {
    hide Tile, Merged, Aligned;
    MergedAt(s, i);
    var t := Merged(s, i);
    var lo, hi := Lo(s, i), Hi(s, i);
    TileAt(s, 0, hi - 1);
    if AfterMerge(s, i, x) == s[lo].at {
      assert t[lo].at == s[lo].at && !t[lo].used;
    } else if x != m + SIZE {
      var k :| 0 <= k < |s| && s[k].at == x && !s[k].used;
      if k > lo { TileApart(s, 0, lo, k); }
      if k < hi - 1 { TileApart(s, 0, k, hi - 1); }
      TileAt(s, 0, lo);
      TileAt(s, 0, k);
      assert k < lo || k >= hi;
      assert t[if k < lo then k else k - (hi - lo) + 1] == s[k];
    }
  }

  lemma MergedLow(s: seq<Blk>, i: nat, x: int)
    requires Tile(s, 0) && i < |s| && !s[i].used && Low(s, x)
    ensures Low(Merged(s, i), AfterMerge(s, i, x))
  {
    hide Tile, Merged, Aligned;
    MergedAt(s, i);
    var t := Merged(s, i);
    var lo, hi := Lo(s, i), Hi(s, i);
    var y := AfterMerge(s, i, x);
    if lo < i { TileApart(s, 0, lo, i); TileAt(s, 0, lo); }
    TileAt(s, 0, i);
    if i < hi - 1 { TileApart(s, 0, i, hi - 1); TileAt(s, 0, hi - 1); }
    forall j | 0 <= j < |t| && t[j].at < y ensures t[j].used {
      if j > lo { assert t[j] == s[j + (hi - lo) - 1]; }
    }
  }

  /** Merging forward and then backward gives the merged blocks. */
  lemma PairMerged(s: seq<Blk>, i: nat)
    requires i + 1 < |s| && !s[i].used && !s[i + 1].used
    ensures var s1 := Pair(s, i);
      i < |s1| && s1[i] == Blk(s[i].at, s[i + 1].end, false) && s1[..i] == s[..i] && s1[i + 1..] == s[i + 2..]
  {
  }

  lemma MergedCases(s: seq<Blk>, i: nat)
    requires i < |s| && !s[i].used
    ensures var s1 := if i + 1 < |s| && !s[i + 1].used then Pair(s, i) else s;
      && i < |s1| && s1[i].at == s[i].at && !s1[i].used && (i > 0 ==> s1[i - 1] == s[i - 1])
      && Merged(s, i) == if i > 0 && !s[i - 1].used then Pair(s1, i - 1) else s1
  {
    var s1 := if i + 1 < |s| && !s[i + 1].used then Pair(s, i) else s;
    if i + 1 < |s| && !s[i + 1].used { PairMerged(s, i); }
    var hi := Hi(s, i);
    assert s1[i].end == s[hi - 1].end && s1[i + 1..] == s[hi..] && s1[..i] == s[..i];
    if i > 0 && !s[i - 1].used {
      assert s1[..i - 1] == s[..i - 1] && s1[i - 1] == s1[..i][i - 1];
    } else {
      assert s1 == s1[..i] + ([s1[i]] + s1[i + 1..]);
    }
  }

  // ----- allocation -----

  /** The block that the search returns: the first free one from lfree on that
      fits, among those that start before m - size. */
  ghost predicate Chosen(s: seq<Blk>, x: int, size: int, m: nat, i: int) {
    && 0 <= i < |s| && x <= s[i].at < m - size && !s[i].used && Len(s[i]) >= size
    && forall j :: 0 <= j < i && x <= s[j].at ==> s[j].used || Len(s[j]) < size
  }

  ghost predicate NoneFits(s: seq<Blk>, x: int, size: int, m: nat) {
    forall j :: 0 <= j < |s| && x <= s[j].at < m - size ==> s[j].used || Len(s[j]) < size
  }

  /** With every block below lfree used, the search is first fit over the whole
      heap. */
  lemma FirstFit(s: seq<Blk>, x: int, size: int, m: nat, i: int)
    requires Tile(s, 0) && Low(s, x) && x >= 0
    ensures Chosen(s, x, size, m, i) <==> Chosen(s, 0, size, m, i)
    ensures NoneFits(s, x, size, m) <==> NoneFits(s, 0, size, m)
  {
    forall j | 0 <= j < |s| ensures s[j].at >= 0 { TileAt(s, 0, j); }
  }

  /** The bound on the start shuts out one block only: the last one, when the
      request takes it exactly. */
  lemma BoundMisses(s: seq<Blk>, size: int, m: nat, i: nat)
    requires Tile(s, 0) && End(s, 0) == m + SIZE && i < |s| && Len(s[i]) >= size
    ensures s[i].at >= m - size <==> i == |s| - 1 && Len(s[i]) == size
  {
    TileAt(s, 0, i);
    if i < |s| - 1 {
      TileAt(s, 0, i + 1);
    }
  }

  /** Block i allocated: cut when the rest can hold a header and MIN bytes. */
  function Alloced(s: seq<Blk>, i: nat, size: int): seq<Blk>
    requires i < |s|
  {
    if Len(s[i]) >= size + SIZE + MIN then Cut(s, i, size) else s[i := s[i].(used := true)]
  }

  lemma AllocedAt(s: seq<Blk>, i: nat, size: int)
    requires i < |s|
    ensures var t := Alloced(s, i, size);
      && i < |t| && t[i].at == s[i].at && t[i].used && |t| >= |s|
      && (forall j :: 0 <= j < i ==> t[j] == s[j])
      && (forall j :: i < j < |s| ==> t[j + |t| - |s|] == s[j])
  {
    hide Cut;
    CutAt(s, i, size);
  }

  lemma AllocedCursor(s: seq<Blk>, i: nat, size: int, x: int, m: nat)
    requires i < |s| && Cursor(s, x, m) && x != s[i].at
    ensures Cursor(Alloced(s, i, size), x, m)
  {
    hide Alloced;
    AllocedAt(s, i, size);
    var t := Alloced(s, i, size);
    if x != m + SIZE {
      var k :| 0 <= k < |s| && s[k].at == x && !s[k].used;
      assert t[if k < i then k else k + |t| - |s|] == s[k];
    }
  }

  lemma AllocedLow(s: seq<Blk>, i: nat, size: int, x: int)
    requires i < |s| && Tile(s, 0) && Low(s, x) && x <= s[i].at && Tile(Alloced(s, i, size), 0)
    ensures Low(Alloced(s, i, size), x)
  {
    AllocedAt(s, i, size);
    var t := Alloced(s, i, size);
    forall j | 0 <= j < |t| && t[j].at < x ensures t[j].used {
      if j > i { TileApart(t, 0, i, j); TileAt(t, 0, i); }
    }
  }

  /** The shape, the accounting and the allocations after an allocation. */
  lemma AllocedGood(s: seq<Blk>, i: nat, size: int, m: nat)
    requires i < |s| && !s[i].used && Calm(s, false)
    ensures var t := Alloced(s, i, size);
      && i < |t| && Calm(t, false) && Live(t) == Live(s) + multiset{t[i]}
      && UsedBytes(t) == UsedBytes(s) + t[i].end - t[i].at
    ensures var t := Alloced(s, i, size);
      if |t| > |s| then i + 1 < |t| && Len(t[i]) == size && Len(t[i + 1]) >= MIN && !t[i + 1].used
      else t[i].end == s[i].end && Len(t[i]) < size + SIZE + MIN
  {
    hide Calm, Live, UsedBytes;
    if Len(s[i]) >= size + SIZE + MIN {
      if i + 1 < |s| { CalmAt(s, false, i); }
      CutCalm(s, i, size);
      CutSums(s, i, size);
    } else {
      MarkCalm(s, i);
      MarkSums(s, i, true);
    }
  }

  // ----- the heap -----

  ghost predicate Sound(mem: map<int, Hdr>, s: seq<Blk>, m: nat, x: int) {
    Good(mem, s, m) && Calm(s, false) && Cursor(s, x, m)
  }

  /** The used block whose data starts at p. */
  ghost predicate Owns(s: seq<Blk>, p: int, i: int) {
    0 <= i < |s| && s[i].used && s[i].at + SIZE == p
  }

  lemma CursorAt(mem: map<int, Hdr>, s: seq<Blk>, m: nat, x: int) returns (j: nat)
    requires Good(mem, s, m) && Cursor(s, x, m)
    ensures j <= |s| && x == (if j < |s| then s[j].at else m + SIZE) && x in mem && 0 <= x
    ensures forall k :: 0 <= k < j ==> s[k].at < x
  {
    if x == m + SIZE {
      j := |s|;
    } else {
      j :| 0 <= j < |s| && s[j].at == x && !s[j].used;
      HeaderAt(mem, s, m, j);
    }
    forall k | 0 <= k < j ensures s[k].at < x {
      HeaderAt(mem, s, m, k);
      if j < |s| { TileApart(s, 0, k, j); }
    }
  }

  class SmallHeap {
    const m: nat
    var mem: map<int, Hdr>
    var lfree: int
    var used: int
    var maxUsed: int
    ghost var blocks: seq<Blk>

    /** Blocks tile the heap and agree with the headers, no free neighbours, the
        cursor is a free block or the end, and the accounting is exact. */
    ghost predicate Valid()
      reads this
    {
      && Sound(mem, blocks, m, lfree) && used == UsedBytes(blocks) <= maxUsed
      && MIN <= m && m + 2 * SIZE < TWO32 && Aligned(m)
    }

    /** rt_system_heap_init for a heap of m aligned bytes and two headers. */
    constructor (m: nat)
      requires MIN <= m && m + 2 * SIZE < TWO32 && m % 4 == 0
      ensures Valid() && this.m == m && blocks == [Blk(0, m + SIZE, false)] && Low(blocks, lfree) && used == 0
    {
      this.m := m;
      mem := map[0 := Hdr(false, m + SIZE, 0), m + SIZE := Hdr(true, m + SIZE, m + SIZE)];
      lfree, used, maxUsed := 0, 0, 0;
      blocks := [Blk(0, m + SIZE, false)];
      new;
      OneBlock(mem, blocks[0], 0);
      AlignedSum(m, 0);
      assert blocks[0].at == 0;
    }

    /** plug_holes for the free block at p, which is block i. */
    method PlugHoles(p: int, ghost i: nat)
      requires Good(mem, blocks, m) && i < |blocks| && blocks[i].at == p && !blocks[i].used
      requires Cursor(blocks, lfree, m) && Calm(blocks[i := blocks[i].(used := true)], false)
      modifies this`mem, this`lfree, this`blocks
      ensures blocks == Merged(old(blocks), i) && lfree == AfterMerge(old(blocks), i, old(lfree))
      ensures Sound(mem, blocks, m, lfree)
    {
      hide Good, Calm, Merged, Pair, PairMem, Cursor;
      ghost var s := blocks;
      HeaderAt(mem, s, m, i);
      MergedCases(s, i);
      MergedCalm(s, i);
      GoodTile(mem, s, m);
      MergedCursor(s, i, lfree, m);
      CursorMoves(mem, s, m, i, lfree);
      if i + 1 < |s| { HeaderAt(mem, s, m, i + 1); }
      var n := mem[p].next;
      if p != n && !mem[n].used && n != m + SIZE {
        PairGood(mem, s, m, i);
        if lfree == n { lfree := p; }
        mem := PairMem(mem, p);
        blocks := Pair(s, i);
      }
      HeaderAt(mem, blocks, m, i);
      if i > 0 { HeaderAt(mem, blocks, m, i - 1); }
      var b := mem[p].prev;
      if b != p && !mem[b].used {
        PairGood(mem, blocks, m, i - 1);
        if lfree == p { lfree := b; }
        mem := PairMem(mem, b);
        blocks := Pair(blocks, i - 1);
      }
    }

    /** rt_free. The pointer is RT_NULL, or one that an allocation returned. */
    method Free(p: Ptr, ghost i: nat)
      requires Valid() && (p.Off? ==> Owns(blocks, p.n, i))
      modifies this
      ensures Valid() && maxUsed == old(maxUsed)
      ensures p.Null? ==> blocks == old(blocks) && lfree == old(lfree)
      ensures p.Off? ==> Live(blocks) == Live(old(blocks)) - multiset{old(blocks)[i]}
      ensures p.Off? ==> blocks == Merged(old(blocks)[i := old(blocks)[i].(used := false)], i)
      ensures Low(old(blocks), old(lfree)) ==> Low(blocks, lfree)
    {
      hide Good, Calm, Merged, UsedBytes, Live, Low, Cursor, AfterMerge, Aligned;
      if p.Null? { return; }
      ghost var s := blocks;
      ghost var t := s[i := s[i].(used := false)];
      var at := p.n - SIZE;
      HeaderAt(mem, s, m, i);
      MarkGood(mem, s, m, i, false);
      MarkSums(s, i, false);
      MergedSums(t, i);
      assert t[i := t[i].(used := true)] == s;
      GoodTile(mem[at := mem[at].(used := false)], t, m);
      FreedCursor(mem, s, m, i, lfree);
      mem := mem[at := mem[at].(used := false)];
      blocks := t;
      if at < lfree { lfree := at; }
      used := used - (mem[at].next - at);
      ghost var low := lfree;
      PlugHoles(at, i);
      if Low(t, low) { MergedLow(t, i, low); }
    }

    /** The loop that moves lfree to the next free block or the end. */
    method Advance(ghost i: nat)
      requires Good(mem, blocks, m) && i < |blocks| && lfree == blocks[i].at
      modifies this`lfree
      ensures Cursor(blocks, lfree, m) && old(lfree) <= lfree
      ensures Low(blocks, old(lfree)) ==> Low(blocks, lfree)
    {
      hide Good;
      ghost var k := i;
      GoodTile(mem, blocks, m);
      HeaderAt(mem, blocks, m, i);
      forall j | 0 <= j < i ensures blocks[j].at < blocks[i].at {
        HeaderAt(mem, blocks, m, j);
        TileApart(blocks, 0, j, i);
      }
      forall j | i < j < |blocks| ensures blocks[i].at <= blocks[j].at { TileApart(blocks, 0, i, j); }
      while mem[lfree].used && lfree != m + SIZE
        invariant i <= k <= |blocks| && lfree == (if k < |blocks| then blocks[k].at else m + SIZE)
        invariant lfree in mem && old(lfree) <= lfree
        invariant Low(blocks, old(lfree)) ==> forall j :: 0 <= j < k ==> blocks[j].used
        invariant forall j :: k <= j < |blocks| ==> lfree <= blocks[j].at
        decreases |blocks| - k
      {
        HeaderAt(mem, blocks, m, k);
        forall j | k < j < |blocks| ensures blocks[k].end <= blocks[j].at { TileApart(blocks, 0, k, j); }
        lfree := mem[lfree].next;
        k := k + 1;
      }
      if k < |blocks| { HeaderAt(mem, blocks, m, k); }
    }

    /** The body of the search loop for a block that fits: split or take it. */
    method TakeBlock(p: int, size: int, ghost i: nat)
      requires Valid() && i < |blocks| && blocks[i].at == p && !blocks[i].used && Len(blocks[i]) >= size >= 0 && Aligned(size)
      requires lfree <= p
      modifies this
      ensures Valid() && blocks == Alloced(old(blocks), i, size)
      ensures i < |blocks| && Live(blocks) == Live(old(blocks)) + multiset{blocks[i]}
      ensures maxUsed == Max(old(maxUsed), UsedBytes(blocks))
      ensures Low(old(blocks), old(lfree)) ==> Low(blocks, lfree)
    {
      hide Good, Calm, UsedBytes, Live, CutMem, Cut, Cursor, Low, Aligned, Tile, End;
      ghost var s := blocks;
      ghost var t := Alloced(s, i, size);
      HeaderAt(mem, s, m, i);
      AllocedGood(s, i, size, m);
      AllocedAt(s, i, size);
      GoodTile(mem, s, m);
      AlignedHeader(mem, s, m, i, size);
      if mem[p].next - (p + SIZE) >= size + SIZE + MIN {
        CutGood(mem, s, m, i, size);
        CutEnd(s, i, size);
        mem := CutMem(mem, p, p + SIZE + size, m);
        used := used + (size + SIZE);
      } else {
        MarkGood(mem, s, m, i, true);
        mem := mem[p := mem[p].(used := true)];
        used := used + (mem[p].next - p);
      }
      blocks := t;
      if maxUsed < used { maxUsed := used; }
      GoodTile(mem, t, m);
      if Low(s, lfree) { AllocedLow(s, i, size, lfree); }
      if p == lfree {
        Advance(i);
      } else {
        AllocedCursor(s, i, size, lfree, m);
      }
    }

    /** rt_malloc. */
    method Malloc(request: nat) returns (r: Ptr, ghost i: nat)
      requires Valid()
      modifies this
      ensures Valid() && (Low(old(blocks), old(lfree)) ==> Low(blocks, lfree))
      ensures maxUsed == if r.Null? then old(maxUsed) else Max(old(maxUsed), UsedBytes(blocks))
      ensures var size := Max(Align(request), MIN);
        && (r.Off? ==> Chosen(old(blocks), old(lfree), size, m, i) && blocks == Alloced(old(blocks), i, size)
                       && Owns(blocks, r.n, i) && Live(blocks) == Live(old(blocks)) + multiset{blocks[i]})
        && (r.Null? ==> blocks == old(blocks) && lfree == old(lfree)
                        && (request == 0 || Align(request) > m || NoneFits(blocks, lfree, size, m)))
    {
      i := 0;
      if request == 0 { return Null, i; }
      var size := Align(request);
      if size > m { return Null, i; }
      if size < MIN { size := MIN; }
      var found, ptr;
      found, ptr, i := FindFit(size);
      if !found { return Null, i; }
      hide Good, Calm, UsedBytes, Live, Alloced, Cursor;
      AllocedAt(blocks, i, size);
      AlignSize(request);
      TakeBlock(ptr, size, i);
      r := Off(ptr + SIZE);
    }

    /** The search of rt_malloc. */
    method FindFit(size: int) returns (found: bool, ptr: int, ghost j: nat)
      requires Good(mem, blocks, m) && Cursor(blocks, lfree, m) && 0 <= size <= m
      ensures found ==> Chosen(blocks, lfree, size, m, j) && ptr == blocks[j].at
      ensures !found ==> NoneFits(blocks, lfree, size, m)
    {
      hide Good, Cursor;
      j := CursorAt(mem, blocks, m, lfree);
      ptr := lfree;
      while ptr < m - size
        invariant 0 <= j <= |blocks| && ptr == (if j < |blocks| then blocks[j].at else m + SIZE) && lfree <= ptr
        invariant forall k :: 0 <= k < j && lfree <= blocks[k].at ==> blocks[k].used || Len(blocks[k]) < size
        decreases |blocks| - j
      {
        HeaderAt(mem, blocks, m, j);
        var h := mem[ptr];
        if !h.used && h.next - (ptr + SIZE) >= size {
          return true, ptr, j;
        }
        ptr := h.next;
        j := j + 1;
      }
      LaterBlocks(mem, blocks, m, j, size, lfree);
      found := false;
    }

    /** rt_realloc; block i is the one that p points into. Shrinking in place
        splits the block; every other change of size allocates and frees. */
    method Realloc(p: Ptr, request: nat, ghost i: nat) returns (r: Ptr, ghost k: nat)
      requires Valid() && (p.Off? && 0 <= p.n < m + SIZE ==> Owns(blocks, p.n, i))
      requires Align(request) == 0 ==> p.Null? || 0 <= p.n < m + SIZE
      modifies this
      ensures Valid()
      ensures Align(request) > m ==> r.Null? && blocks == old(blocks)
      ensures Align(request) == 0 ==> r.Null? && maxUsed == old(maxUsed)
      ensures Align(request) == 0 && p.Null? ==> blocks == old(blocks)
      ensures Align(request) == 0 && p.Off? ==> Live(blocks) == Live(old(blocks)) - multiset{old(blocks)[i]}
      ensures 0 < Align(request) <= m && p.Null? ==>
        && maxUsed == (if r.Null? then old(maxUsed) else Max(old(maxUsed), UsedBytes(blocks)))
        && (r.Null? ==> blocks == old(blocks) && NoneFits(blocks, old(lfree), Max(Align(request), MIN), m))
        && (r.Off? ==> Added(old(blocks), blocks, r.n, Align(request)))
      ensures 0 < Align(request) <= m && p.Off? && !(0 <= p.n < m + SIZE) ==> r == p && blocks == old(blocks)
      ensures 0 < Align(request) <= m && p.Off? && 0 <= p.n < m + SIZE ==>
        Remade(old(blocks), blocks, i, p, r, Align(request), old(lfree), m, k, old(maxUsed), maxUsed)
      ensures Low(old(blocks), old(lfree)) ==> (Low(blocks, lfree) <==>
        (0 < Align(request) <= m && p.Off? && 0 <= p.n < m + SIZE ==> KeepsLow(old(blocks)[i], Align(request), old(lfree), m)))
    {
      hide Good, Calm, UsedBytes, Live, Alloced, Cursor, Merged, Chosen, NoneFits, Align, Low, Aligned, Remade, Added;
      var size := Align(request);
      k := 0;
      if size > m { return Null, k; }
      AlignTwice(request);
      if size == 0 {
        Free(p, i);
        r := Null;
      } else if p.Null? {
        r, k := Malloc(size);
        if r.Off? { NewSize(old(blocks), old(lfree), blocks, size, m, k); }
      } else if p.n < 0 || p.n >= m + SIZE {
        r := p;
      } else {
        r, k := Resize(p, size, i);
      }
    }

    /** The part of rt_realloc for a live allocation and a new size. */
    method Resize(p: Ptr, size: nat, ghost i: nat) returns (r: Ptr, ghost k: nat)
      requires Valid() && p.Off? && Owns(blocks, p.n, i) && 0 < size == Align(size) <= m
      modifies this
      ensures Valid() && Remade(old(blocks), blocks, i, p, r, size, old(lfree), m, k, old(maxUsed), maxUsed)
      ensures Low(old(blocks), old(lfree)) ==> (Low(blocks, lfree) <==> KeepsLow(old(blocks)[i], size, old(lfree), m))
    {
      hide Good, Calm, UsedBytes, Live, Alloced, Cursor, Merged, Resized, Align, Low, Aligned, Chosen, NoneFits, Cut, Remade;
      HeaderAt(mem, blocks, m, i);
      k := 0;
      var len := mem[p.n - SIZE].next - (p.n - SIZE) - SIZE;
      if len == size {
        r := p;
        RemadeSame(blocks, i, p, size, lfree, m, maxUsed);
      } else if size + SIZE + MIN < len {
        AlignSize(size);
        Shrink(p.n - SIZE, size, i);
        r := p;
        RemadeCut(old(blocks), blocks, i, p, size, old(lfree), m, maxUsed);
      } else {
        r, k := Move(p, size, i);
        RemadeMoved(old(blocks), blocks, i, p, r, size, old(lfree), m, k, old(maxUsed), maxUsed);
      }
    }

    /** The expanding part: allocate, copy, free. */
    method Move(p: Ptr, size: nat, ghost i: nat) returns (r: Ptr, ghost k: nat)
      requires Valid() && p.Off? && Owns(blocks, p.n, i) && 0 < size == Align(size) <= m
      modifies this
      ensures Valid()
      ensures r.Null? ==> blocks == old(blocks) && maxUsed == old(maxUsed) && NoneFits(blocks, old(lfree), Max(size, MIN), m)
      ensures r.Off? ==> Resized(old(blocks), blocks, old(blocks)[i], r.n, size)
      ensures r.Off? ==> Chosen(old(blocks), old(lfree), Max(size, MIN), m, k) && r.n == old(blocks)[k].at + SIZE
                         && maxUsed == Max(old(maxUsed), UsedBytes(Alloced(old(blocks), k, Max(size, MIN))))
      ensures Low(old(blocks), old(lfree)) ==> Low(blocks, lfree)
    {
      hide Good, Calm, UsedBytes, Live, Alloced, Cursor, Merged, NoneFits, Align, Low, Resized;
      ghost var x := blocks[i];
      r, k := Malloc(size);
      if r.Off? {
        ghost var b := blocks[k];
        AllocedAt(old(blocks), k, Max(size, MIN));
        AllocedSize(old(blocks), k, size);
        LiveIn(old(blocks), i);
        ghost var i1 := StillThere(old(blocks), i, blocks, b);
        Free(p, i1);
        MovedLive(Live(old(blocks)), x, b);
        ResizedBy(old(blocks), blocks, x, b, size);
      }
    }

    /** The in-place part: cut block i and merge the rest forward. */
    method Shrink(at: int, size: int, ghost i: nat)
      requires Valid() && i < |blocks| && blocks[i].at == at && blocks[i].used
      requires size + SIZE + MIN < Len(blocks[i]) && 0 <= size && Aligned(size)
      modifies this
      ensures Valid() && Live(blocks) == Live(old(blocks)) - multiset{old(blocks)[i]} + multiset{Blk(at, at + SIZE + size, true)}
      ensures i + 1 < |Cut(old(blocks), i, size)| && blocks == Merged(Cut(old(blocks), i, size), i + 1)
      ensures maxUsed == old(maxUsed)
      ensures Low(old(blocks), old(lfree)) ==>
        (Low(blocks, lfree) <==> old(lfree) <= old(blocks)[i].end && old(lfree) != m + SIZE)
    {
      hide Good, Calm, UsedBytes, Live, Merged, CutMem, Cursor;
      ghost var s := blocks;
      ghost var c := Cut(s, i, size);
      ghost var x := lfree;
      HeaderAt(mem, s, m, i);
      GoodTile(mem, s, m);
      AlignedHeader(mem, s, m, i, size);
      CutGood(mem, s, m, i, size);
      CutCalm(s, i, size);
      CutSums(s, i, size);
      CutEnd(s, i, size);
      CutCursor(s, i, size, lfree, m);
      MergedSums(c, i + 1);
      used := used - (mem[at].next - at - SIZE - size);
      mem := CutMem(mem, at, at + SIZE + size, m);
      blocks := c;
      GoodTile(mem, c, m);
      PlugHoles(at + SIZE + size, i + 1);
      if Low(s, x) { ShrinkLow(s, i, size, x, m); }
    }
  }

  /** The cursor at x is not left above the piece that is cut off block b. */
  predicate KeepsLow(b: Blk, size: int, x: int, m: nat) {
    size + SIZE + MIN < Len(b) ==> x <= b.end && x != m + SIZE
  }

  /** Allocation x was replaced by one at p of at least size bytes. */
  ghost predicate Resized(s: seq<Blk>, t: seq<Blk>, x: Blk, p: int, size: int) {
    exists b: Blk :: b.used && b.at + SIZE == p && Len(b) >= size && Live(t) == Live(s) - multiset{x} + multiset{b}
  }

  /** A new allocation at p of at least size bytes. */
  ghost predicate Added(s: seq<Blk>, t: seq<Blk>, p: int, size: int) {
    exists b: Blk :: b.used && b.at + SIZE == p && Len(b) >= size && Live(t) == Live(s) + multiset{b}
  }

  /** What rt_realloc of block i to size does, with the cursor at x: nothing for
      the same size, a cut for a sufficiently smaller one, and otherwise a first
      fit elsewhere, which counts for max_mem before the old block is freed, or
      null when nothing fits. */
  ghost predicate Remade(s: seq<Blk>, t: seq<Blk>, i: nat, p: Ptr, r: Ptr, size: int, x: int, m: nat, k: nat,
                         max0: int, max1: int)
  {
    i < |s| &&
    if Len(s[i]) == size then r == p && t == s && max1 == max0
    else if size + SIZE + MIN < Len(s[i]) then
      && r == p && r.Off? && i + 1 < |Cut(s, i, size)| && t == Merged(Cut(s, i, size), i + 1) && max1 == max0
      && Resized(s, t, s[i], r.n, size)
    else if r.Null? then t == s && max1 == max0 && NoneFits(s, x, Max(size, MIN), m)
    else
      && Chosen(s, x, Max(size, MIN), m, k) && r.n == s[k].at + SIZE && Resized(s, t, s[i], r.n, size)
      && max1 == Max(max0, UsedBytes(Alloced(s, k, Max(size, MIN))))
  }

  lemma RemadeSame(s: seq<Blk>, i: nat, p: Ptr, size: int, x: int, m: nat, max: int)
    requires i < |s| && Len(s[i]) == size
    ensures Remade(s, s, i, p, p, size, x, m, 0, max, max)
  {
  }

  lemma RemadeCut(s: seq<Blk>, t: seq<Blk>, i: nat, p: Ptr, size: int, x: int, m: nat, max: int)
    requires i < |s| && size + SIZE + MIN < Len(s[i]) && p.Off? && i + 1 < |Cut(s, i, size)| && t == Merged(Cut(s, i, size), i + 1)
    requires Live(t) == Live(s) - multiset{s[i]} + multiset{Blk(p.n - SIZE, p.n + size, true)}
    ensures Remade(s, t, i, p, p, size, x, m, 0, max, max)
  {
    hide Live, Merged, Cut;
    ShrunkSize(s, t, s[i], p.n, size);
  }

  lemma RemadeMoved(s: seq<Blk>, t: seq<Blk>, i: nat, p: Ptr, r: Ptr, size: int, x: int, m: nat, k: nat, max0: int, max1: int)
    requires i < |s| && Len(s[i]) != size && size + SIZE + MIN >= Len(s[i])
    requires r.Null? ==> t == s && max1 == max0 && NoneFits(s, x, Max(size, MIN), m)
    requires r.Off? ==> Chosen(s, x, Max(size, MIN), m, k) && r.n == s[k].at + SIZE && Resized(s, t, s[i], r.n, size)
    requires r.Off? ==> max1 == Max(max0, UsedBytes(Alloced(s, k, Max(size, MIN))))
    ensures Remade(s, t, i, p, r, size, x, m, k, max0, max1)
  {
    hide Live, Alloced, UsedBytes, NoneFits, Chosen;
  }

  lemma NewSize(s: seq<Blk>, x: int, t: seq<Blk>, size: nat, m: nat, k: nat)
    requires Chosen(s, x, Max(size, MIN), m, k) && t == Alloced(s, k, Max(size, MIN)) && k < |t|
    requires Live(t) == Live(s) + multiset{t[k]}
    ensures Added(s, t, t[k].at + SIZE, size)
  {
    hide Live;
    AllocedAt(s, k, Max(size, MIN));
    AllocedSize(s, k, size);
    assert t[k].used && t[k].at + SIZE == t[k].at + SIZE && Len(t[k]) >= size && Live(t) == Live(s) + multiset{t[k]};
  }

  lemma ResizedBy(s: seq<Blk>, t: seq<Blk>, x: Blk, b: Blk, size: int)
    requires b.used && Len(b) >= size && Live(t) == Live(s) - multiset{x} + multiset{b}
    ensures Resized(s, t, x, b.at + SIZE, size)
  {
  }

  lemma ShrunkSize(s: seq<Blk>, t: seq<Blk>, x: Blk, p: int, size: int)
    requires Live(t) == Live(s) - multiset{x} + multiset{Blk(p - SIZE, p + size, true)}
    ensures Resized(s, t, x, p, size)
  {
    var b := Blk(p - SIZE, p + size, true);
    assert b.used && b.at + SIZE == p && Len(b) >= size && Live(t) == Live(s) - multiset{x} + multiset{b};
  }

  lemma AllocedSize(s: seq<Blk>, i: nat, size: int)
    requires i < |s| && Len(s[i]) >= size
    ensures i < |Alloced(s, i, Max(size, MIN))|
    ensures Len(s[i]) >= MIN ==> Len(Alloced(s, i, Max(size, MIN))[i]) >= size
  {
  }

  lemma AlignTwice(n: nat)
    ensures Align(Align(n)) == Align(n)
  {
  }

  lemma MovedLive(l: multiset<Blk>, x: Blk, b: Blk)
    requires x in l
    ensures l + multiset{b} - multiset{x} == l - multiset{x} + multiset{b}
  {
  }

  lemma AlignSize(n: nat)
    ensures Aligned(Align(n)) && Aligned(MIN)
  {
  }

  /** A used block other than the new one is still there after an allocation. */
  lemma StillThere(s: seq<Blk>, i: nat, t: seq<Blk>, b: Blk) returns (j: nat)
    requires i < |s| && s[i].used && Live(t) == Live(s) + multiset{b}
    ensures j < |t| && t[j] == s[i]
  {
    LiveIn(s, i);
    assert s[i] in Live(t);
    j := LiveAt(t, s[i]);
  }

  lemma {:induction false} LiveIn(s: seq<Blk>, i: nat)
    requires i < |s| && s[i].used
    ensures s[i] in Live(s)
    decreases i
  {
    if i > 0 { LiveIn(s[1..], i - 1); }
  }

  lemma {:induction false} LiveAt(s: seq<Blk>, b: Blk) returns (j: nat)
    requires b in Live(s)
    ensures j < |s| && s[j] == b
  {
    if s[0].used && s[0] == b {
      j := 0;
    } else {
      var k := LiveAt(s[1..], b);
      j := k + 1;
    }
  }

  lemma CutAt(s: seq<Blk>, i: nat, len: int)
    requires i < |s|
    ensures var c := Cut(s, i, len);
      && |c| == |s| + 1 && c[i] == Blk(s[i].at, s[i].at + SIZE + len, true)
      && c[i + 1] == Blk(s[i].at + SIZE + len, s[i].end, false)
      && (forall j :: 0 <= j < i ==> c[j] == s[j]) && (forall j :: i < j < |s| ==> c[j + 1] == s[j])
  {
  }

  lemma CutCursor(s: seq<Blk>, i: nat, len: int, x: int, m: nat)
    requires i < |s| && s[i].used && Cursor(s, x, m)
    ensures Cursor(Cut(s, i, len), x, m)
  {
    CutAt(s, i, len);
    if x != m + SIZE {
      var k :| 0 <= k < |s| && s[k].at == x && !s[k].used;
      assert Cut(s, i, len)[if k < i then k else k + 1] == s[k];
    }
  }

  /** Where the cursor is after a shrink. */
  lemma ShrinkCursor(s: seq<Blk>, i: nat, len: int, x: int, m: nat)
    requires i < |s| && Tile(s, 0) && s[i].used && Low(s, x) && Cursor(s, x, m)
    requires 0 <= len && len + SIZE <= Len(s[i]) && End(s, 0) == m + SIZE
    ensures var c := Cut(s, i, len); i + 1 < |c| && var y := AfterMerge(c, i + 1, x);
      if x <= s[i].end && x != m + SIZE then y <= c[i + 1].at && y <= x else y > c[i + 1].at
  {
    hide Tile, Cut, Aligned, End;
    CutAt(s, i, len);
    var c := Cut(s, i, len);
    TileAt(s, 0, i);
    if i + 1 < |s| { TileAt(s, 0, i + 1); }
    assert i + 1 < |s| ==> c[i + 2] == s[i + 1];
    if x != m + SIZE {
      var k :| 0 <= k < |s| && s[k].at == x && !s[k].used;
      TileAt(s, 0, k);
      if k < i { TileApart(s, 0, k, i); }
      if i + 1 < k { TileApart(s, 0, i + 1, k); }
    }
  }

  /** Shrinking does not lower the cursor, so afterwards there is a free block
      below it, unless it was a block no further than the end of the shrunk one. */
  lemma ShrinkLow(s: seq<Blk>, i: nat, len: int, x: int, m: nat)
    requires i < |s| && Tile(s, 0) && Tile(Cut(s, i, len), 0) && s[i].used && Low(s, x) && Cursor(s, x, m)
    requires 0 <= len && len + SIZE <= Len(s[i]) && End(s, 0) == m + SIZE
    ensures var c := Cut(s, i, len);
      i + 1 < |c| && (Low(Merged(c, i + 1), AfterMerge(c, i + 1, x)) <==> x <= s[i].end && x != m + SIZE)
  {
    hide Tile, Cut, Merged, Aligned, End, Cursor, AfterMerge;
    var c := Cut(s, i, len);
    CutAt(s, i, len);
    ShrinkCursor(s, i, len, x, m);
    var t := Merged(c, i + 1);
    MergedAt(c, i + 1);
    var y, hi := AfterMerge(c, i + 1, x), Hi(c, i + 1);
    if x > s[i].end || x == m + SIZE {
      assert t[i + 1].at < y && !t[i + 1].used;
    } else {
      TileAt(c, 0, i + 1);
      forall j | 0 <= j < |t| && t[j].at < y ensures t[j].used {
        if j > i + 1 {
          assert t[j] == c[j + (hi - i - 1) - 1];
          TileApart(c, 0, i + 1, j + (hi - i - 1) - 1);
        } else if j <= i {
          assert t[j] == c[j];
        }
      }
    }
  }

  lemma GoodTile(mem: map<int, Hdr>, s: seq<Blk>, m: nat)
    requires Good(mem, s, m)
    ensures Tile(s, 0) && End(s, 0) == m + SIZE
  {
  }

  lemma AlignedHeader(mem: map<int, Hdr>, s: seq<Blk>, m: nat, i: nat, size: int)
    requires Good(mem, s, m) && i < |s| && Aligned(size)
    ensures Aligned(s[i].at + SIZE + size)
  {
    HeaderAt(mem, s, m, i);
    if i > 0 { HeaderAt(mem, s, m, i - 1); }
    AlignedSum(s[i].at, size);
  }

  lemma CutEnd(s: seq<Blk>, i: nat, len: int)
    requires i < |s|
    ensures i < |Cut(s, i, len)| && Cut(s, i, len)[i] == Blk(s[i].at, s[i].at + SIZE + len, true)
  {
  }

  /** The cursor as plug_holes moves it. */
  lemma CursorMoves(mem: map<int, Hdr>, s: seq<Blk>, m: nat, i: nat, x: int)
    requires Good(mem, s, m) && i < |s| && !s[i].used && Cursor(s, x, m)
    ensures var y := if i + 1 < |s| && !s[i + 1].used && x == s[i + 1].at then s[i].at else x;
      AfterMerge(s, i, x) == if i > 0 && !s[i - 1].used && y == s[i].at then s[i - 1].at else y
  {
    hide Good, Tile, Aligned;
    GoodTile(mem, s, m);
    var j := CursorAt(mem, s, m, x);
    HeaderAt(mem, s, m, i);
    if i > 0 { HeaderAt(mem, s, m, i - 1); }
    if i + 1 < |s| { HeaderAt(mem, s, m, i + 1); }
    if j < i { TileApart(s, 0, j, i); }
    if j + 1 < i { TileApart(s, 0, j, i - 1); }
    if j < |s| { HeaderAt(mem, s, m, j); }
    if i + 1 < j < |s| { TileApart(s, 0, i + 1, j); }
  }

  /** Marking block i free and lowering the cursor to it. */
  lemma FreedCursor(mem: map<int, Hdr>, s: seq<Blk>, m: nat, i: nat, x: int)
    requires Good(mem, s, m) && i < |s| && s[i].used && Cursor(s, x, m)
    ensures var t := s[i := s[i].(used := false)]; var y := if s[i].at < x then s[i].at else x;
      Cursor(t, y, m) && (Low(s, x) ==> Low(t, y))
  {
    var t := s[i := s[i].(used := false)];
    if s[i].at < x {
      assert t[i].at == s[i].at && !t[i].used;
    } else if x != m + SIZE {
      var k :| 0 <= k < |s| && s[k].at == x && !s[k].used;
      assert t[k] == s[k];
    }
    if Low(s, x) {
      forall j | 0 <= j < |t| && t[j].at < (if s[i].at < x then s[i].at else x) ensures t[j].used { assert j != i; }
    }
  }

  lemma LaterBlocks(mem: map<int, Hdr>, s: seq<Blk>, m: nat, j: nat, size: int, x: int)
    requires Good(mem, s, m) && j <= |s| && (if j < |s| then s[j].at else m + SIZE) >= m - size
    requires forall k :: 0 <= k < j && x <= s[k].at ==> s[k].used || Len(s[k]) < size
    ensures NoneFits(s, x, size, m)
  {
    forall k | j <= k < |s| ensures s[k].at >= m - size {
      if j < k {
        TileApart(s, 0, j, k);
        TileAt(s, 0, j);
      }
    }
  }

  /** A fresh heap refuses a request for all of it. */
  method WholeRefused(m: nat) returns (heap: SmallHeap, r: Ptr)
    requires MIN <= m && m + 2 * SIZE < TWO32 && m % 4 == 0
    ensures heap.Valid() && heap.blocks == [Blk(0, m + SIZE, false)] && Len(heap.blocks[0]) == m && r.Null?
  {
    hide Good, Calm, UsedBytes, Live, Cursor, Low;
    heap := new SmallHeap(m);
    ghost var i;
    AlignSelf(m);
    r, i := heap.Malloc(m);
  }

  /** Where the cursor is when only the last block is free. */
  lemma LastFree(s: seq<Blk>, x: int, m: nat)
    requires Cursor(s, x, m) && Low(s, x) && |s| > 0 && s[|s| - 1].at < m + SIZE && !s[|s| - 1].used
    requires forall j :: 0 <= j < |s| - 1 ==> s[j].used
    ensures x == s[|s| - 1].at
  {
  }

  /** Two allocations in a fresh heap, then the first one is shrunk: the piece cut
      off lies below lfree, where no later search looks. */
  method ShrinkHides(m: nat) returns (heap: SmallHeap)
    requires 100 <= m && m + 2 * SIZE < TWO32 && m % 4 == 0
    ensures heap.Valid() && heap.blocks == [Blk(0, 24, true), Blk(24, 60, false), Blk(60, 88, true), Blk(88, m + SIZE, false)]
    ensures !Low(heap.blocks, heap.lfree)
  {
    hide Good, Calm, UsedBytes, Live, Cursor, Low, Alloced, Cut, Merged;
    heap := new SmallHeap(m);
    LastFree(heap.blocks, heap.lfree, m);
    ThreeSteps(m);
    ghost var i;
    var p, q;
    p, i := heap.Malloc(48);
    LastFree(heap.blocks, heap.lfree, m);
    q, i := heap.Malloc(16);
    LastFree(heap.blocks, heap.lfree, m);
    q, i := heap.Realloc(p, 12, 0);
  }

  lemma ThreeSteps(m: nat)
    requires 100 <= m
    ensures var a, b := [Blk(0, 60, true), Blk(60, m + SIZE, false)], [Blk(0, 60, true), Blk(60, 88, true), Blk(88, m + SIZE, false)];
      var c := [Blk(0, 24, true), Blk(24, 60, false), Blk(60, 88, true), Blk(88, m + SIZE, false)];
      Alloced([Blk(0, m + SIZE, false)], 0, 48) == a && Alloced(a, 1, 16) == b && Cut(b, 0, 12) == c && Merged(c, 1) == c
  {
  }

  lemma AlignSelf(m: nat)
    requires m % 4 == 0 && m < TWO32 - 4
    ensures Align(m) == m
  {
  }
}
