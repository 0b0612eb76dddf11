/** The blocks of a memheap as a tiling of its pool, without memory: what
    splitting, merging and moving a boundary do to the tiling, to the bytes that
    are free and to the allocations that are live. */
module MemHeapShape {
  import opened Words
  import opened MemHeapCore

  /** Request size after RT_ALIGN and the minimum, in 32-bit arithmetic. */
  function RoundUp(n: nat): (r: nat)
    ensures r % 4 == 0 && MINI <= r < TWO32
  {
    Max(Align(n), MINI)
  }

  /** A request is rounded up, and not wrapped to a smaller one, exactly when it
      leaves room for the alignment. */
  lemma RoundUpExact(n: nat)
    requires n < TWO32
    ensures RoundUp(n) >= n <==> n <= TWO32 - 4
    ensures n <= TWO32 - 4 ==> RoundUp(n) < n + 4 || RoundUp(n) == MINI
  {
    AlignExact(n);
  }

  predicate Aligned(n: int) {
    n % 4 == 0
  }

  lemma AlignedSum(a: int, b: int)
    requires Aligned(a) && Aligned(b)
    ensures Aligned(a + b) && Aligned(a - b) && Aligned(a + SIZE) && Aligned(a - SIZE)
  {
  }

  /** A block: the address of its header, its data bytes, its state. */
  datatype Blk = Blk(addr: int, len: int, free: bool)

  // ----- tilings -----

  function End(s: seq<Blk>, from: int): int {
    if s == [] then from else End(s[1..], from + SIZE + s[0].len)
  }

  function EndsFree(s: seq<Blk>, before: bool): bool {
    if s == [] then before else s[|s| - 1].free
  }

  /** The blocks of s lie end to end from address `from`, aligned, and no two
      neighbours are both free; `before` says whether a free block precedes s. */
  predicate Chain(s: seq<Blk>, from: int, before: bool) {
    s == [] ||
    (&& s[0].addr == from && s[0].len >= 0 && Aligned(s[0].len)
     && !(before && s[0].free)
     && Chain(s[1..], from + SIZE + s[0].len, s[0].free))
  }

  lemma {:induction false} ChainConcat(a: seq<Blk>, b: seq<Blk>, from: int, before: bool)
    ensures End(a + b, from) == End(b, End(a, from))
    ensures Chain(a + b, from, before) <==>
      Chain(a, from, before) && Chain(b, End(a, from), EndsFree(a, before))
    decreases |a|
  {
    if a == [] {
      assert a + b == b;
    } else {
      assert (a + b)[1..] == a[1..] + b;
      ChainConcat(a[1..], b, from + SIZE + a[0].len, a[0].free);
    }
  }

  /** Live allocations. */
  function Live(s: seq<Blk>): multiset<Blk> {
    if s == [] then multiset{} else (if s[0].free then multiset{} else multiset{s[0]}) + Live(s[1..])
  }

  /** Data bytes of the free blocks. */
  function FreeBytes(s: seq<Blk>): int {
    if s == [] then 0 else (if s[0].free then s[0].len else 0) + FreeBytes(s[1..])
  }

  /** x is the header of a free block. */
  predicate FreeHeader(s: seq<Blk>, x: int) {
    s != [] && ((s[0].free && s[0].addr == x) || FreeHeader(s[1..], x))
  }

  lemma {:induction false} FreeConcat(a: seq<Blk>, b: seq<Blk>, x: int)
    ensures FreeHeader(a + b, x) <==> FreeHeader(a, x) || FreeHeader(b, x)
  {
    if a == [] {
      assert a + b == b;
    } else {
      assert (a + b)[1..] == a[1..] + b;
      FreeConcat(a[1..], b, x);
    }
  }

  lemma {:induction false} SumsConcat(a: seq<Blk>, b: seq<Blk>)
    ensures Live(a + b) == Live(a) + Live(b)
    ensures FreeBytes(a + b) == FreeBytes(a) + FreeBytes(b)
  {
    if a == [] {
      assert a + b == b;
    } else {
      assert (a + b)[1..] == a[1..] + b;
      SumsConcat(a[1..], b);
    }
  }

  /** Every header of a chain lies, with its data, between the ends; different
      blocks are apart. */
  lemma {:induction false} ChainAt(s: seq<Blk>, from: int, before: bool, i: nat)
    requires Chain(s, from, before) && i < |s|
    ensures from <= s[i].addr && s[i].len >= 0 && s[i].addr + SIZE + s[i].len <= End(s, from)
    ensures s[i].addr == End(s[..i], from)
    ensures i + 1 < |s| ==> s[i + 1].addr == s[i].addr + SIZE + s[i].len
    ensures i + 1 == |s| ==> End(s, from) == s[i].addr + SIZE + s[i].len
    decreases i
  {
    assert s == s[..i] + s[i..];
    ChainConcat(s[..i], s[i..], from, before);
    var t, at := s[i..], End(s[..i], from);
    assert t[0] == s[i];
    assert |t| > 1 ==> t[1..][0] == s[i + 1];
    ChainEnds(s[..i], from, before);
    ChainEnds(t[1..], at + SIZE + s[i].len, s[i].free);
  }

  lemma {:induction false} ChainEnds(s: seq<Blk>, from: int, before: bool)
    requires Chain(s, from, before)
    ensures from + SIZE * |s| <= End(s, from)
    ensures 0 <= FreeBytes(s) <= End(s, from) - from
  {
    if s != [] { ChainEnds(s[1..], from + SIZE + s[0].len, s[0].free); }
  }

  lemma ChainApart(s: seq<Blk>, from: int, before: bool, i: nat, j: nat)
    requires Chain(s, from, before) && i < j < |s|
    ensures s[i].addr + SIZE + s[i].len <= s[j].addr
  {
    var pre, post := s[..j], s[j..];
    assert s == pre + post;
    ChainConcat(pre, post, from, before);
    ChainAt(pre, from, before, i);
    ChainAt(post, End(pre, from), EndsFree(pre, before), 0);
    assert post[0] == s[j];
  }

  // ----- replacing a stretch of blocks -----

  /** s with the blocks from i up to k replaced by mid. */
  function Splice(s: seq<Blk>, i: nat, k: nat, mid: seq<Blk>): seq<Blk>
    requires i <= k <= |s|
  {
    s[..i] + mid + s[k..]
  }

  lemma Pieces(s: seq<Blk>, i: nat, k: nat, mid: seq<Blk>)
    requires i <= k <= |s|
    ensures s == s[..i] + (s[i..k] + s[k..]) && Splice(s, i, k, mid) == s[..i] + (mid + s[k..])
  {
  }

  /** Whether a free block precedes matters for the first block only. */
  lemma ChainAfter(s: seq<Blk>, from: int, before: bool, after: bool)
    requires Chain(s, from, before) && (s != [] && s[0].free ==> !after)
    ensures Chain(s, from, after)
  {
  }

  lemma EndsLast(s: seq<Blk>, before: bool)
    requires s != []
    ensures EndsFree(s, before) == s[|s| - 1].free
  {
  }

  /** A stretch of the same extent, coalesced in itself and with the blocks next
      to it, can take another's place. */
  lemma SpliceChain(s: seq<Blk>, i: nat, k: nat, mid: seq<Blk>, from: int)
    requires i <= k <= |s| && Chain(s, from, false) && mid != []
    requires var at := End(s[..i], from); Chain(mid, at, EndsFree(s[..i], false)) && End(mid, at) == End(s[i..k], at)
    requires k < |s| && s[k].free ==> !mid[|mid| - 1].free
    ensures Chain(Splice(s, i, k, mid), from, false) && End(Splice(s, i, k, mid), from) == End(s, from)
  {
    hide Chain, End, EndsFree, Splice;
    Pieces(s, i, k, mid);
    var a, m, z := s[..i], s[i..k], s[k..];
    var at, f := End(a, from), EndsFree(a, false);
    ChainConcat(a, m + z, from, false);
    ChainConcat(m, z, at, f);
    ChainConcat(mid, z, at, f);
    ChainConcat(a, mid + z, from, false);
    EndsLast(mid, f);
    ChainAfter(z, End(m, at), EndsFree(m, f), EndsFree(mid, f));
  }

  lemma SpliceSums(s: seq<Blk>, i: nat, k: nat, mid: seq<Blk>)
    requires i <= k <= |s|
    ensures Live(Splice(s, i, k, mid)) == Live(s) - Live(s[i..k]) + Live(mid)
    ensures FreeBytes(Splice(s, i, k, mid)) == FreeBytes(s) - FreeBytes(s[i..k]) + FreeBytes(mid)
  {
    hide Live, FreeBytes, Splice;
    Pieces(s, i, k, mid);
    var a, m, z := s[..i], s[i..k], s[k..];
    SumsConcat(a, m + z);
    SumsConcat(m, z);
    SumsConcat(a, mid + z);
    SumsConcat(mid, z);
  }

  // ----- the operations -----

  /** Free block i is allocated whole. */
  function Taken(s: seq<Blk>, i: nat): seq<Blk>
    requires i < |s|
  {
    Splice(s, i, i + 1, [s[i].(free := false)])
  }

  /** Block i is cut to len data bytes; the rest becomes a free block. */
  function Cut(s: seq<Blk>, i: nat, len: int): seq<Blk>
    requires i < |s|
  {
    var x := s[i];
    Splice(s, i, i + 1, [Blk(x.addr, len, false), Blk(x.addr + SIZE + len, x.len - len - SIZE, true)])
  }

  /** The boundary between used block i and the free block after it moves so
      that block i has len data bytes. */
  function Moved(s: seq<Blk>, i: nat, len: int): seq<Blk>
    requires i + 1 < |s|
  {
    var x, y := s[i], s[i + 1];
    Splice(s, i, i + 2, [Blk(x.addr, len, false), Blk(x.addr + SIZE + len, x.len + y.len - len, true)])
  }

  /** First block of the stretch that a released block i joins. */
  function Lo(s: seq<Blk>, i: nat): nat
    requires i < |s|
  {
    if i > 0 && s[i - 1].free then i - 1 else i
  }

  function Hi(s: seq<Blk>, i: nat): nat
    requires i < |s|
  {
    if i + 1 < |s| && s[i + 1].free then i + 2 else i + 1
  }

  /** Used block i is released and merged with its free neighbours. */
  function Released(s: seq<Blk>, i: nat): seq<Blk>
    requires i < |s|
  {
    var lo, hi := Lo(s, i), Hi(s, i);
    Splice(s, lo, hi, [Blk(s[lo].addr, s[hi - 1].addr + s[hi - 1].len - s[lo].addr, true)])
  }

  predicate Tiles(s: seq<Blk>, start: int, stop: int) {
    Chain(s, start, false) && End(s, start) == stop
  }

  /** What a chain says about block i and the one after it. */
  lemma BlockAt(s: seq<Blk>, i: nat, from: int)
    requires Chain(s, from, false) && i < |s|
    ensures s[i].addr == End(s[..i], from) && s[i].len >= 0 && Aligned(s[i].len)
    ensures !(EndsFree(s[..i], false) && s[i].free)
    ensures i + 1 < |s| ==> s[i + 1].addr == s[i].addr + SIZE + s[i].len && !(s[i].free && s[i + 1].free)
  {
    ChainAt(s, from, false, i);
    assert s == s[..i] + s[i..];
    ChainConcat(s[..i], s[i..], from, false);
    assert i + 1 < |s| ==> s[i..][1..][0] == s[i + 1];
  }

  lemma StretchEnd(s: seq<Blk>, i: nat, k: nat, from: int)
    requires Chain(s, from, false) && i < k <= |s|
    ensures End(s[i..k], End(s[..i], from)) == s[k - 1].addr + SIZE + s[k - 1].len
  {
    var a, m, z := s[..i], s[i..k], s[k..];
    assert s == a + (m + z);
    ChainConcat(a, m + z, from, false);
    ChainConcat(m, z, End(a, from), EndsFree(a, false));
    ChainAt(m, End(a, from), EndsFree(a, false), k - i - 1);
    assert m[k - i - 1] == s[k - 1];
  }

  lemma ChainOf1(x: Blk, before: bool)
    requires x.len >= 0 && Aligned(x.len) && !(before && x.free)
    ensures Chain([x], x.addr, before) && End([x], x.addr) == x.addr + SIZE + x.len
  {
    assert [x][1..] == [];
  }

  lemma ChainOf2(x: Blk, y: Blk, before: bool)
    requires x.len >= 0 && Aligned(x.len) && !(before && x.free) && !(x.free && y.free)
    requires y.len >= 0 && Aligned(y.len) && y.addr == x.addr + SIZE + x.len
    ensures Chain([x, y], x.addr, before) && End([x, y], x.addr) == y.addr + SIZE + y.len
  {
    assert [x, y][1..] == [y];
    ChainOf1(y, x.free);
  }

  function LiveOf(x: Blk): multiset<Blk> {
    if x.free then multiset{} else multiset{x}
  }

  function BytesOf(x: Blk): int {
    if x.free then x.len else 0
  }

  lemma SumsOf1(x: Blk)
    ensures Live([x]) == LiveOf(x) && FreeBytes([x]) == BytesOf(x)
  {
    assert [x][1..] == [];
  }

  lemma SumsOf2(x: Blk, y: Blk)
    ensures Live([x, y]) == LiveOf(x) + LiveOf(y) && FreeBytes([x, y]) == BytesOf(x) + BytesOf(y)
  {
    assert [x, y][1..] == [y];
    SumsOf1(y);
  }

  lemma TakenTiles(s: seq<Blk>, i: nat, start: int, stop: int)
    requires Tiles(s, start, stop) && i < |s| && s[i].free
    ensures Tiles(Taken(s, i), start, stop)
    ensures Live(Taken(s, i)) == Live(s) + multiset{s[i].(free := false)}
    ensures FreeBytes(Taken(s, i)) == FreeBytes(s) - s[i].len
  {
    hide Chain, End, Live, FreeBytes, Splice, Aligned;
    var x := s[i].(free := false);
    BlockAt(s, i, start);
    StretchEnd(s, i, i + 1, start);
    ChainOf1(x, EndsFree(s[..i], false));
    SpliceChain(s, i, i + 1, [x], start);
    SpliceSums(s, i, i + 1, [x]);
    assert s[i..i + 1] == [s[i]];
    SumsOf1(s[i]);
    SumsOf1(x);
  }

  /** Cutting a free block allocates its front; cutting a used block in front of
      a used one shrinks it. */
  lemma CutTiles(s: seq<Blk>, i: nat, len: int, start: int, stop: int)
    requires Tiles(s, start, stop) && i < |s|
    requires 0 <= len && Aligned(len) && len + SIZE <= s[i].len
    requires i + 1 < |s| ==> !s[i + 1].free
    ensures Tiles(Cut(s, i, len), start, stop)
    ensures Live(Cut(s, i, len)) ==
      (if s[i].free then Live(s) else Live(s) - multiset{s[i]}) + multiset{Blk(s[i].addr, len, false)}
    ensures FreeBytes(Cut(s, i, len)) ==
      FreeBytes(s) - (if s[i].free then s[i].len else 0) + s[i].len - len - SIZE
  {
    hide Chain, End, Live, FreeBytes, Splice, Aligned;
    var x := s[i];
    var u, v := Blk(x.addr, len, false), Blk(x.addr + SIZE + len, x.len - len - SIZE, true);
    BlockAt(s, i, start);
    AlignedSum(x.len, len);
    AlignedSum(x.len - len, len);
    StretchEnd(s, i, i + 1, start);
    ChainOf2(u, v, EndsFree(s[..i], false));
    SpliceChain(s, i, i + 1, [u, v], start);
    SpliceSums(s, i, i + 1, [u, v]);
    assert s[i..i + 1] == [x];
    SumsOf1(x);
    SumsOf2(u, v);
  }

  lemma MovedTiles(s: seq<Blk>, i: nat, len: int, start: int, stop: int)
    requires Tiles(s, start, stop) && i + 1 < |s| && !s[i].free && s[i + 1].free
    requires 0 <= len && Aligned(len) && len <= s[i].len + s[i + 1].len
    ensures Tiles(Moved(s, i, len), start, stop)
    ensures Live(Moved(s, i, len)) == Live(s) - multiset{s[i]} + multiset{Blk(s[i].addr, len, false)}
    ensures FreeBytes(Moved(s, i, len)) == FreeBytes(s) + s[i].len - len
  {
    hide Chain, End, EndsFree, Live, FreeBytes, Splice, Aligned;
    MovedSums(s, i, len);
    var x, y := s[i], s[i + 1];
    var u, v := Blk(x.addr, len, false), Blk(x.addr + SIZE + len, x.len + y.len - len, true);
    BlockAt(s, i, start);
    BlockAt(s, i + 1, start);
    AlignedSum(x.len, y.len);
    AlignedSum(x.len + y.len, len);
    StretchEnd(s, i, i + 2, start);
    ChainOf2(u, v, EndsFree(s[..i], false));
    SpliceChain(s, i, i + 2, [u, v], start);
  }

  lemma MovedSums(s: seq<Blk>, i: nat, len: int)
    requires i + 1 < |s| && !s[i].free && s[i + 1].free
    ensures Live(Moved(s, i, len)) == Live(s) - multiset{s[i]} + multiset{Blk(s[i].addr, len, false)}
    ensures FreeBytes(Moved(s, i, len)) == FreeBytes(s) + s[i].len - len
  {
    hide Live, FreeBytes, Splice;
    var x, y := s[i], s[i + 1];
    var u, v := Blk(x.addr, len, false), Blk(x.addr + SIZE + len, x.len + y.len - len, true);
    SpliceSums(s, i, i + 2, [u, v]);
    assert s[i..i + 2] == [x, y];
    SumsOf2(x, y);
    SumsOf2(u, v);
    assert Live([x, y]) == multiset{x} && Live([u, v]) == multiset{u};
  }

  /** Releasing a live block keeps the tiling coalesced, ends exactly that one
      allocation, and gives back its bytes plus one header for each merge. */
  lemma ReleasedTiles(s: seq<Blk>, i: nat, start: int, stop: int)
    requires Tiles(s, start, stop) && i < |s| && !s[i].free
    ensures Tiles(Released(s, i), start, stop)
    ensures Live(Released(s, i)) == Live(s) - multiset{s[i]}
    ensures FreeBytes(Released(s, i)) == FreeBytes(s) + s[i].len + SIZE * (Hi(s, i) - Lo(s, i) - 1)
  {
    hide Chain, End, Live, FreeBytes, Splice, Aligned;
    var lo, hi := Lo(s, i), Hi(s, i);
    var x := Blk(s[lo].addr, s[hi - 1].addr + s[hi - 1].len - s[lo].addr, true);
    MergedLength(s, i, start);
    StretchEnd(s, lo, hi, start);
    ChainOf1(x, false);
    SpliceChain(s, lo, hi, [x], start);
    SpliceSums(s, lo, hi, [x]);
    SumsOf1(x);
    Stretch3(s, lo, hi, i);
  }

  lemma MergedLength(s: seq<Blk>, i: nat, start: int)
    requires Chain(s, start, false) && i < |s| && !s[i].free
    ensures var lo, hi := Lo(s, i), Hi(s, i); var len := s[hi - 1].addr + s[hi - 1].len - s[lo].addr;
      && s[lo].addr == End(s[..lo], start) && !EndsFree(s[..lo], false) && (hi < |s| ==> !s[hi].free)
      && len >= 0 && Aligned(len)
      && len == s[i].len + (if lo < i then s[lo].len + SIZE else 0) + (if hi > i + 1 then s[i + 1].len + SIZE else 0)
  {
    hide Chain, End;
    var lo, hi := Lo(s, i), Hi(s, i);
    BlockAt(s, lo, start);
    BlockAt(s, i, start);
    BlockAt(s, hi - 1, start);
    LowClear(s, lo, start);
  }

  lemma LowClear(s: seq<Blk>, lo: nat, start: int)
    requires Chain(s, start, false) && lo < |s| && (lo > 0 ==> s[lo].free || !s[lo - 1].free)
    ensures !EndsFree(s[..lo], false)
  {
    BlockAt(s, lo, start);
    if lo > 0 { assert s[..lo][lo - 1] == s[lo - 1]; }
  }

  lemma Stretch3(s: seq<Blk>, lo: nat, hi: nat, i: nat)
    requires i < |s| && lo == Lo(s, i) && hi == Hi(s, i) && !s[i].free
    ensures Live(s[lo..hi]) == multiset{s[i]}
    ensures FreeBytes(s[lo..hi]) == (if lo < i then s[lo].len else 0) + (if hi > i + 1 then s[i + 1].len else 0)
  {
    hide Live, FreeBytes, Lo, Hi;
    StretchParts(s, lo, hi, i);
    var left, mid, right := s[lo..i], [s[i]], s[i + 1..hi];
    SumsConcat(left, mid + right);
    SumsConcat(mid, right);
    NoSums();
    OneSum(s[i]);
    if lo < i { OneSum(s[lo]); }
    if hi > i + 1 { OneSum(s[i + 1]); }
  }

  lemma StretchParts(s: seq<Blk>, lo: nat, hi: nat, i: nat)
    requires i < |s| && lo == Lo(s, i) && hi == Hi(s, i) && !s[i].free
    ensures lo <= i < hi <= |s| && s[lo..hi] == s[lo..i] + ([s[i]] + s[i + 1..hi])
    ensures s[lo..i] == (if lo < i then [s[lo]] else []) && s[i + 1..hi] == (if hi > i + 1 then [s[i + 1]] else [])
    ensures (lo < i ==> s[lo].free) && (hi > i + 1 ==> s[i + 1].free)
  {
  }

  lemma NoSums()
    ensures Live([]) == multiset{} && FreeBytes([]) == 0
  {
  }

  lemma OneSum(x: Blk)
    ensures Live([x]) == (if x.free then multiset{} else multiset{x}) && FreeBytes([x]) == if x.free then x.len else 0
  {
    assert [x][1..] == [];
  }

  // ----- headers -----

  function Addrs(s: seq<Blk>): seq<int> {
    seq(|s|, i requires 0 <= i < |s| => s[i].addr)
  }

  lemma {:induction false} FreeRange(s: seq<Blk>, from: int, before: bool, x: int)
    requires Chain(s, from, before) && FreeHeader(s, x)
    ensures from <= x < End(s, from)
  {
    if s[0].free && s[0].addr == x {
      ChainEnds(s, from, before);
    } else {
      FreeRange(s[1..], from + SIZE + s[0].len, s[0].free, x);
    }
  }

  /** The free blocks after a stretch is replaced. */
  lemma SpliceFree(s: seq<Blk>, i: nat, k: nat, mid: seq<Blk>, start: int, x: int)
    requires Chain(s, start, false) && i <= k <= |s|
    ensures FreeHeader(Splice(s, i, k, mid), x) <==>
      (FreeHeader(s, x) && !FreeHeader(s[i..k], x)) || FreeHeader(mid, x)
  {
    hide Chain, End, EndsFree, Splice, FreeHeader;
    Pieces(s, i, k, mid);
    var a, m, z := s[..i], s[i..k], s[k..];
    FreeConcat(a, m + z, x);
    FreeConcat(m, z, x);
    FreeConcat(a, mid + z, x);
    FreeConcat(mid, z, x);
    ChainConcat(a, m + z, start, false);
    var at, f := End(a, start), EndsFree(a, false);
    ChainConcat(m, z, at, f);
    if FreeHeader(m, x) {
      FreeRange(m, at, f, x);
      if FreeHeader(a, x) { FreeRange(a, start, false, x); }
      if FreeHeader(z, x) { FreeRange(z, End(m, at), EndsFree(m, f), x); }
    }
  }

  lemma {:induction false} FreeAt(s: seq<Blk>, i: nat)
    requires i < |s| && s[i].free
    ensures FreeHeader(s, s[i].addr)
  {
    if i > 0 { FreeAt(s[1..], i - 1); }
  }

  /** A free header is the header of a free block. */
  lemma {:induction false} FreeBlock(s: seq<Blk>, x: int) returns (i: nat)
    requires FreeHeader(s, x)
    ensures i < |s| && s[i].free && s[i].addr == x
  {
    if s[0].free && s[0].addr == x {
      i := 0;
    } else {
      i := FreeBlock(s[1..], x);
      i := i + 1;
    }
  }

  /** A used block's header is not the header of a free one. */
  lemma UsedAt(s: seq<Blk>, i: nat, start: int)
    requires Chain(s, start, false) && i < |s| && !s[i].free
    ensures !FreeHeader(s, s[i].addr)
  {
    if FreeHeader(s, s[i].addr) {
      var j := FreeBlock(s, s[i].addr);
      ChainAt(s, start, false, i);
      ChainAt(s, start, false, j);
      if j < i { ChainApart(s, start, false, j, i); } else { ChainApart(s, start, false, i, j); }
      assert false;
    }
  }
}
