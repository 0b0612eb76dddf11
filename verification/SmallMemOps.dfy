/** What marking, splitting and merging do to the small heap: each memory update
    of mem.c keeps the headers in step with the blocks. */
module SmallMemOps {
  import opened Words
  import opened SmallMemShape

  /** The heap with m aligned bytes: blocks tile it up to the end stub. */
  ghost predicate Good(mem: map<int, Hdr>, s: seq<Blk>, m: nat) {
    && Tile(s, 0) && End(s, 0) == m + SIZE && Described(mem, s, 0)
    && m + SIZE in mem && mem[m + SIZE].used && mem[m + SIZE].next == m + SIZE
  }

  lemma Pieces(s: seq<Blk>, i: nat, k: nat)
    requires i <= k <= |s|
    ensures s == s[..i] + (s[i..k] + s[k..])
  {
  }

  /** s with the blocks from i up to k replaced. */
  function Splice(s: seq<Blk>, i: nat, k: nat, mid: seq<Blk>): seq<Blk>
    requires i <= k <= |s|
  {
    s[..i] + (mid + s[k..])
  }

  /** Header lookups at block i. */
  lemma HeaderAt(mem: map<int, Hdr>, s: seq<Blk>, m: nat, i: nat)
    requires Good(mem, s, m) && i < |s|
    ensures 0 <= s[i].at && s[i].at + SIZE <= s[i].end <= m + SIZE && Aligned(s[i].end) && s[i].end in mem
    ensures s[i].at in mem && mem[s[i].at] == Hdr(s[i].used, s[i].end, if i == 0 then 0 else s[i - 1].at)
    ensures s[i].at == End(s[..i], 0) && LastAt(s[..i], 0) == (if i == 0 then 0 else s[i - 1].at)
    ensures if i + 1 < |s| then s[i + 1].at == s[i].end < m + SIZE else s[i].end == m + SIZE
    ensures i > 0 ==> s[i - 1].end == s[i].at
    ensures m + SIZE in mem && mem[m + SIZE].used && mem[m + SIZE].next == m + SIZE
  {
    TileAt(s, 0, i);
    DescribedAt(mem, s, 0, i);
    if i + 1 < |s| {
      TileAt(s, 0, i + 1);
      DescribedAt(mem, s, 0, i + 1);
    }
    if i > 0 { TileAt(s, 0, i - 1); }
  }

  /** One or two blocks, as a tiling, as headers, and in the sums. */
  lemma OneBlock(mem: map<int, Hdr>, x: Blk, p: int)
    ensures Tile([x], x.at) <==> x.end >= x.at + SIZE && Aligned(x.end)
    ensures Described(mem, [x], p) <==> x.at in mem && mem[x.at] == Hdr(x.used, x.end, p)
    ensures UsedBytes([x]) == (if x.used then x.end - x.at else 0)
    ensures Live([x]) == (if x.used then multiset{x} else multiset{})
    ensures forall from :: End([x], from) == x.end
    ensures Calm([x], false) && (Calm([x], true) <==> x.used)
  {
    assert [x][1..] == [];
  }

  lemma TwoBlocks(mem: map<int, Hdr>, x: Blk, y: Blk, p: int)
    ensures Tile([x, y], x.at) <==> Tile([x], x.at) && y.at == x.end && Tile([y], y.at)
    ensures Described(mem, [x, y], p) <==> Described(mem, [x], p) && Described(mem, [y], x.at)
    ensures UsedBytes([x, y]) == UsedBytes([x]) + UsedBytes([y])
    ensures Live([x, y]) == Live([x]) + Live([y])
    ensures forall from :: End([x, y], from) == y.end
    ensures Calm([x, y], false) <==> x.used || y.used
    ensures Calm([x, y], true) <==> x.used
  {
    assert [x, y][1..] == [y] && [y][1..] == [] && [x][1..] == [];
    assert (Calm([y], true) <==> y.used) && Calm([y], false);
  }

  lemma StretchEnd(s: seq<Blk>, i: nat, k: nat)
    requires i < k <= |s|
    ensures forall from :: End(s[i..k], from) == s[k - 1].end
  {
  }

  lemma NoRebase(mem: map<int, Hdr>, mem1: map<int, Hdr>, s: seq<Blk>, p: int, hi: int)
    ensures s == [] ==> Rebased(mem, mem1, s, p, hi)
  {
  }

  /** Replacing blocks i up to k, where memory keeps the headers before them and,
      but for one prev, those behind. */
  lemma Replace(mem: map<int, Hdr>, mem1: map<int, Hdr>, s: seq<Blk>, m: nat, i: nat, k: nat, mid: seq<Blk>)
    requires Good(mem, s, m) && i < k <= |s| && mid != []
    requires Tile(mid, s[i].at) && End(mid, s[i].at) == s[k - 1].end
    requires Described(mem1, mid, LastAt(s[..i], 0)) && Same(mem, mem1, 0, s[i].at)
    requires k < |s| ==> Rebased(mem, mem1, s[k..], LastAt(mid, 0), m + SIZE)
    requires m + SIZE in mem1 && mem1[m + SIZE].used && mem1[m + SIZE].next == m + SIZE
    ensures Good(mem1, Splice(s, i, k, mid), m)
  {
    hide Tile, Described, End, LastAt, Same, Rebased;
    TileAt(s, 0, i);
    Pieces(s, i, k);
    StretchEnd(s, i, k);
    NoRebase(mem, mem1, s[k..], LastAt(mid, 0), m + SIZE);
    Rewired(mem, mem1, s[..i], s[i..k], s[k..], mid);
  }

  lemma SpliceSums(s: seq<Blk>, i: nat, k: nat, mid: seq<Blk>)
    requires i <= k <= |s|
    ensures UsedBytes(Splice(s, i, k, mid)) == UsedBytes(s) - UsedBytes(s[i..k]) + UsedBytes(mid)
    ensures Live(Splice(s, i, k, mid)) == Live(s) - Live(s[i..k]) + Live(mid)
  {
    Pieces(s, i, k);
    UsedConcat(s[..i], s[i..k] + s[k..]);
    UsedConcat(s[i..k], s[k..]);
    UsedConcat(s[..i], mid + s[k..]);
    UsedConcat(mid, s[k..]);
  }

  // ----- marking -----

  lemma MarkGood(mem: map<int, Hdr>, s: seq<Blk>, m: nat, i: nat, used: bool)
    requires Good(mem, s, m) && i < |s|
    ensures s[i].at in mem
    ensures var t := s[i := s[i].(used := used)];
      Good(mem[s[i].at := mem[s[i].at].(used := used)], t, m)
  {
    hide Tile, Described, End, Live, UsedBytes, Good, Aligned;
    HeaderAt(mem, s, m, i);
    var x, y := s[i], s[i].(used := used);
    var mem1 := mem[x.at := mem[x.at].(used := used)];
    OneBlock(mem1, y, mem[x.at].prev);
    assert s[i := y] == Splice(s, i, i + 1, [y]) && s[i..i + 1] == [x];
    if i + 1 < |s| { HeaderAt(mem, s, m, i + 1); }
    Replace(mem, mem1, s, m, i, i + 1, [y]);
  }

  lemma MarkSums(s: seq<Blk>, i: nat, used: bool)
    requires i < |s| && s[i].used != used
    ensures var t := s[i := s[i].(used := used)]; var d := s[i].end - s[i].at;
      if used then UsedBytes(t) == UsedBytes(s) + d && Live(t) == Live(s) + multiset{t[i]}
      else UsedBytes(t) == UsedBytes(s) - d && Live(t) == Live(s) - multiset{s[i]}
  {
    hide UsedBytes, Live;
    var x, y := s[i], s[i].(used := used);
    SpliceSums(s, i, i + 1, [y]);
    assert s[i := y] == Splice(s, i, i + 1, [y]) && s[i..i + 1] == [x];
    OneBlock(map[], x, 0);
    OneBlock(map[], y, 0);
  }

  // ----- splitting -----

  /** Block i cut to len data bytes and used; the rest becomes a free block. */
  function Cut(s: seq<Blk>, i: nat, len: int): seq<Blk>
    requires i < |s|
  {
    var at2 := s[i].at + SIZE + len;
    Splice(s, i, i + 1, [Blk(s[i].at, at2, true), Blk(at2, s[i].end, false)])
  }

  /** The writes that split the block at `at`. */
  function CutMem(mem: map<int, Hdr>, at: int, at2: int, m: nat): map<int, Hdr>
    requires at in mem && mem[at].next in mem
  {
    var next := mem[at].next;
    var mem1 := mem[at2 := Hdr(false, next, at)][at := Hdr(true, at2, mem[at].prev)];
    if next != m + SIZE then mem1[next := mem[next].(prev := at2)] else mem1
  }

  lemma CutFrames(mem: map<int, Hdr>, at: int, at2: int, m: nat)
    requires at in mem && mem[at].next in mem && at < at2 < mem[at].next <= m + SIZE && m + SIZE in mem
    ensures var mem1 := CutMem(mem, at, at2, m); var next := mem[at].next;
      && Same(mem, mem1, 0, at) && Same(mem, mem1, next + 1, m + SIZE)
      && at in mem1 && mem1[at] == Hdr(true, at2, mem[at].prev)
      && at2 in mem1 && mem1[at2] == Hdr(false, next, at)
      && next in mem1 && mem1[next] == (if next < m + SIZE then mem[next].(prev := at2) else mem[next])
      && m + SIZE in mem1 && mem1[m + SIZE] == mem[m + SIZE]
  {
  }

  lemma CutGood(mem: map<int, Hdr>, s: seq<Blk>, m: nat, i: nat, len: int)
    requires Good(mem, s, m) && i < |s| && 0 <= len && len + SIZE <= Len(s[i]) && Aligned(s[i].at + SIZE + len)
    ensures s[i].at in mem && mem[s[i].at].next in mem
    ensures Good(CutMem(mem, s[i].at, s[i].at + SIZE + len, m), Cut(s, i, len), m)
  {
    hide Tile, Described, End, Live, UsedBytes, Good, Aligned, Same, CutMem;
    HeaderAt(mem, s, m, i);
    CutFrames(mem, s[i].at, s[i].at + SIZE + len, m);
    var x := s[i];
    var at2 := x.at + SIZE + len;
    var mem1 := CutMem(mem, x.at, at2, m);
    var u, v := Blk(x.at, at2, true), Blk(at2, x.end, false);
    TwoBlocks(mem1, u, v, mem[x.at].prev);
    OneBlock(mem1, u, mem[x.at].prev);
    OneBlock(mem1, v, x.at);
    if i + 1 < |s| { HeaderAt(mem, s, m, i + 1); }
    Replace(mem, mem1, s, m, i, i + 1, [u, v]);
  }

  lemma CutSums(s: seq<Blk>, i: nat, len: int)
    requires i < |s|
    ensures var x := s[i]; var u := Blk(x.at, x.at + SIZE + len, true);
      && UsedBytes(Cut(s, i, len)) == UsedBytes(s) - (if x.used then x.end - x.at else 0) + SIZE + len
      && Live(Cut(s, i, len)) == Live(s) - (if x.used then multiset{x} else multiset{}) + multiset{u}
  {
    hide UsedBytes, Live;
    var x := s[i];
    var at2 := x.at + SIZE + len;
    var u, v := Blk(x.at, at2, true), Blk(at2, x.end, false);
    SpliceSums(s, i, i + 1, [u, v]);
    assert s[i..i + 1] == [x];
    OneBlock(map[], x, 0);
    OneBlock(map[], u, 0);
    OneBlock(map[], v, 0);
    TwoBlocks(map[], u, v, 0);
    assert Live([u, v]) == multiset{u};
  }

  /** Coalescing after a replacement is a matter of the two seams. */
  lemma CalmSplice(s: seq<Blk>, i: nat, k: nat, mid: seq<Blk>)
    requires i < k <= |s| && Calm(s, false) && mid != []
    requires Calm(mid, i > 0 && !s[i - 1].used) && (k < |s| && !s[k].used ==> mid[|mid| - 1].used)
    ensures Calm(Splice(s, i, k, mid), false)
  {
    Pieces(s, i, k);
    var a, z, f := s[..i], s[k..], EndsFree(s[..i], false);
    CalmConcat(a, s[i..k] + z, false);
    CalmConcat(s[i..k], z, f);
    CalmConcat(a, mid + z, false);
    CalmConcat(mid, z, f);
    assert z != [] ==> z[0] == s[k];
  }

  lemma CutCalm(s: seq<Blk>, i: nat, len: int)
    requires i < |s| && Calm(s, false)
    ensures (i + 1 < |s| ==> s[i + 1].used) ==> Calm(Cut(s, i, len), false)
    ensures var c := Cut(s, i, len); i + 1 < |c| && Calm(c[i + 1 := c[i + 1].(used := true)], false)
  {
    hide Calm;
    var at2 := s[i].at + SIZE + len;
    var u, v := Blk(s[i].at, at2, true), Blk(at2, s[i].end, false);
    var w := v.(used := true);
    TwoBlocks(map[], u, v, 0);
    TwoBlocks(map[], u, w, 0);
    OneBlock(map[], u, 0);
    CalmSplice(s, i, i + 1, [u, w]);
    var c := Cut(s, i, len);
    assert c[i + 1 := w] == Splice(s, i, i + 1, [u, w]);
    if i + 1 < |s| ==> s[i + 1].used { CalmSplice(s, i, i + 1, [u, v]); }
  }

  lemma MarkCalm(s: seq<Blk>, i: nat)
    requires i < |s| && Calm(s, false)
    ensures Calm(s[i := s[i].(used := true)], false)
  {
    hide Calm;
    var y := s[i].(used := true);
    OneBlock(map[], y, 0);
    CalmSplice(s, i, i + 1, [y]);
    assert s[i := y] == Splice(s, i, i + 1, [y]);
  }

  // ----- merging -----

  function Pair(s: seq<Blk>, k: nat): seq<Blk>
    requires k + 1 < |s|
  {
    Splice(s, k, k + 2, [Blk(s[k].at, s[k + 1].end, false)])
  }

  /** The writes that merge the block at `at` with the one behind it. */
  function PairMem(mem: map<int, Hdr>, at: int): map<int, Hdr>
    requires at in mem && mem[at].next in mem && mem[mem[at].next].next in mem
  {
    var end := mem[mem[at].next].next;
    var mem1 := mem[at := mem[at].(next := end)];
    mem1[end := mem1[end].(prev := at)]
  }

  lemma PairGood(mem: map<int, Hdr>, s: seq<Blk>, m: nat, k: nat)
    requires Good(mem, s, m) && k + 1 < |s| && !s[k].used && !s[k + 1].used
    ensures s[k].at in mem && mem[s[k].at].next in mem && mem[mem[s[k].at].next].next in mem
    ensures Good(PairMem(mem, s[k].at), Pair(s, k), m)
  {
    hide Tile, Described, End, Live, UsedBytes, Good, Aligned;
    HeaderAt(mem, s, m, k);
    HeaderAt(mem, s, m, k + 1);
    var x, y := s[k], s[k + 1];
    var mem1 := PairMem(mem, x.at);
    var u := Blk(x.at, y.end, false);
    OneBlock(mem1, u, mem[x.at].prev);
    if k + 2 < |s| { HeaderAt(mem, s, m, k + 2); }
    Replace(mem, mem1, s, m, k, k + 2, [u]);
  }

  lemma MergedSums(s: seq<Blk>, i: nat)
    requires i < |s| && !s[i].used
    ensures UsedBytes(Merged(s, i)) == UsedBytes(s) && Live(Merged(s, i)) == Live(s)
  {
    hide UsedBytes, Live, Splice;
    var lo, hi := Lo(s, i), Hi(s, i);
    var u := Blk(s[lo].at, s[hi - 1].end, false);
    SpliceSums(s, lo, hi, [u]);
    OneBlock(map[], u, 0);
    StretchFree(s, i);
    FreeSums(s[lo..hi]);
    NoLive(Live(s));
  }

  lemma NoLive(l: multiset<Blk>)
    ensures l - multiset{} + multiset{} == l
  {
  }

  lemma StretchFree(s: seq<Blk>, i: nat)
    requires i < |s| && !s[i].used
    ensures forall b :: b in s[Lo(s, i)..Hi(s, i)] ==> !b.used
  {
  }

  lemma {:induction false} FreeSums(s: seq<Blk>)
    requires forall b :: b in s ==> !b.used
    ensures UsedBytes(s) == 0 && Live(s) == multiset{}
  {
    if s != [] {
      assert s[0] in s;
      FreeSums(s[1..]);
    }
  }

  /** First and last block of the stretch that free block i joins. */
  function Lo(s: seq<Blk>, i: nat): nat
    requires i < |s|
  {
    if i > 0 && !s[i - 1].used then i - 1 else i
  }

  function Hi(s: seq<Blk>, i: nat): nat
    requires i < |s|
  {
    if i + 1 < |s| && !s[i + 1].used then i + 2 else i + 1
  }

  /** Free block i merged with its free neighbours. */
  function Merged(s: seq<Blk>, i: nat): seq<Blk>
    requires i < |s|
  {
    var lo, hi := Lo(s, i), Hi(s, i);
    Splice(s, lo, hi, [Blk(s[lo].at, s[hi - 1].end, false)])
  }

  /** Merging leaves no two free neighbours if block i was the only trouble. */
  lemma MergedCalm(s: seq<Blk>, i: nat)
    requires i < |s| && !s[i].used && Calm(s[i := s[i].(used := true)], false)
    ensures Calm(Merged(s, i), false)
  {
    hide Calm;
    var t := s[i := s[i].(used := true)];
    var lo, hi := Lo(s, i), Hi(s, i);
    if lo < i && lo > 0 { CalmAt(t, false, lo - 1); }
    if hi > i + 1 && hi < |s| { CalmAt(t, false, hi - 1); }
    var u := Blk(s[lo].at, s[hi - 1].end, false);
    OneBlock(map[], u, 0);
    CalmSplice(t, lo, hi, [u]);
    assert Merged(s, i) == Splice(t, lo, hi, [u]);
  }
}
