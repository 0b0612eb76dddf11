/** Block headers of the memheap allocator as they lie in memory. An item is
    known by its address; its six words are magic, pool, next, prev, next_free
    and prev_free, at the offsets below. Both the block list and the free list
    are rings of items threaded through this one memory, so headers that overlap
    do overwrite each other here. */
module MemHeapCore {
  import opened Words

  type Memory = map<int, int>

  const SIZE := 24        // RT_MEMHEAP_SIZE
  const MINI := 12        // RT_MEMHEAP_MINIALLOC
  const MAGIC := 0x1ea01ea0
  const USED := 1

  const POOL := 4
  const NEXT := 8
  const PREV := 12
  const NFREE := 16
  const PFREE := 20

  // ----- sequences -----

  function Remove(s: seq<int>, k: nat): seq<int>
    requires k < |s|
  {
    s[..k] + s[k + 1..]
  }

  function Insert(s: seq<int>, k: nat, x: int): seq<int>
    requires k <= |s|
  {
    s[..k] + [x] + s[k..]
  }

  // ----- rings of items -----

  ghost predicate Spaced(s: seq<int>) {
    forall i, j {:trigger Apart(s[i], s[j])} :: 0 <= i < |s| && 0 <= j < |s| && i != j ==> Apart(s[i], s[j])
  }

  ghost predicate Apart(x: int, y: int) {
    x + SIZE <= y || y + SIZE <= x
  }

  function Succ(s: seq<int>, i: nat): int
    requires i < |s|
  {
    if i + 1 < |s| then s[i + 1] else s[0]
  }

  function Pred(s: seq<int>, i: nat): int
    requires i < |s|
  {
    if i > 0 then s[i - 1] else s[|s| - 1]
  }

  ghost predicate LinkFields(f: int, b: int) {
    (f == NEXT && b == PREV) || (f == NFREE && b == PFREE)
  }

  ghost predicate LinkAt(mem: Memory, s: seq<int>, i: nat, f: int, b: int)
    requires i < |s|
  {
    && s[i] + f in mem && mem[s[i] + f] == Succ(s, i)
    && s[i] + b in mem && mem[s[i] + b] == Pred(s, i)
  }

  /** The items of s, in order, form one ring through forward field f and
      backward field b. */
  ghost predicate Ring(mem: Memory, s: seq<int>, f: int, b: int) {
    forall i :: 0 <= i < |s| ==> LinkAt(mem, s, i, f, b)
  }

  /** The two writes that take item x out of a ring. */
  function Unlinked(mem: Memory, x: int, f: int, b: int): Memory
    requires x + f in mem && x + b in mem
  {
    var n, p := mem[x + f], mem[x + b];
    mem[n + b := p][p + f := n]
  }

  /** The four writes that put item x into a ring right after item a. */
  function LinkedAfter(mem: Memory, a: int, x: int, f: int, b: int): Memory
    requires a + f in mem
  {
    var n := mem[a + f];
    mem[x + b := a][x + f := n][n + b := x][a + f := x]
  }

  lemma UnlinkRing(mem: Memory, s: seq<int>, k: nat, f: int, b: int)
    requires LinkFields(f, b) && Spaced(s) && k < |s| && |s| >= 2 && Ring(mem, s, f, b)
    requires s[k] + f in mem && s[k] + b in mem
    ensures Ring(Unlinked(mem, s[k], f, b), Remove(s, k), f, b)
  {
    var mem2, t := Unlinked(mem, s[k], f, b), Remove(s, k);
    var pk, nk := if k > 0 then k - 1 else |s| - 1, if k + 1 < |s| then k + 1 else 0;
    assert LinkAt(mem, s, k, f, b);
    forall i | 0 <= i < |t|
      ensures LinkAt(mem2, t, i, f, b)
    {
      var j := if i < k then i else i + 1;
      assert t[i] == s[j] && LinkAt(mem, s, j, f, b);
      assert j != pk ==> Apart(s[j], s[pk]);
      assert j != nk ==> Apart(s[j], s[nk]);
      assert Succ(t, i) == if j == pk then s[nk] else Succ(s, j);
      assert Pred(t, i) == if j == nk then s[pk] else Pred(s, j);
    }
  }

  lemma LinkRing(mem: Memory, s: seq<int>, k: nat, x: int, f: int, b: int)
    requires LinkFields(f, b) && k < |s| && Spaced(Insert(s, k + 1, x)) && Ring(mem, s, f, b)
    requires s[k] + f in mem
    ensures Ring(LinkedAfter(mem, s[k], x, f, b), Insert(s, k + 1, x), f, b)
  {
    var mem2, t := LinkedAfter(mem, s[k], x, f, b), Insert(s, k + 1, x);
    var nk := if k + 2 < |t| then k + 2 else 0;
    assert LinkAt(mem, s, k, f, b) && mem[s[k] + f] == t[nk];
    assert t[k] == s[k] && t[k + 1] == x;
    assert Apart(t[k + 1], t[k]) && Apart(t[k + 1], t[nk]);
    forall i | 0 <= i < |t|
      ensures LinkAt(mem2, t, i, f, b)
    {
      if i != k + 1 {
        var j := if i <= k then i else i - 1;
        assert t[i] == s[j] && LinkAt(mem, s, j, f, b);
        assert Apart(t[i], t[k + 1]);
        assert i != k ==> Apart(t[i], t[k]);
        assert i != nk ==> Apart(t[i], t[nk]);
      }
    }
  }

  // ----- frames -----

  /** Headers of an arena never overlap. */
  ghost predicate Arena(I: set<int>) {
    forall x, y :: x in I && y in I && x != y ==> Apart(x, y)
  }

  lemma SpacedIn(s: seq<int>, I: set<int>)
    requires Arena(I) && NoDupInts(s) && forall x <- s :: x in I
    ensures Spaced(s)
  {
    forall i, j | 0 <= i < |s| && 0 <= j < |s| && i != j ensures Apart(s[i], s[j]) {
      assert s[i] in s && s[j] in s;
    }
  }

  /** Only fields f and b of the arena's items may differ. */
  ghost predicate Agree(mem: Memory, mem2: Memory, I: set<int>, f: int, b: int) {
    && mem2.Keys == mem.Keys
    && forall w :: w in mem && w - f !in I && w - b !in I ==> mem2[w] == mem[w]
  }

  lemma FieldKept(mem: Memory, mem2: Memory, I: set<int>, f: int, b: int, x: int, g: int)
    requires Arena(I) && Agree(mem, mem2, I, f, b) && x in I && x + g in mem
    requires 0 <= f < SIZE && 0 <= b < SIZE && 0 <= g < SIZE && g != f && g != b
    ensures x + g in mem2 && mem2[x + g] == mem[x + g]
  {
    assert x + g - f in I && g != f ==> Apart(x, x + g - f);
    assert x + g - b in I && g != b ==> Apart(x, x + g - b);
  }

  lemma RingKept(mem: Memory, mem2: Memory, I: set<int>, f: int, b: int, s: seq<int>, f2: int, b2: int)
    requires Arena(I) && Agree(mem, mem2, I, f, b) && forall x <- s :: x in I
    requires LinkFields(f2, b2) && Ring(mem, s, f2, b2)
    requires 0 <= f < SIZE && 0 <= b < SIZE && f2 != f && f2 != b && b2 != f && b2 != b
    ensures Ring(mem2, s, f2, b2)
  {
    forall i | 0 <= i < |s| ensures LinkAt(mem2, s, i, f2, b2) {
      assert LinkAt(mem, s, i, f2, b2);
      FieldKept(mem, mem2, I, f, b, s[i], f2);
      FieldKept(mem, mem2, I, f, b, s[i], b2);
    }
  }

  /** Takes item k out of a ring inside the arena. */
  lemma Unlink(mem: Memory, I: set<int>, s: seq<int>, k: nat, f: int, b: int)
    requires Arena(I) && NoDupInts(s) && (forall x <- s :: x in I) && k < |s| && |s| >= 2
    requires LinkFields(f, b) && Ring(mem, s, f, b)
    ensures s[k] + f in mem && s[k] + b in mem && mem[s[k] + f] == Succ(s, k) && mem[s[k] + b] == Pred(s, k)
    ensures var mem2 := Unlinked(mem, s[k], f, b);
      Ring(mem2, Remove(s, k), f, b) && Agree(mem, mem2, I, f, b)
  {
    assert LinkAt(mem, s, k, f, b);
    SpacedIn(s, I);
    UnlinkRing(mem, s, k, f, b);
    var pk, nk := if k > 0 then k - 1 else |s| - 1, if k + 1 < |s| then k + 1 else 0;
    assert LinkAt(mem, s, pk, f, b) && LinkAt(mem, s, nk, f, b) && s[pk] in I && s[nk] in I;
  }

  /** Puts item x into a ring inside the arena, after item k. */
  lemma Link(mem: Memory, I: set<int>, s: seq<int>, k: nat, x: int, f: int, b: int)
    requires Arena(I) && NoDupInts(s) && (forall y <- s :: y in I) && k < |s| && x in I && x !in s
    requires LinkFields(f, b) && Ring(mem, s, f, b) && x + f in mem && x + b in mem
    ensures s[k] + f in mem && mem[s[k] + f] == Succ(s, k)
    ensures var mem2 := LinkedAfter(mem, s[k], x, f, b);
      Ring(mem2, Insert(s, k + 1, x), f, b) && Agree(mem, mem2, I, f, b)
  {
    var t := Insert(s, k + 1, x);
    assert LinkAt(mem, s, k, f, b);
    assert forall y <- t :: y in I;
    assert NoDupInts(t);
    SpacedIn(t, I);
    LinkRing(mem, s, k, x, f, b);
    var nk := if k + 1 < |s| then k + 1 else 0;
    assert LinkAt(mem, s, nk, f, b) && s[nk] in I && s[k] in I;
  }
}
