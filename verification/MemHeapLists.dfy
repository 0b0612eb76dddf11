/** The block list and the free list of a memheap living side by side in one
    memory, and what each group of pointer writes does to them. */
module MemHeapLists {
  import opened Words
  import opened MemHeapCore

  /** b is the block list and fr the free list (behind its header hdr); all
      their items are headers of the arena I. */
  ghost predicate Lists(hdr: int, mem: Memory, I: set<int>, b: seq<int>, fr: seq<int>) {
    && Arena(I) && hdr in I && hdr !in b && hdr !in fr
    && (forall x <- b :: x in I) && (forall x <- fr :: x in I)
    && NoDupInts(b) && NoDupInts(fr)
    && Backed(mem, I)
    && Ring(mem, b, NEXT, PREV) && Ring(mem, [hdr] + fr, NFREE, PFREE)
  }

  ghost predicate Backed(mem: Memory, I: set<int>) {
    forall x, w :: x in I && x <= w < x + SIZE ==> w in mem
  }

  ghost predicate Flag(self: int, mem: Memory, x: int, used: bool) {
    && x in mem && mem[x] == (if used then MAGIC + USED else MAGIC)
    && x + POOL in mem && mem[x + POOL] == self
  }

  /** Of the blocks in b, exactly those in U are marked used. */
  ghost predicate Flags(self: int, mem: Memory, b: seq<int>, U: set<int>) {
    forall x <- b :: Flag(self, mem, x, x in U)
  }

  /** w lies in no header of I. */
  ghost predicate Quiet(w: int, I: set<int>) {
    forall x :: x in I ==> w < x || x + SIZE <= w
  }

  ghost predicate DataKept(mem: Memory, mem2: Memory, I: set<int>) {
    && mem2.Keys == mem.Keys
    && forall w :: w in mem && Quiet(w, I) ==> mem2[w] == mem[w]
  }

  lemma AgreeData(mem: Memory, mem2: Memory, I: set<int>, f: int, b: int)
    requires Agree(mem, mem2, I, f, b) && 0 <= f < SIZE && 0 <= b < SIZE
    ensures DataKept(mem, mem2, I)
  {
    forall w | w in mem && Quiet(w, I) ensures mem2[w] == mem[w] {
      assert w - f !in I && w - b !in I;
    }
  }

  lemma FlagsKept(self: int, mem: Memory, mem2: Memory, I: set<int>, b: seq<int>, U: set<int>, f: int, g: int)
    requires Arena(I) && Agree(mem, mem2, I, f, g) && (forall x <- b :: x in I)
    requires Flags(self, mem, b, U) && POOL < f < SIZE && POOL < g < SIZE
    ensures Flags(self, mem2, b, U)
  {
    forall x <- b ensures Flag(self, mem2, x, x in U) {
      assert Flag(self, mem, x, x in U);
      FieldKept(mem, mem2, I, f, g, x, 0);
      FieldKept(mem, mem2, I, f, g, x, POOL);
    }
  }

  ghost predicate Good(hdr: int, self: int, mem: Memory, I: set<int>, b: seq<int>, fr: seq<int>, U: set<int>) {
    Lists(hdr, mem, I, b, fr) && Flags(self, mem, b, U)
  }

  /** Takes fr[k] out of the free list. */
  lemma DropFree(hdr: int, self: int, mem: Memory, I: set<int>, b: seq<int>, fr: seq<int>, U: set<int>, k: nat)
    requires Good(hdr, self, mem, I, b, fr, U) && k < |fr|
    ensures fr[k] + NFREE in mem && fr[k] + PFREE in mem
    ensures mem[fr[k] + NFREE] == Succ([hdr] + fr, k + 1) && mem[fr[k] + PFREE] == Pred([hdr] + fr, k + 1)
    ensures var mem2 := Unlinked(mem, fr[k], NFREE, PFREE);
      Good(hdr, self, mem2, I, b, Remove(fr, k), U) && DataKept(mem, mem2, I)
  {
    var s := [hdr] + fr;
    assert s[k + 1] == fr[k];
    assert forall x <- s :: x in I;
    Unlink(mem, I, s, k + 1, NFREE, PFREE);
    var mem2 := Unlinked(mem, fr[k], NFREE, PFREE);
    assert Remove(s, k + 1) == [hdr] + Remove(fr, k);
    RingKept(mem, mem2, I, NFREE, PFREE, b, NEXT, PREV);
    FlagsKept(self, mem, mem2, I, b, U, NFREE, PFREE);
    AgreeData(mem, mem2, I, NFREE, PFREE);
  }

  /** Puts x at the front of the free list. */
  lemma PutFree(hdr: int, self: int, mem: Memory, I: set<int>, b: seq<int>, fr: seq<int>, U: set<int>, x: int)
    requires Good(hdr, self, mem, I, b, fr, U) && x in I && x != hdr && x !in fr
    ensures hdr + NFREE in mem && mem[hdr + NFREE] == Succ([hdr] + fr, 0)
    ensures var mem2 := LinkedAfter(mem, hdr, x, NFREE, PFREE);
      Good(hdr, self, mem2, I, b, [x] + fr, U) && DataKept(mem, mem2, I)
  {
    var s := [hdr] + fr;
    assert s[0] == hdr && forall y <- s :: y in I;
    assert x + NFREE in mem && x + PFREE in mem;
    Link(mem, I, s, 0, x, NFREE, PFREE);
    var mem2 := LinkedAfter(mem, hdr, x, NFREE, PFREE);
    assert Insert(s, 1, x) == [hdr] + ([x] + fr);
    RingKept(mem, mem2, I, NFREE, PFREE, b, NEXT, PREV);
    FlagsKept(self, mem, mem2, I, b, U, NFREE, PFREE);
    AgreeData(mem, mem2, I, NFREE, PFREE);
  }

  /** Takes b[j] out of the block list. */
  lemma DropBlock(hdr: int, self: int, mem: Memory, I: set<int>, b: seq<int>, fr: seq<int>, U: set<int>, j: nat)
    requires Good(hdr, self, mem, I, b, fr, U) && j < |b| && |b| >= 2
    ensures b[j] + NEXT in mem && b[j] + PREV in mem
    ensures mem[b[j] + NEXT] == Succ(b, j) && mem[b[j] + PREV] == Pred(b, j)
    ensures var mem2 := Unlinked(mem, b[j], NEXT, PREV);
      Good(hdr, self, mem2, I, Remove(b, j), fr, U) && DataKept(mem, mem2, I)
  {
    Unlink(mem, I, b, j, NEXT, PREV);
    var mem2 := Unlinked(mem, b[j], NEXT, PREV);
    var s := [hdr] + fr;
    assert forall y <- s :: y in I;
    RingKept(mem, mem2, I, NEXT, PREV, s, NFREE, PFREE);
    FlagsKept(self, mem, mem2, I, b, U, NEXT, PREV);
    assert forall x <- Remove(b, j) :: x in b;
    AgreeData(mem, mem2, I, NEXT, PREV);
  }

  /** A header written at x disturbs neither list. */
  lemma WriteHeader(hdr: int, self: int, mem: Memory, I: set<int>, b: seq<int>, fr: seq<int>, U: set<int>, x: int)
    requires Good(hdr, self, mem, I, b, fr, U) && x !in I && x !in U && Arena(I + {x}) && Backed(mem, I + {x})
    ensures var m1 := mem[x := MAGIC][x + POOL := self];
      && Lists(hdr, m1, I, b, fr) && Agree(mem, m1, I + {x}, 0, POOL) && DataKept(mem, m1, I + {x})
      && Flags(self, m1, b, U) && Flag(self, m1, x, false) && x + NEXT in m1 && x + PREV in m1
  {
    var J, s := I + {x}, [hdr] + fr;
    var m1 := mem[x := MAGIC][x + POOL := self];
    assert forall y <- s :: y in I;
    assert Agree(mem, m1, J, 0, POOL);
    RingKept(mem, m1, J, 0, POOL, b, NEXT, PREV);
    RingKept(mem, m1, J, 0, POOL, s, NFREE, PFREE);
    HeaderKept(self, mem, m1, I, b, U, x);
    AgreeData(mem, m1, J, 0, POOL);
    assert x + NEXT in m1 && x + PREV in m1;
  }

  /** Writes a free header at x and links it into the block list after b[j]. */
  lemma AddBlock(hdr: int, self: int, mem: Memory, I: set<int>, b: seq<int>, fr: seq<int>, U: set<int>, j: nat, x: int)
    requires Good(hdr, self, mem, I, b, fr, U) && j < |b| && x !in I && x !in U
    requires Arena(I + {x}) && Backed(mem, I + {x})
    ensures var m1 := mem[x := MAGIC][x + POOL := self];
      && b[j] + NEXT in m1 && m1[b[j] + NEXT] == mem[b[j] + NEXT] == Succ(b, j)
      && var mem2 := LinkedAfter(m1, b[j], x, NEXT, PREV);
      && Good(hdr, self, mem2, I + {x}, Insert(b, j + 1, x), fr, U) && DataKept(mem, mem2, I + {x})
  {
    hide Lists, Flags, Flag, DataKept, LinkedAfter, Arena, Backed;
    WriteHeader(hdr, self, mem, I, b, fr, U, x);
    var J, m1 := I + {x}, mem[x := MAGIC][x + POOL := self];
    BackedStays(mem, m1, J);
    NextSame(hdr, mem, m1, I, b, fr, j, x);
    LinkBlock(hdr, self, m1, I, b, fr, U, j, x);
    DataTrans(mem, m1, LinkedAfter(m1, b[j], x, NEXT, PREV), J);
  }

  lemma BackedStays(mem: Memory, m1: Memory, J: set<int>)
    requires Backed(mem, J) && forall w :: w in mem ==> w in m1
    ensures Backed(m1, J)
  {
  }

  lemma NextSame(hdr: int, mem: Memory, m1: Memory, I: set<int>, b: seq<int>, fr: seq<int>, j: nat, x: int)
    requires Lists(hdr, mem, I, b, fr) && Lists(hdr, m1, I, b, fr) && j < |b|
    ensures b[j] + NEXT in m1 && b[j] + NEXT in mem && m1[b[j] + NEXT] == mem[b[j] + NEXT] == Succ(b, j)
  {
    assert LinkAt(mem, b, j, NEXT, PREV) && LinkAt(m1, b, j, NEXT, PREV);
  }

  lemma DataTrans(m0: Memory, m1: Memory, m2: Memory, J: set<int>)
    requires DataKept(m0, m1, J) && DataKept(m1, m2, J)
    ensures DataKept(m0, m2, J)
  {
  }

  lemma LinkBlock(hdr: int, self: int, m1: Memory, I: set<int>, b: seq<int>, fr: seq<int>, U: set<int>, j: nat, x: int)
    requires Lists(hdr, m1, I, b, fr) && j < |b| && x !in I && x !in U && Arena(I + {x}) && Backed(m1, I + {x})
    requires Flags(self, m1, b, U) && Flag(self, m1, x, false) && b[j] + NEXT in m1
    ensures var mem2 := LinkedAfter(m1, b[j], x, NEXT, PREV);
      Good(hdr, self, mem2, I + {x}, Insert(b, j + 1, x), fr, U) && DataKept(m1, mem2, I + {x})
  {
    var J, s := I + {x}, [hdr] + fr;
    assert forall y <- s :: y in I;
    assert LinkAt(m1, b, j, NEXT, PREV);
    Link(m1, J, b, j, x, NEXT, PREV);
    var mem2, t := LinkedAfter(m1, b[j], x, NEXT, PREV), Insert(b, j + 1, x);
    RingKept(m1, mem2, J, NEXT, PREV, s, NFREE, PFREE);
    assert forall y <- t :: y == x || y in b;
    FlagsKept(self, m1, mem2, J, t, U, NEXT, PREV);
    AgreeData(m1, mem2, J, NEXT, PREV);
  }

  lemma HeaderKept(self: int, mem: Memory, m1: Memory, I: set<int>, b: seq<int>, U: set<int>, x: int)
    requires Arena(I + {x}) && x !in I && x !in U && (forall y <- b :: y in I) && Flags(self, mem, b, U)
    requires m1 == mem[x := MAGIC][x + POOL := self]
    ensures Flags(self, m1, b, U) && Flag(self, m1, x, false)
  {
    forall y <- b ensures Flag(self, m1, y, y in U) {
      assert y in I + {x} && x in I + {x} && Apart(x, y);
      assert Flag(self, mem, y, y in U);
    }
  }

  /** Rewrites the used mark of block x. */
  lemma SetFlag(hdr: int, self: int, mem: Memory, I: set<int>, b: seq<int>, fr: seq<int>, U: set<int>, x: int, used: bool)
    requires Good(hdr, self, mem, I, b, fr, U) && x in b
    ensures var mem2 := mem[x := if used then MAGIC + USED else MAGIC];
      && Good(hdr, self, mem2, I, b, fr, if used then U + {x} else U - {x}) && DataKept(mem, mem2, I)
  {
    var mem2 := mem[x := if used then MAGIC + USED else MAGIC];
    var U2, s := if used then U + {x} else U - {x}, [hdr] + fr;
    assert forall y <- s :: y in I;
    assert Flag(self, mem, x, x in U);
    assert Agree(mem, mem2, I, 0, 0);
    RingKept(mem, mem2, I, 0, 0, b, NEXT, PREV);
    RingKept(mem, mem2, I, 0, 0, s, NFREE, PFREE);
    forall y <- b ensures Flag(self, mem2, y, y in U2) {
      assert Flag(self, mem, y, y in U);
      FieldKept(mem, mem2, I, 0, 0, y, POOL);
    }
    AgreeData(mem, mem2, I, 0, 0);
  }

  /** Clears the free-list links of an item that is not on the free list. */
  lemma ClearLinks(hdr: int, self: int, mem: Memory, I: set<int>, b: seq<int>, fr: seq<int>, U: set<int>, x: int)
    requires Good(hdr, self, mem, I, b, fr, U) && x in I && x != hdr && x !in fr
    ensures var mem2 := mem[x + NFREE := 0][x + PFREE := 0];
      Good(hdr, self, mem2, I, b, fr, U) && DataKept(mem, mem2, I)
  {
    var mem2, s := mem[x + NFREE := 0][x + PFREE := 0], [hdr] + fr;
    assert x + NFREE in mem && x + PFREE in mem;
    assert Agree(mem, mem2, I, NFREE, PFREE);
    RingKept(mem, mem2, I, NFREE, PFREE, b, NEXT, PREV);
    FlagsKept(self, mem, mem2, I, b, U, NFREE, PFREE);
    forall i | 0 <= i < |s| ensures LinkAt(mem2, s, i, NFREE, PFREE) {
      assert LinkAt(mem, s, i, NFREE, PFREE);
      assert s[i] in I && s[i] != x && Apart(s[i], x);
    }
    AgreeData(mem, mem2, I, NFREE, PFREE);
  }
}
