/** The memheap allocator: rt_memheap_init, alloc, realloc and free as the
    pointer writes they are, over one word-addressed memory. The semaphore lock
    is not modelled: each operation runs alone. */
module MemHeap {
  import opened Words
  import opened MemHeapCore
  import opened MemHeapLists
  import opened MemHeapShape
  import opened MemHeapInv
  import opened MemHeapOps

  /** The list structure at a point inside an operation. */
  datatype View = View(I: set<int>, b: seq<int>, fr: seq<int>, U: set<int>)

  class MemHeap {
    const c: Conf
    var mem: Memory
    var available: int
    var maxUsed: int
    ghost var blocks: seq<Blk>
    ghost var free: seq<int>

    ghost predicate Valid()
      reads this
    {
      && Inv(c, mem, blocks, free)
      && available == FreeBytes(blocks) && c.size - available <= maxUsed
      && LiveMin(blocks)
    }

    /** rt_memheap_init: one free block and the used tail. */
    constructor (conf: Conf, ram: Memory, size: int)
      requires conf.Ok() && Covers(conf, ram) && conf.size == size - size % 4
      ensures Valid() && c == conf
      ensures blocks == [Blk(conf.start, conf.size - 2 * SIZE, true)] && free == [conf.start]
      ensures available == conf.size - 2 * SIZE && maxUsed == 2 * SIZE
    {
      hide Inv, Covers, Ready;
      c := conf;
      available := conf.size - 2 * SIZE;
      maxUsed := conf.size - (conf.size - 2 * SIZE);
      var m := Format(conf, ram);
      mem := m;
      blocks, free := [Blk(conf.start, conf.size - 2 * SIZE, true)], [conf.start];
      new;
      ReadyInv(c, mem);
    }

    ghost predicate Holds(v: View)
      reads this
    {
      Good(c.hdr, c.self, mem, v.I, v.b, v.fr, v.U)
    }

    ghost function Now(): View
      reads this
    {
      View(Items(c, blocks), Headers(c, blocks), free, UsedSet(c, blocks))
    }

    // ----- groups of pointer writes -----

    /** x leaves the free list. */
    method UnlinkFree(x: int, ghost v: View, ghost k: nat)
      requires Holds(v) && k < |v.fr| && v.fr[k] == x
      modifies this`mem
      ensures Holds(v.(fr := Remove(v.fr, k))) && DataKept(old(mem), mem, v.I)
    {
      DropFree(c.hdr, c.self, mem, v.I, v.b, v.fr, v.U, k);
      FreeNeighbours(c.hdr, c.self, mem, v.I, v.b, v.fr, v.U, k);
      mem := mem[mem[x + NFREE] + PFREE := mem[x + PFREE]];
      mem := mem[mem[x + PFREE] + NFREE := mem[x + NFREE]];
    }

    /** x becomes the first item of the free list. */
    method PushFree(x: int, ghost v: View)
      requires Holds(v) && x in v.I && x != c.hdr && x !in v.fr
      modifies this`mem
      ensures Holds(v.(fr := [x] + v.fr)) && DataKept(old(mem), mem, v.I)
    {
      PutFree(c.hdr, c.self, mem, v.I, v.b, v.fr, v.U, x);
      FrontApart(c.hdr, c.self, mem, v.I, v.b, v.fr, v.U, x);
      var n := mem[c.hdr + NFREE];
      mem := mem[x + PFREE := c.hdr];
      mem := mem[x + NFREE := mem[c.hdr + NFREE]];
      mem := mem[mem[c.hdr + NFREE] + PFREE := x];
      mem := mem[c.hdr + NFREE := x];
    }

    /** x leaves the block list. */
    method UnlinkBlock(x: int, ghost v: View, ghost j: nat)
      requires Holds(v) && j < |v.b| && |v.b| >= 2 && v.b[j] == x
      modifies this`mem
      ensures Holds(v.(b := Remove(v.b, j))) && DataKept(old(mem), mem, v.I)
    {
      DropBlock(c.hdr, c.self, mem, v.I, v.b, v.fr, v.U, j);
      BlockNeighbours(c.hdr, c.self, mem, v.I, v.b, v.fr, v.U, j);
      mem := mem[mem[x + NEXT] + PREV := mem[x + PREV]];
      mem := mem[mem[x + PREV] + NEXT := mem[x + NEXT]];
    }

    /** A free header is written at q and follows h in the block list. */
    method NewBlock(h: int, q: int, ghost v: View, ghost j: nat)
      requires Holds(v) && j < |v.b| && v.b[j] == h && q !in v.I && q !in v.U
      requires Arena(v.I + {q}) && Backed(mem, v.I + {q})
      modifies this`mem
      ensures Holds(v.(I := v.I + {q}, b := Insert(v.b, j + 1, q))) && DataKept(old(mem), mem, v.I + {q})
    {
      AddBlock(c.hdr, c.self, mem, v.I, v.b, v.fr, v.U, j, q);
      BlockApart(c.hdr, c.self, mem, v.I, v.b, v.fr, v.U, j, q);
      mem := mem[q := MAGIC];
      mem := mem[q + POOL := c.self];
      mem := mem[q + PREV := h];
      mem := mem[q + NEXT := mem[h + NEXT]];
      mem := mem[mem[h + NEXT] + PREV := q];
      mem := mem[h + NEXT := q];
    }

    /** The used bit of x is set or cleared. */
    method Mark(x: int, used: bool, ghost v: View)
      requires Holds(v) && x in v.b && (used <==> x !in v.U)
      modifies this`mem
      ensures Holds(v.(U := if used then v.U + {x} else v.U - {x})) && DataKept(old(mem), mem, v.I)
    {
      SetFlag(c.hdr, c.self, mem, v.I, v.b, v.fr, v.U, x, used);
      assert Flag(c.self, mem, x, x in v.U);
      mem := mem[x := if used then mem[x] + USED else mem[x] - USED];
    }

    method Unthread(x: int, ghost v: View)
      requires Holds(v) && x in v.I && x != c.hdr && x !in v.fr
      modifies this`mem
      ensures Holds(v) && DataKept(old(mem), mem, v.I)
    {
      ClearLinks(c.hdr, c.self, mem, v.I, v.b, v.fr, v.U, x);
      mem := mem[x + NFREE := 0];
      mem := mem[x + PFREE := 0];
    }

    method ReadSize(x: int, ghost i: nat) returns (n: int)
      requires Inv(c, mem, blocks, free) && i < |blocks| && blocks[i].addr == x
      ensures n == blocks[i].len
    {
      ReadBlock(c, mem, blocks, free, i);
      n := mem[x + NEXT] - x - SIZE;
    }

    // ----- rt_memheap_alloc -----

    /** The search loop: the first block of the free list that is big enough. */
    method FindFree(size: int) returns (h: int, freeSize: int, ghost i: nat, ghost k: nat)
      requires Inv(c, mem, blocks, free) && size > 0
      ensures freeSize >= size ==>
        FirstFit(blocks, free, size, i, k) && h == blocks[i].addr && freeSize == blocks[i].len
      ensures freeSize < size ==> forall j :: 0 <= j < |blocks| && blocks[j].free ==> blocks[j].len < size
    {
      ReadFree(c, mem, blocks, free, 0);
      freeSize, i, k := 0, 0, 0;
      h := mem[c.hdr + NFREE];
      GoodDistinct(c.hdr, c.self, mem, Items(c, blocks), Headers(c, blocks), free, UsedSet(c, blocks));
      while h != c.hdr && freeSize < size
        invariant 0 <= k <= |free| && h == (if k < |free| then free[k] else c.hdr)
        invariant TooSmall(blocks, free[..k], size)
        invariant freeSize >= size ==>
          k < |free| && i < |blocks| && blocks[i].free && blocks[i].addr == h && freeSize == blocks[i].len
        decreases |free| - k, freeSize < size
      {
        assert free[k] in free;
        i := FreeBlock(blocks, free[k]);
        freeSize := ReadSize(h, i);
        if freeSize < size {
          ReadFree(c, mem, blocks, free, k + 1);
          SmallerOne(c, blocks, free, size, i, k);
          h := mem[h + NFREE];
          k := k + 1;
        }
      }
      if freeSize < size {
        AllSmall(blocks, free, size);
      }
    }

    /** A free block leaves the free list whole. */
    method TakeBlock(h: int, ghost i: nat, ghost k: nat)
      requires Inv(c, mem, blocks, free) && i < |blocks| && k < |free|
      requires blocks[i].free && blocks[i].addr == free[k] == h
      modifies this`mem, this`blocks, this`free
      ensures blocks == Taken(old(blocks), i) && free == Remove(old(free), k)
      ensures Inv(c, mem, blocks, free) && DataKept(old(mem), mem, Items(c, old(blocks)))
    {
      hide Good, DataKept;
      ghost var v := Now();
      GoodDistinct(c.hdr, c.self, mem, v.I, v.b, v.fr, v.U);
      assert v.b[i] == h;
      UnlinkFree(h, v, k);
      v := v.(fr := Remove(v.fr, k));
      RemoveIn(free, k, h);
      ghost var m1 := mem;
      Unthread(h, v);
      DataThen(old(mem), m1, mem, v.I);
      ghost var m2 := mem;
      ReadBlock(c, old(mem), blocks, free, i);
      Mark(h, true, v);
      DataThen(old(mem), m2, mem, v.I);
      TakenTiles(blocks, i, c.start, c.Tail());
      TakenHeaders(c, blocks, i);
      forall x ensures FreeHeader(Taken(blocks, i), x) <==> FreeHeader(blocks, x) && x != h {
        TakenFree(blocks, i, c.start, x);
      }
      forall x ensures x in v.fr <==> FreeHeader(Taken(blocks, i), x) { RemoveIn(free, k, x); }
      FreeInHeaders(c, Taken(blocks, i), v.fr);
      CoversKept(c, old(mem), mem, v.I);
      Close(c, mem, v.I, Taken(blocks, i), v.fr, v.U + {h});
      blocks, free := Taken(blocks, i), v.fr;
    }

    /** A free block is split: its front of `size` bytes is taken, the rest is a
        new free block. */
    method SplitBlock(h: int, size: int, ghost i: nat, ghost k: nat)
      requires Inv(c, mem, blocks, free) && i < |blocks| && k < |free|
      requires blocks[i].free && blocks[i].addr == free[k] == h
      requires 0 <= size && Aligned(size) && size + SIZE <= blocks[i].len
      modifies this`mem, this`blocks, this`free
      ensures blocks == Cut(old(blocks), i, size) && free == [h + SIZE + size] + Remove(old(free), k)
      ensures Inv(c, mem, blocks, free) && h + SIZE + size in Items(c, blocks)
      ensures DataKept(old(mem), mem, Items(c, old(blocks)) + {h + SIZE + size})
    {
      hide Inv, Good, DataKept, Arena, Backed, NoDupInts, Tiles, Items, UsedSet, Headers, Covers;
      var q := h + SIZE + size;
      ghost var v := Now();
      CutFacts(c, mem, blocks, free, i, size);
      NewBlock(h, q, v, i);
      v := v.(I := v.I + {q}, b := Insert(v.b, i + 1, q));
      ghost var m1 := mem;
      UnlinkFree(h, v, k);
      v := v.(fr := Remove(v.fr, k));
      RemoveIn(free, k, h);
      RemoveIn(free, k, q);
      ghost var m2 := mem;
      Unthread(h, v);
      ghost var m3 := mem;
      PushFree(q, v);
      v := v.(fr := [q] + v.fr);
      ghost var m4 := mem;
      Mark(h, true, v);
      DataChain(old(mem), m1, m2, m3, m4, mem, v.I);
      CoversKept(c, old(mem), mem, v.I);
      CutClose(c, old(mem), mem, blocks, free, i, size, k);
      blocks, free := Cut(blocks, i, size), v.fr;
    }

    /** rt_memheap_alloc. The strict comparison with the available bytes refuses
        a request for exactly all of them. */
    method Alloc(request: nat) returns (p: int, ghost i: nat, ghost k: nat)
      requires Valid() && request < TWO32
      modifies this
      ensures Valid()
      ensures p == 0 ==> mem == old(mem) && blocks == old(blocks) && free == old(free)
      ensures p == 0 ==> (
        || RoundUp(request) >= available
        || forall j :: 0 <= j < |blocks| && blocks[j].free ==> blocks[j].len < RoundUp(request))
      ensures p != 0 ==> (
        && RoundUp(request) < old(available)
        && FirstFit(old(blocks), old(free), RoundUp(request), i, k)
        && p == old(blocks)[i].addr + SIZE && blocks == Allocated(old(blocks), i, RoundUp(request)))
      ensures DataKept(old(mem), mem, Items(c, old(blocks)) + Items(c, blocks))
      ensures maxUsed == Max(old(maxUsed), c.size - available)
    {
      hide Inv, DataKept, Good, Cut, Taken, LiveMin;
      var size := RoundUp(request);
      i, k := 0, 0;
      DataSelf(mem, Items(c, blocks) + Items(c, blocks));
      if size < available {
        var h, freeSize;
        h, freeSize, i, k := FindFree(size);
        if freeSize >= size {
          AllocBytes(c, mem, blocks, free, i, size);
          if freeSize >= size + SIZE + MINI {
            SplitBlock(h, size, i, k);
            available := available - size - SIZE;
          } else {
            available := available - freeSize;
            TakeBlock(h, i, k);
          }
          DataWider(old(mem), mem, Items(c, old(blocks)), old(blocks), blocks, c, h + SIZE + size);
          if c.size - available > maxUsed {
            maxUsed := c.size - available;
          }
          return h + SIZE, i, k;
        }
      }
      p := 0;
    }

    // ----- rt_memheap_free -----

    /** Whether the block at x is marked used. */
    method IsUsed(x: int, ghost v: View) returns (used: bool)
      requires Holds(v) && x in v.b
      ensures used == (x in v.U)
    {
      assert Flag(c.self, mem, x, x in v.U);
      used := mem[x] % 2 == USED;
    }

    method NextOf(x: int, ghost v: View, ghost j: nat) returns (n: int)
      requires Holds(v) && j < |v.b| && v.b[j] == x
      ensures n == Succ(v.b, j)
    {
      assert LinkAt(mem, v.b, j, NEXT, PREV);
      n := mem[x + NEXT];
    }

    method PrevOf(x: int, ghost v: View, ghost j: nat) returns (n: int)
      requires Holds(v) && j < |v.b| && v.b[j] == x
      ensures n == Pred(v.b, j)
    {
      assert LinkAt(mem, v.b, j, NEXT, PREV);
      n := mem[x + PREV];
    }

    /** A free block leaves both lists. */
    method Absorb(x: int, ghost v: View, ghost j: nat, ghost k: nat)
      requires Holds(v) && j < |v.b| && |v.b| >= 2 && v.b[j] == x && k < |v.fr| && v.fr[k] == x
      modifies this`mem
      ensures Holds(v.(b := Remove(v.b, j), fr := Remove(v.fr, k))) && DataKept(old(mem), mem, v.I)
    {
      UnlinkBlock(x, v, j);
      ghost var m1 := mem;
      UnlinkFree(x, v.(b := Remove(v.b, j)), k);
      DataThen(old(mem), m1, mem, v.I);
    }

    /** The lists after block i is released, merged on the left and on the right
        as its neighbours allow; `given` is what the merges return in bytes. */
    method ReleaseBlock(h0: int, ghost i: nat) returns (given: int)
      requires Inv(c, mem, blocks, free) && i < |blocks| && !blocks[i].free && blocks[i].addr == h0
      modifies this`mem, this`blocks, this`free
      ensures blocks == Released(old(blocks), i) && Inv(c, mem, blocks, free)
      ensures DataKept(old(mem), mem, Items(c, old(blocks)))
      ensures given == old(blocks)[i].len + SIZE * (Hi(old(blocks), i) - Lo(old(blocks), i) - 1)
    {
      hide Inv, Good, DataKept, Arena, Backed, NoDupInts, Tiles, Items, UsedSet, Headers, Covers, Released;
      ghost var v := Now();
      ghost var k := ReleaseFacts(c, mem, blocks, free, i);
      var h, insertHeader := h0, true;
      Mark(h, false, v);
      ghost var m1 := mem;
      v := v.(U := v.U - {h});
      var next := NextOf(h, v, i);
      given := next - h - SIZE;
      var prev := PrevOf(h, v, i);
      var prevUsed := IsUsed(prev, v);
      if !prevUsed {
        given := given + SIZE;
        UnlinkBlock(h, v, i);
        v := v.(b := Remove(v.b, i));
        h := prev;
        insertHeader := false;
      }
      DataSelf(mem, v.I);
      ghost var m2 := mem;
      ghost var j := if prevUsed then i else i - 1;
      next := NextOf(h, v, j);
      var nextUsed := IsUsed(next, v);
      if !nextUsed {
        given := given + SIZE;
        Absorb(next, v, j + 1, k);
        v := v.(b := Remove(v.b, j + 1), fr := Remove(v.fr, k));
      }
      ghost var m4 := mem;
      if insertHeader {
        PushFree(h, v);
        v := v.(fr := [h] + v.fr);
      }
      DataSelf(mem, v.I);
      DataChain(old(mem), m1, m2, m4, mem, mem, v.I);
      CoversKept(c, old(mem), mem, v.I);
      ReleaseClose(c, old(mem), mem, blocks, free, i, k);
      blocks, free := Released(blocks, i), v.fr;
    }

    /** rt_memheap_free. */
    method Free(p: int, ghost i: nat)
      requires Valid()
      requires p != 0 ==> i < |blocks| && !blocks[i].free && p == blocks[i].addr + SIZE
      modifies this
      ensures Valid()
      ensures p == 0 ==> mem == old(mem) && blocks == old(blocks) && free == old(free)
      ensures p != 0 ==> blocks == Released(old(blocks), i)
      ensures DataKept(old(mem), mem, Items(c, old(blocks)) + Items(c, blocks))
      ensures maxUsed == old(maxUsed) == Max(old(maxUsed), c.size - available)
    {
      hide Inv, DataKept, Released, Items, LiveMin;
      DataSelf(mem, Items(c, blocks) + Items(c, blocks));
      if p == 0 { return; }
      ReleaseBytes(c, mem, blocks, free, i);
      var given := ReleaseBlock(p - SIZE, i);
      available := available + given;
      DataWider(old(mem), mem, Items(c, old(blocks)), old(blocks), blocks, c, 0);
    }

    // ----- rt_memheap_realloc -----

    /** The free block n after used block i is rebuilt at q, so that block i has
        `size` bytes. The new header may overlap the one it replaces. */
    method Rebuild(h: int, n: int, size: int, ghost i: nat)
      requires Inv(c, mem, blocks, free) && i + 1 < |blocks| && !blocks[i].free && blocks[i + 1].free
      requires blocks[i].addr == h && blocks[i + 1].addr == n
      requires 0 <= size && Aligned(size) && size <= blocks[i].len + blocks[i + 1].len
      modifies this`mem, this`blocks, this`free
      ensures blocks == Moved(old(blocks), i, size) && Inv(c, mem, blocks, free)
      ensures h + SIZE + size in Items(c, blocks)
      ensures DataKept(old(mem), mem, Items(c, old(blocks)) + {h + SIZE + size})
    {
      hide Inv, Good, DataKept, Arena, Backed, NoDupInts, Tiles, Items, UsedSet, Headers, Covers, Moved;
      var q := h + SIZE + size;
      ghost var v := Now();
      ghost var k := MoveFacts(c, mem, blocks, free, i, size);
      ghost var J := v.I - {n};
      UnlinkFree(n, v, k);
      v := v.(fr := Remove(v.fr, k));
      ghost var m1 := mem;
      UnlinkBlock(n, v, i + 1);
      v := v.(b := Remove(v.b, i + 1));
      ghost var m2 := mem;
      GoodShrink(c.hdr, c.self, mem, v.I, J, v.b, v.fr, v.U);
      BackedKept(old(mem), m1, mem, v.I, J + {q});
      v := v.(I := J);
      NewBlock(h, q, v, i);
      v := v.(I := J + {q}, b := Insert(v.b, i + 1, q));
      ghost var m3 := mem;
      PushFree(q, v);
      v := v.(fr := [q] + v.fr);
      DataMoved(old(mem), m1, m2, m3, mem, Items(c, blocks), n, q);
      CoversKept(c, old(mem), mem, Items(c, blocks) + {q});
      MoveClose(c, old(mem), mem, blocks, free, i, size, k);
      blocks, free := Moved(blocks, i, size), v.fr;
    }

    /** Used block i is cut to `size` bytes; the rest joins a free block that
        follows. `given` is the change of the available bytes. */
    method ShrinkBlock(h: int, size: int, ghost i: nat) returns (given: int)
      requires Inv(c, mem, blocks, free) && i < |blocks| && !blocks[i].free && blocks[i].addr == h
      requires 0 <= size && Aligned(size) && size + SIZE <= blocks[i].len
      modifies this`mem, this`blocks, this`free
      ensures blocks == Shrunk(old(blocks), i, size) && Inv(c, mem, blocks, free)
      ensures given == FreeBytes(blocks) - FreeBytes(old(blocks))
      ensures h + SIZE + size in Items(c, blocks)
      ensures DataKept(old(mem), mem, Items(c, old(blocks)) + {h + SIZE + size})
    {
      hide Inv, Good, DataKept, Arena, Backed, NoDupInts, Tiles, Items, UsedSet, Headers, Covers, Moved, Cut, FreeBytes;
      var q := h + SIZE + size;
      ghost var v := Now();
      ghost var k := ShrinkFacts(c, mem, blocks, free, i, size);
      NewBlock(h, q, v, i);
      v := v.(I := v.I + {q}, b := Insert(v.b, i + 1, q));
      ghost var m1 := mem;
      given := 0;
      var n := NextOf(q, v, i + 1);
      var used := IsUsed(n, v);
      DataSelf(mem, v.I);
      if !used {
        var nn := NextOf(n, v, i + 2);
        given := given - (nn - n - SIZE);
        Absorb(n, v, i + 2, k);
        v := v.(b := Remove(v.b, i + 2), fr := Remove(v.fr, k));
      }
      ghost var m2 := mem;
      PushFree(q, v);
      v := v.(fr := [q] + v.fr);
      n := NextOf(q, v, i + 1);
      given := given + (n - q - SIZE);
      DataSelf(mem, v.I);
      DataChain(old(mem), m1, m2, mem, mem, mem, v.I);
      CoversKept(c, old(mem), mem, v.I);
      ShrinkClose(c, old(mem), mem, blocks, free, i, size, k);
      blocks, free := Shrunk(blocks, i, size), v.fr;
    }

    /** A client writes into its own block. */
    method Write(p: int, off: int, v: int, ghost i: nat)
      requires Valid() && i < |blocks| && !blocks[i].free && p == blocks[i].addr + SIZE && 0 <= off < blocks[i].len
      modifies this`mem
      ensures Valid() && mem == old(mem)[p + off := v]
    {
      DataQuiet(c, blocks, i, p + off);
      UserWrite(c, mem, blocks, free, p + off, v);
      mem := mem[p + off := v];
    }

    /** rt_memcpy from one block's data to another's. */
    method Copy(to: int, from: int, n: int, ghost i: nat, ghost j: nat)
      requires Valid() && i < |blocks| && j < |blocks| && i != j && !blocks[i].free
      requires to == blocks[i].addr + SIZE && from == blocks[j].addr + SIZE
      requires 0 <= n <= blocks[i].len && n <= blocks[j].len
      modifies this`mem
      ensures Valid() && mem.Keys == old(mem).Keys
      ensures forall w :: 0 <= w < n ==> SameWord(mem, to, old(mem), from, w)
      ensures forall w :: w in mem && !(to <= w < to + n) ==> mem[w] == old(mem)[w]
    {
      Disjoint(c, mem, blocks, free, i, j);
      for k := 0 to n
        invariant Valid() && mem.Keys == old(mem).Keys
        invariant forall w :: 0 <= w < k ==> SameWord(mem, to, old(mem), from, w)
        invariant forall w :: w in mem && !(to <= w < to + k) ==> mem[w] == old(mem)[w]
      {
        ghost var m := mem;
        Write(to, k, mem[from + k], i);
        forall w | 0 <= w < k + 1 ensures SameWord(mem, to, old(mem), from, w) {
          assert w < k ==> SameWord(m, to, old(mem), from, w);
        }
      }
    }

    /** The in-place cases of rt_memheap_realloc for a live block. */
    method Resize(p: int, size: int, ghost i: nat) returns (done: bool)
      requires Valid() && i < |blocks| && !blocks[i].free && p == blocks[i].addr + SIZE
      requires MINI <= size < TWO32 && Aligned(size) && GrowSafe(blocks, i, size)
      modifies this
      ensures Valid() && maxUsed == Max(old(maxUsed), c.size - available)
      ensures done == InPlace(old(blocks), i, size)
      ensures done ==> blocks == Resized(old(blocks), i, size)
      ensures !done ==> blocks == old(blocks) && free == old(free) && mem == old(mem) && available == old(available)
      ensures DataKept(old(mem), mem, Items(c, old(blocks)) + Items(c, blocks))
    {
      hide Inv, DataKept, Items, Moved, Cut, FreeBytes, LiveMin;
      DataSelf(mem, Items(c, blocks) + Items(c, blocks));
      var h := p - SIZE;
      var oldsize := ReadSize(h, i);
      ResizeBytes(c, mem, blocks, free, i, size);
      if size > oldsize {
        var next, used, nextsize := ReadNext(h, i);
        done := !used && GrowTest(nextsize, oldsize, size);
        if done {
          available := available - (size - oldsize);
          if c.size - available > maxUsed {
            maxUsed := c.size - available;
          }
          Rebuild(h, next, size, i);
          DataWider(old(mem), mem, Items(c, old(blocks)), old(blocks), blocks, c, h + SIZE + size);
        }
      } else {
        done := true;
        if size + SIZE + MINI < oldsize {
          var given := ShrinkBlock(h, size, i);
          available := available + given;
          DataWider(old(mem), mem, Items(c, old(blocks)), old(blocks), blocks, c, h + SIZE + size);
        }
      }
    }

    /** The block after used block i, and its size if it is free. */
    method ReadNext(h: int, ghost i: nat) returns (next: int, used: bool, size: int)
      requires Inv(c, mem, blocks, free) && i < |blocks| && !blocks[i].free && blocks[i].addr == h
      ensures used == !NextFree(blocks, i)
      ensures !used ==> next == blocks[i + 1].addr && size == blocks[i + 1].len
    {
      ghost var k := NextFacts(c, mem, blocks, free, i);
      next := NextOf(h, Now(), i);
      assert next in Headers(c, blocks);
      used := IsUsed(next, Now());
      size := 0;
      if !used {
        size := ReadSize(next, i + 1);
      }
    }

    /** A live block moves to a newly allocated one: allocate, copy, release. */
    method Relocate(p: int, size: nat, ghost i: nat) returns (r: int, ghost a: nat, ghost k: nat)
      requires Valid() && i < |blocks| && !blocks[i].free && p == blocks[i].addr + SIZE
      requires blocks[i].len < size < TWO32 && RoundUp(size) == size
      modifies this
      ensures Valid()
      ensures r != p
      ensures r == 0 ==> blocks == old(blocks) && mem == old(mem)
      ensures r == 0 ==> (
        || size >= old(available)
        || forall j :: 0 <= j < |blocks| && blocks[j].free ==> blocks[j].len < size)
      ensures r != 0 ==> (
        && FirstFit(old(blocks), old(free), size, a, k) && a != i
        && r == old(blocks)[a].addr + SIZE
        && blocks == Released(Allocated(old(blocks), a, size), Shift(old(blocks), a, size, i))
        && (forall w :: 0 <= w < old(blocks)[i].len ==> SameWord(mem, r, old(mem), p, w)))
      ensures maxUsed == Max(old(maxUsed), c.size - if r == 0 then available else FreeBytes(Allocated(old(blocks), a, size)))
      ensures OthersKept(old(blocks), old(blocks)[i], old(mem), mem)
    {
      hide Inv, DataKept, Items, Allocated, Released, FreeBytes, LiveMin, SameData, OthersKept, Live, RoundUp, Shift, SameWord;
      ghost var x := blocks[i];
      var oldsize := ReadSize(p - SIZE, i);
      HeaderPositive(c, mem, blocks, free, i);
      r, a, k := Alloc(size);
      if r == 0 {
        KeptSelf(c, mem, blocks, free, x);
        return;
      }
      Elsewhere(c, old(mem), old(blocks), old(free), a, i);
      ghost var s1, f1, m1, i1 := blocks, free, mem, Shift(old(blocks), a, size, i);
      AllocKept(c, old(mem), mem, old(blocks), old(free), blocks, free, a, k, size, i);
      Copy(r, p, oldsize, a, i1);
      ghost var m2 := mem;
      CopyKept(c, m1, mem, blocks, free, old(blocks), x, a, i1, oldsize);
      Free(p, i1);
      ReleaseLive(c, m2, s1, f1, i1);
      OldKept(c, old(mem), m1, m2, mem, s1, f1, blocks, free, old(blocks), x, s1[a]);
      NewKept(c, old(mem), m1, m2, mem, s1, f1, blocks, free, x, s1[a], r, p);
    }

    /** rt_memheap_realloc. A request of zero bytes releases the block; a null
        pointer allocates; otherwise the block is resized where it stands if the
        request allows it, and moved if not. */
    method Realloc(p: int, request: nat, ghost i: nat) returns (r: int, ghost a: nat, ghost k: nat)
      requires Valid() && request < TWO32
      requires p != 0 ==> i < |blocks| && !blocks[i].free && p == blocks[i].addr + SIZE
      requires p != 0 && request != 0 ==> GrowSafe(blocks, i, RoundUp(request))
      modifies this
      ensures Valid()
      ensures request == 0 ==> r == 0 && blocks == if p == 0 then old(blocks) else Released(old(blocks), i)
      ensures request != 0 && p == 0 && r != 0 ==> (
        && FirstFit(old(blocks), old(free), RoundUp(request), a, k)
        && r == old(blocks)[a].addr + SIZE && blocks == Allocated(old(blocks), a, RoundUp(request)))
      ensures request != 0 && p != 0 && InPlace(old(blocks), i, RoundUp(request)) ==>
        r == p && blocks == Resized(old(blocks), i, RoundUp(request))
      ensures request != 0 && p != 0 && !InPlace(old(blocks), i, RoundUp(request)) && r != 0 ==> (
        && FirstFit(old(blocks), old(free), RoundUp(request), a, k) && r == old(blocks)[a].addr + SIZE
        && blocks == Released(Allocated(old(blocks), a, RoundUp(request)), Shift(old(blocks), a, RoundUp(request), i)))
      ensures request != 0 && p != 0 ==> (
        r == p <==>
          || RoundUp(request) <= old(blocks)[i].len
          || (i + 1 < |old(blocks)| && old(blocks)[i + 1].free
              && old(blocks)[i].len + old(blocks)[i + 1].len > RoundUp(request) + 12))
      ensures maxUsed == Max(old(maxUsed), c.size -
        if request != 0 && p != 0 && !InPlace(old(blocks), i, RoundUp(request)) && r != 0
        then FreeBytes(Allocated(old(blocks), a, RoundUp(request))) else available)
      ensures request != 0 && r == 0 ==> blocks == old(blocks) && mem == old(mem)
      ensures request != 0 && r == 0 ==> (
        || RoundUp(request) >= old(available)
        || forall j :: 0 <= j < |blocks| && blocks[j].free ==> blocks[j].len < RoundUp(request))
      ensures p != 0 && r != 0 ==>
        forall w :: 0 <= w < Min(old(blocks)[i].len, RoundUp(request)) ==> SameWord(mem, r, old(mem), p, w)
      ensures p != 0 ==> OthersKept(old(blocks), old(blocks)[i], old(mem), mem)
    {
      hide Inv, DataKept, Items, Allocated, Released, Resized, FreeBytes, LiveMin, SameData, OthersKept, FirstFit;
      a, k := 0, 0;
      if request == 0 {
        Free(p, i);
        if p != 0 { ReleaseOthers(c, old(mem), mem, old(blocks), old(free), blocks, free, i); }
        return 0, a, k;
      }
      var size := RoundUp(request);
      RoundUpTwice(request);
      if p == 0 {
        r, a, k := Alloc(size);
        return;
      }
      HeaderPositive(c, mem, blocks, free, i);
      var done := Resize(p, size, i);
      if done {
        ResizeKept(c, old(mem), mem, old(blocks), old(free), blocks, free, i, size, p);
        return p, a, k;
      }
      r, a, k := Relocate(p, size, i);
    }
  }

  /** The words that rt_memheap_init has to write. */
  ghost predicate Ready(c: Conf, mem: Memory) {
    c.Ok() && Covers(c, mem) &&
    var h, x, t := c.hdr, c.start, c.Tail();
    && mem[x] == MAGIC && mem[x + POOL] == c.self && mem[x + NEXT] == t && mem[x + PREV] == t
    && mem[h + NFREE] == x && mem[h + PFREE] == x && mem[x + NFREE] == h && mem[x + PFREE] == h
    && mem[t] == MAGIC + USED && mem[t + POOL] == c.self && mem[t + NEXT] == x && mem[t + PREV] == x
  }

  lemma ReadyInv(c: Conf, mem: Memory)
    requires Ready(c, mem)
    ensures var s := [Blk(c.start, c.size - 2 * SIZE, true)];
      Inv(c, mem, s, [c.start]) && FreeBytes(s) == c.size - 2 * SIZE && LiveMin(s)
  {
    hide Inv, Covers, Live;
    InitInv(c, mem);
    NoneLive([Blk(c.start, c.size - 2 * SIZE, true)]);
  }

  lemma NoneLive(s: seq<Blk>)
    requires Live(s) == multiset{}
    ensures LiveMin(s)
  {
    hide Live;
  }

  /** The writes of rt_memheap_init. */
  method Format(c: Conf, ram: Memory) returns (m: Memory)
    requires c.Ok() && Covers(c, ram)
    ensures Ready(c, m)
  {
    hide SetItem, Covers;
    var x, t := c.start, c.start + c.size - SIZE;
    m := FormatFirst(c.hdr, x, t, c.self, ram);
    m := SetItem(m, t, MAGIC + USED, c.self, x, x, 0, 0);
    CoversMore(c, ram, m);
  }

  /** The header of the free list and the first block, which is its only member and
      stands before and behind the tail t. */
  method FormatFirst(h: int, x: int, t: int, self: int, ram: Memory) returns (m: Memory)
    requires h + SIZE <= x || x + SIZE <= h
    ensures forall w :: w in ram ==> w in m
    ensures {x, x + POOL, x + NEXT, x + PREV, x + NFREE, x + PFREE, h + NFREE, h + PFREE} <= m.Keys
    ensures m[x] == MAGIC && m[x + POOL] == self && m[x + NEXT] == t && m[x + PREV] == t
    ensures m[h + NFREE] == x && m[h + PFREE] == x && m[x + NFREE] == h && m[x + PFREE] == h
  {
    hide SetItem;
    m := SetItem(ram, h, MAGIC, self, 0, 0, h, h);
    m := SetItem(m, x, MAGIC, self, 0, 0, x, x);
    m := m[x + NEXT := t];
    m := m[x + PREV := m[x + NEXT]];
    m := m[x + NFREE := m[h + NFREE]];
    m := m[x + PFREE := h];
    m := m[m[h + NFREE] + PFREE := x];
    m := m[h + NFREE := x];
  }

  lemma CoversMore(c: Conf, ram: Memory, m: Memory)
    requires Covers(c, ram) && forall w :: w in ram ==> w in m
    ensures Covers(c, m)
  {
  }

  /** A free block does not start where a live one does. */
  lemma Elsewhere(c: Conf, mem: Memory, s: seq<Blk>, fr: seq<int>, a: nat, i: nat)
    requires Inv(c, mem, s, fr) && a < |s| && i < |s| && s[a].free && !s[i].free
    ensures s[a].addr != s[i].addr
  {
    Disjoint(c, mem, s, fr, a, i);
    ReadBlock(c, mem, s, fr, a);
    ReadBlock(c, mem, s, fr, i);
  }

  /** A fresh heap with one allocation of the minimum: there a realloc to any of
      the last twelve sizes passes the grow test although the new size cannot fit. */
  method GrowWraps(conf: Conf, ram: Memory, size: int) returns (heap: MemHeap, p: int)
    requires conf.Ok() && Covers(conf, ram) && conf.size == size - size % 4 && 3 * SIZE + 2 * MINI <= size
    ensures heap.Valid() && |heap.blocks| == 2 && p == heap.blocks[0].addr + SIZE
    ensures !heap.blocks[0].free && NextFree(heap.blocks, 0)
    ensures forall newsize :: TWO32 - MINI <= newsize < TWO32 ==>
      GrowTest(heap.blocks[1].len, heap.blocks[0].len, newsize) && !InPlace(heap.blocks, 0, newsize)
  {
    hide Inv, DataKept, Allocated, FreeBytes, LiveMin, GrowTest, InPlace;
    heap := new MemHeap(conf, ram, size);
    assert heap.blocks[0].free && heap.blocks[0].len >= SIZE + 2 * MINI;
    OneAllocated(conf.start, conf.size - 2 * SIZE);
    ghost var i, k;
    p, i, k := heap.Alloc(MINI);
    PairBounds(heap.c, heap.mem, heap.blocks, heap.free, 0);
    GrowTestWraps(heap.blocks);
  }

  lemma OneAllocated(start: int, len: int)
    requires len >= SIZE + 2 * MINI
    ensures Allocated([Blk(start, len, true)], 0, MINI) == [Blk(start, MINI, false), Blk(start + SIZE + MINI, len - MINI - SIZE, true)]
  {
  }

  lemma GrowTestWraps(s: seq<Blk>)
    requires |s| == 2 && s[0].len > 0 && s[1].len >= MINI && s[0].len + s[1].len < TWO32
    ensures forall newsize :: TWO32 - MINI <= newsize < TWO32 ==>
      GrowTest(s[1].len, s[0].len, newsize) && !InPlace(s, 0, newsize)
  {
  }
}
