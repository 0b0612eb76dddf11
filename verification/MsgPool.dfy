/** The message slots of a message queue: a singly linked free list, a singly
    linked queue with a tail pointer, and slots held by calls in flight. */
module MsgPool {
  import opened Words
  import opened IpcQueue

  datatype Slot = Slot(index: nat)

  datatype Link = Null | At(slot: Slot)

  type Bytes = seq<int>

  /** What a call in flight holds: a slot it is filling (before and after the
      copy), or one it is draining. */
  datatype Held =
    | Filling(slot: Slot, msg: Bytes, urgent: bool)
    | Filled(slot: Slot, msg: Bytes, urgent: bool)
    | Draining(slot: Slot, size: nat)
    | Drained(slot: Slot, bytes: Bytes)

  type Holdings = map<Tid, Held>

  // ----- linked lists -----

  ghost predicate Chain(next: map<Slot, Link>, from: Link, s: seq<Slot>)
    decreases s
  {
    if s == [] then from == Null
    else from == At(s[0]) && s[0] in next && Chain(next, next[s[0]], s[1..])
  }

  lemma {:induction false} ChainFrame(next: map<Slot, Link>, from: Link, s: seq<Slot>, x: Slot, l: Link)
    requires Chain(next, from, s) && x !in s
    ensures Chain(next[x := l], from, s)
    decreases s
  {
    if s != [] { ChainFrame(next, next[s[0]], s[1..], x, l); }
  }

  /** Writing the last node's pointer appends a node. */
  lemma {:induction false} ChainAppend(next: map<Slot, Link>, from: Link, s: seq<Slot>, x: Slot)
    requires Chain(next, from, s) && s != [] && NoDup(s) && x !in s && x in next && next[x] == Null
    ensures Chain(next[s[|s| - 1] := At(x)], from, s + [x])
    decreases s
  {
    var last := s[|s| - 1];
    assert (s + [x])[1..] == s[1..] + [x];
    if |s| > 1 {
      assert s[0] != last && s[1..][|s| - 2] == last;
      ChainAppend(next, next[s[0]], s[1..], x);
    } else {
      assert (s + [x])[1..][1..] == [];
    }
  }

  lemma ChainPush(next: map<Slot, Link>, from: Link, s: seq<Slot>, x: Slot)
    requires Chain(next, from, s) && x !in s
    ensures Chain(next[x := from], At(x), [x] + s)
  {
    ChainFrame(next, from, s, x, from);
    assert ([x] + s)[1..] == s;
  }

  // ----- the partition -----

  /** Every slot of the pool is in exactly one place: free, queued, or held by
      exactly one call. */
  ghost predicate Parted(all: set<Slot>, free: seq<Slot>, queue: seq<Slot>, held: Holdings) {
    && NoDup(free) && NoDup(queue)
    && (forall x :: x in free ==> x in all && x !in queue)
    && (forall x :: x in queue ==> x in all)
    && (forall t :: t in held ==> held[t].slot in all && held[t].slot !in free && held[t].slot !in queue)
    && (forall t, u :: t in held && u in held && t != u ==> held[t].slot != held[u].slot)
    && (forall x :: x in all ==> x in free || x in queue || Held1(held, x))
  }

  ghost predicate Held1(held: Holdings, x: Slot) {
    exists t :: t in held && held[t].slot == x
  }

  lemma HeldGrows(held: Holdings, t: Tid, h: Held)
    requires t in held ==> held[t].slot == h.slot
    ensures forall x :: Held1(held, x) || x == h.slot ==> Held1(held[t := h], x)
  {
    forall x | Held1(held, x) || x == h.slot ensures Held1(held[t := h], x) {
      if x == h.slot {
        assert t in held[t := h] && held[t := h][t].slot == x;
      } else {
        var u :| u in held && held[u].slot == x;
        assert u in held[t := h] && held[t := h][u].slot == x;
      }
    }
  }

  lemma HeldShrinks(held: Holdings, t: Tid)
    requires t in held
    ensures forall x :: Held1(held, x) && x != held[t].slot ==> Held1(held - {t}, x)
  {
    forall x | Held1(held, x) && x != held[t].slot ensures Held1(held - {t}, x) {
      var u :| u in held && held[u].slot == x;
      assert u in held - {t} && (held - {t})[u].slot == x;
    }
  }

  lemma Split(s: seq<Slot>)
    requires s != [] && NoDup(s)
    ensures NoDup(s[1..]) && s[0] !in s[1..] && forall x :: x in s <==> x == s[0] || x in s[1..]
  {
  }

  lemma DistinctEnds(s: seq<Slot>, x: Slot)
    requires NoDup(s) && x !in s
    ensures NoDup([x] + s) && NoDup(s + [x])
  {
  }

  /** A sender takes the first free slot. */
  lemma GrabParted(all: set<Slot>, free: seq<Slot>, queue: seq<Slot>, held: Holdings, t: Tid, h: Held)
    requires Parted(all, free, queue, held) && free != [] && h.slot == free[0] && t !in held
    ensures Parted(all, free[1..], queue, held[t := h])
  {
    Split(free);
    HeldGrows(held, t, h);
    hide Held1;
  }

  /** A sender links its slot in at either end. */
  lemma LinkParted(all: set<Slot>, free: seq<Slot>, queue: seq<Slot>, held: Holdings, t: Tid)
    requires Parted(all, free, queue, held) && t in held
    ensures Parted(all, free, queue + [held[t].slot], held - {t})
    ensures Parted(all, free, [held[t].slot] + queue, held - {t})
  {
    var x := held[t].slot;
    DistinctEnds(queue, x);
    HeldShrinks(held, t);
    hide Held1, NoDup;
  }

  /** A receiver takes the head of the queue. */
  lemma UnlinkParted(all: set<Slot>, free: seq<Slot>, queue: seq<Slot>, held: Holdings, t: Tid, h: Held)
    requires Parted(all, free, queue, held) && queue != [] && h.slot == queue[0] && t !in held
    ensures Parted(all, free, queue[1..], held[t := h])
  {
    Split(queue);
    HeldGrows(held, t, h);
    hide Held1;
  }

  /** A receiver returns its slot. */
  lemma ReturnParted(all: set<Slot>, free: seq<Slot>, queue: seq<Slot>, held: Holdings, t: Tid)
    requires Parted(all, free, queue, held) && t in held
    ensures Parted(all, [held[t].slot] + free, queue, held - {t})
  {
    DistinctEnds(free, held[t].slot);
    HeldShrinks(held, t);
    hide Held1, NoDup;
  }

  /** A call in flight copies into or out of its own slot. */
  lemma CopyParted(all: set<Slot>, free: seq<Slot>, queue: seq<Slot>, held: Holdings, t: Tid, h: Held)
    requires Parted(all, free, queue, held) && t in held && h.slot == held[t].slot
    ensures Parted(all, free, queue, held[t := h])
  {
    HeldGrows(held, t, h);
    hide Held1, NoDup;
  }

  /** A reset moves the head of the queue to the free list. */
  lemma DropParted(all: set<Slot>, free: seq<Slot>, queue: seq<Slot>, held: Holdings)
    requires Parted(all, free, queue, held) && queue != []
    ensures Parted(all, [queue[0]] + free, queue[1..], held)
  {
    Split(queue);
    DistinctEnds(free, queue[0]);
    hide Held1, NoDup;
  }

  /** One slot less, from each part. */
  lemma FreeLess(all: set<Slot>, free: seq<Slot>, queue: seq<Slot>, held: Holdings)
    requires Parted(all, free, queue, held) && free != []
    ensures free[0] in all && Parted(all - {free[0]}, free[1..], queue, held)
  {
    Split(free);
    hide Held1;
  }

  lemma QueueLess(all: set<Slot>, free: seq<Slot>, queue: seq<Slot>, held: Holdings)
    requires Parted(all, free, queue, held) && queue != []
    ensures queue[0] in all && Parted(all - {queue[0]}, free, queue[1..], held)
  {
    Split(queue);
    hide Held1;
  }

  lemma HeldLess(all: set<Slot>, free: seq<Slot>, queue: seq<Slot>, held: Holdings, t: Tid)
    requires Parted(all, free, queue, held) && t in held
    ensures held[t].slot in all && Parted(all - {held[t].slot}, free, queue, held - {t}) && |held - {t}| == |held| - 1
  {
    HeldShrinks(held, t);
    assert (held - {t}).Keys == held.Keys - {t};
    hide NoDup;
  }

  /** The whole pool is accounted for. */
  lemma {:induction false} PartedCount(all: set<Slot>, free: seq<Slot>, queue: seq<Slot>, held: Holdings)
    requires Parted(all, free, queue, held)
    ensures |free| + |queue| + |held| == |all|
    decreases |free| + |queue|, |held|
  {
    hide Parted;
    if free != [] {
      FreeLess(all, free, queue, held);
      PartedCount(all - {free[0]}, free[1..], queue, held);
    } else if queue != [] {
      QueueLess(all, free, queue, held);
      PartedCount(all - {queue[0]}, free, queue[1..], held);
    } else if held != map[] {
      var t :| t in held;
      HeldLess(all, free, queue, held, t);
      PartedCount(all - {held[t].slot}, free, queue, held - {t});
    } else {
      NothingLeft(all);
    }
  }

  lemma NothingLeft(all: set<Slot>)
    requires Parted(all, [], [], map[])
    ensures |all| == 0
  {
    assert all == {};
  }
}
