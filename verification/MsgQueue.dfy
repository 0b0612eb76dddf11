/** Message queues as a step machine. A send takes a free slot, copies into it and
    links it in three separate steps; a receive unlinks, copies and returns the
    slot in three separate steps; and the steps of all threads interleave. */
module MsgQueue {
  import opened Words
  import opened IpcQueue
  import opened MsgPool

  // ----- the lists -----

  /** The pointers of struct rt_messagequeue and the memory of its slots. */
  datatype Pool = Pool(next: map<Slot, Link>, data: map<Slot, Bytes>, free: Link, head: Link, tail: Link, entry: nat)

  /** What the pointers stand for. `out` is the message each receiver in flight
      has unlinked. */
  datatype Abs = Abs(free: seq<Slot>, queue: seq<Slot>, msgs: seq<Bytes>, out: map<Tid, Bytes>)

  function Grab(p: Pool): Pool
    requires p.free.At? && p.free.slot in p.next
  {
    p.(free := p.next[p.free.slot])
  }

  /** rt_mq_send: behind the tail. */
  function LinkTail(p: Pool, x: Slot): Pool {
    p.(next := if p.tail.At? then p.next[p.tail.slot := At(x)] else p.next,
       tail := At(x), head := if p.head == Null then At(x) else p.head, entry := p.entry + 1)
  }

  /** rt_mq_urgent: in front of the head. */
  function LinkHead(p: Pool, x: Slot): Pool {
    p.(next := p.next[x := p.head], head := At(x),
       tail := if p.tail == Null then At(x) else p.tail, entry := p.entry + 1)
  }

  function Unlink(p: Pool): Pool
    requires p.head.At? && p.head.slot in p.next && p.entry > 0
  {
    p.(head := p.next[p.head.slot], tail := if p.tail == p.head then Null else p.tail, entry := p.entry - 1)
  }

  function PutBack(p: Pool, x: Slot): Pool {
    p.(next := p.next[x := p.free], free := At(x))
  }

  /** One turn of the loop that a reset runs. */
  function Drop(p: Pool): Pool {
    if p.head.At? && p.head.slot in p.next then
      var x := p.head.slot;
      p.(head := p.next[x], tail := if p.tail == p.head then Null else p.tail,
         next := p.next[x := p.free], free := At(x))
    else p
  }

  function DropAll(p: Pool, n: nat): Pool
    decreases n
  {
    if n == 0 then p else DropAll(Drop(p), n - 1)
  }

  function LastLink(s: seq<Slot>): Link {
    if s == [] then Null else At(s[|s| - 1])
  }

  ghost predicate Linked(p: Pool, a: Abs, all: set<Slot>, size: nat) {
    && (forall x :: x in all ==> x in p.next && x in p.data && |p.data[x]| == size)
    && Chain(p.next, p.free, a.free) && Chain(p.next, p.head, a.queue)
    && p.tail == LastLink(a.queue)
    && |a.msgs| == |a.queue|
  }

  /** Every queued slot holds its message. */
  ghost predicate Stocked(p: Pool, a: Abs) {
    |a.msgs| == |a.queue| && forall i :: 0 <= i < |a.queue| ==> a.queue[i] in p.data && a.msgs[i] <= p.data[a.queue[i]]
  }

  /** The receiver's buffer agrees with the message as far as both go. */
  ghost predicate Gets(bytes: Bytes, msg: Bytes) {
    if |msg| <= |bytes| then msg <= bytes else bytes <= msg
  }

  ghost predicate HeldFine(p: Pool, h: Held, t: Tid, out: map<Tid, Bytes>, size: nat) {
    h.slot in p.next && h.slot in p.data &&
    match h
    case Filling(x, msg, _) => |msg| <= size
    case Filled(x, msg, urgent) => msg <= p.data[x] && (!urgent ==> p.next[x] == Null)
    case Draining(x, _) => t in out && out[t] <= p.data[x]
    case Drained(x, bytes) => t in out && Gets(bytes, out[t])
  }

  ghost predicate Flying(p: Pool, held: Holdings, out: map<Tid, Bytes>, size: nat) {
    forall t :: t in held ==> HeldFine(p, held[t], t, out, size)
  }

  ghost predicate Core(p: Pool, held: Holdings, a: Abs, all: set<Slot>, size: nat) {
    Linked(p, a, all, size) && Parted(all, a.free, a.queue, held) && Stocked(p, a) && Flying(p, held, a.out, size)
  }

  lemma GrabCore(p: Pool, held: Holdings, a: Abs, all: set<Slot>, size: nat, t: Tid, msg: Bytes, urgent: bool)
    requires Core(p, held, a, all, size) && p.free.At? && t !in held && |msg| <= size
    ensures a.free != [] && p.free == At(a.free[0]) && p.free.slot in p.next
    ensures Core(Grab(p), held[t := Filling(p.free.slot, msg, urgent)], a.(free := a.free[1..]), all, size)
  {
    GrabParted(all, a.free, a.queue, held, t, Filling(a.free[0], msg, urgent));
    hide Parted, Stocked;
    assert Stocked(Grab(p), a.(free := a.free[1..])) by { StockedFrame(p, Grab(p), a, a.(free := a.free[1..])); }
  }

  lemma StockedFrame(p: Pool, p1: Pool, a: Abs, a1: Abs)
    requires Stocked(p, a) && p1.data == p.data && a1.queue == a.queue && a1.msgs == a.msgs
    ensures Stocked(p1, a1)
  {
  }

  /** rt_memcpy into the slot: the rest of the slot keeps old bytes. */
  function Written(p: Pool, x: Slot, msg: Bytes, urgent: bool): Pool
    requires x in p.data && |msg| <= |p.data[x]|
  {
    p.(data := p.data[x := msg + p.data[x][|msg|..]], next := if urgent then p.next else p.next[x := Null])
  }

  lemma FillCore(p: Pool, held: Holdings, a: Abs, all: set<Slot>, size: nat, t: Tid)
    requires Core(p, held, a, all, size) && t in held && held[t].Filling?
    ensures var h := held[t];
      && h.slot in p.data && |h.msg| <= |p.data[h.slot]|
      && Core(Written(p, h.slot, h.msg, h.urgent), held[t := Filled(h.slot, h.msg, h.urgent)], a, all, size)
  {
    var h := held[t];
    assert HeldFine(p, h, t, a.out, size);
    var p1 := Written(p, h.slot, h.msg, h.urgent);
    CopyParted(all, a.free, a.queue, held, t, Filled(h.slot, h.msg, h.urgent));
    assert Linked(p1, a, all, size) by {
      ChainFrame(p.next, p.free, a.free, h.slot, Null);
      ChainFrame(p.next, p.head, a.queue, h.slot, Null);
    }
    hide NoDup;
  }

  lemma LinkTailChains(p: Pool, a: Abs, all: set<Slot>, size: nat, x: Slot, msg: Bytes)
    requires Linked(p, a, all, size) && NoDup(a.queue)
    requires x in all && x !in a.queue && x !in a.free && p.next[x] == Null
    requires forall y :: y in a.queue ==> y in all && y !in a.free
    ensures Linked(LinkTail(p, x), a.(queue := a.queue + [x], msgs := a.msgs + [msg]), all, size)
  {
    if a.queue != [] {
      var last := a.queue[|a.queue| - 1];
      ChainAppend(p.next, p.head, a.queue, x);
      ChainFrame(p.next, p.free, a.free, last, At(x));
    } else {
      assert [x][1..] == [] && a.queue + [x] == [x];
    }
  }

  lemma LinkHeadChains(p: Pool, a: Abs, all: set<Slot>, size: nat, x: Slot, msg: Bytes)
    requires Linked(p, a, all, size) && x in all && x !in a.queue && x !in a.free
    ensures Linked(LinkHead(p, x), a.(queue := [x] + a.queue, msgs := [msg] + a.msgs), all, size)
  {
    ChainPush(p.next, p.head, a.queue, x);
    ChainFrame(p.next, p.free, a.free, x, p.head);
  }

  /** Flying calls do not notice writes to the pointers of other slots. */
  lemma FlyingFrame(p: Pool, p1: Pool, held: Holdings, out: map<Tid, Bytes>, out1: map<Tid, Bytes>, held1: Holdings, size: nat)
    requires Flying(p, held, out, size) && p1.data == p.data
    requires forall t :: t in held1 ==> t in held && held1[t] == held[t]
    requires forall t :: t in held1 ==> held1[t].slot in p1.next && (t in out ==> t in out1 && out1[t] == out[t])
    requires forall t :: t in held1 && held1[t].slot in p.next ==> p1.next[held1[t].slot] == p.next[held1[t].slot]
    ensures Flying(p1, held1, out1, size)
  {
    forall t | t in held1 ensures HeldFine(p1, held1[t], t, out1, size) {
      assert HeldFine(p, held[t], t, out, size);
    }
  }

  function Delivered(a: Abs, x: Slot, msg: Bytes, urgent: bool): Abs {
    if urgent then a.(queue := [x] + a.queue, msgs := [msg] + a.msgs)
    else a.(queue := a.queue + [x], msgs := a.msgs + [msg])
  }

  function Linkage(p: Pool, x: Slot, urgent: bool): Pool {
    if urgent then LinkHead(p, x) else LinkTail(p, x)
  }

  lemma LinkCore(p: Pool, held: Holdings, a: Abs, all: set<Slot>, size: nat, t: Tid)
    requires Core(p, held, a, all, size) && t in held && held[t].Filled?
    ensures var h := held[t];
      Core(Linkage(p, h.slot, h.urgent), held - {t}, Delivered(a, h.slot, h.msg, h.urgent), all, size)
  {
    hide Linked, Parted, Stocked, Flying, Linkage;
    LinkParted(all, a.free, a.queue, held, t);
    LinkLinked(p, held, a, all, size, t);
    LinkFlying(p, held, a, all, size, t);
  }

  lemma LinkLinked(p: Pool, held: Holdings, a: Abs, all: set<Slot>, size: nat, t: Tid)
    requires Core(p, held, a, all, size) && t in held && held[t].Filled?
    ensures var h := held[t]; var p1, a1 := Linkage(p, h.slot, h.urgent), Delivered(a, h.slot, h.msg, h.urgent);
      Linked(p1, a1, all, size) && Stocked(p1, a1)
  {
    hide Chain, Held1;
    var h := held[t];
    assert HeldFine(p, h, t, a.out, size);
    if h.urgent { LinkHeadChains(p, a, all, size, h.slot, h.msg); } else { LinkTailChains(p, a, all, size, h.slot, h.msg); }
  }

  lemma LinkFlying(p: Pool, held: Holdings, a: Abs, all: set<Slot>, size: nat, t: Tid)
    requires Core(p, held, a, all, size) && t in held && held[t].Filled?
    ensures Flying(Linkage(p, held[t].slot, held[t].urgent), held - {t}, a.out, size)
  {
    hide Chain, Held1, Flying, Stocked, NoDup;
    var h := held[t];
    assert p.tail.At? ==> p.tail.slot in a.queue;
    FlyingFrame(p, Linkage(p, h.slot, h.urgent), held, a.out, a.out, held - {t}, size);
  }

  lemma UnlinkCore(p: Pool, held: Holdings, a: Abs, all: set<Slot>, size: nat, t: Tid, want: nat)
    requires Core(p, held, a, all, size) && a.queue != [] && t !in held && p.entry > 0
    ensures p.head == At(a.queue[0]) && p.head.slot in p.next
    ensures Core(Unlink(p), held[t := Draining(a.queue[0], want)],
              a.(queue := a.queue[1..], msgs := a.msgs[1..], out := a.out[t := a.msgs[0]]), all, size)
  {
    hide Parted, Flying, Linked, Stocked, Unlink;
    var h := Draining(a.queue[0], want);
    UnlinkParted(all, a.free, a.queue, held, t, h);
    UnlinkLinked(p, held, a, all, size, t);
    UnlinkFlying(p, held, a, all, size, t, want);
  }

  lemma UnlinkLinked(p: Pool, held: Holdings, a: Abs, all: set<Slot>, size: nat, t: Tid)
    requires Core(p, held, a, all, size) && a.queue != [] && p.entry > 0
    ensures p.head == At(a.queue[0]) && p.head.slot in p.next && a.queue[0] in all && |a.msgs| == |a.queue|
    ensures var a1 := a.(queue := a.queue[1..], msgs := a.msgs[1..], out := a.out[t := a.msgs[0]]);
      Linked(Unlink(p), a1, all, size) && Stocked(Unlink(p), a1)
  {
    hide Held1, Flying;
    Split(a.queue);
    assert a.queue[0] in a.queue;
    LastStays(a.queue);
    assert |a.queue| > 1 ==> a.queue[1..][|a.queue| - 2] == a.queue[|a.queue| - 1];
  }

  lemma LastStays(s: seq<Slot>)
    requires s != [] && NoDup(s)
    ensures |s| > 1 ==> s[|s| - 1] != s[0]
  {
  }

  lemma UnlinkFlying(p: Pool, held: Holdings, a: Abs, all: set<Slot>, size: nat, t: Tid, want: nat)
    requires Core(p, held, a, all, size) && a.queue != [] && t !in held && p.entry > 0
    requires p.head.At? && p.head.slot in p.next && |a.msgs| == |a.queue|
    ensures Flying(Unlink(p), held[t := Draining(a.queue[0], want)], a.out[t := a.msgs[0]], size)
  {
    hide Chain, Held1, NoDup;
    assert a.queue[0] in a.queue;
    var held1, out1 := held[t := Draining(a.queue[0], want)], a.out[t := a.msgs[0]];
    forall u | u in held1 ensures HeldFine(Unlink(p), held1[u], u, out1, size) {
      if u != t { assert HeldFine(p, held[u], u, a.out, size); }
    }
  }

  function Clip(buf: Bytes, want: nat): Bytes {
    if want > |buf| then buf else buf[..want]
  }

  lemma DrainCore(p: Pool, held: Holdings, a: Abs, all: set<Slot>, size: nat, t: Tid)
    requires Core(p, held, a, all, size) && t in held && held[t].Draining?
    ensures held[t].slot in p.data
    ensures Core(p, held[t := Drained(held[t].slot, Clip(p.data[held[t].slot], held[t].size))], a, all, size)
  {
    var h := held[t];
    assert HeldFine(p, h, t, a.out, size);
    CopyParted(all, a.free, a.queue, held, t, Drained(h.slot, Clip(p.data[h.slot], h.size)));
    hide Parted, Linked, Stocked;
  }

  lemma ReturnCore(p: Pool, held: Holdings, a: Abs, all: set<Slot>, size: nat, t: Tid)
    requires Core(p, held, a, all, size) && t in held
    ensures Core(PutBack(p, held[t].slot), held - {t}, a.(free := [held[t].slot] + a.free, out := a.out - {t}), all, size)
  {
    var x := held[t].slot;
    var a1 := a.(free := [x] + a.free, out := a.out - {t});
    ReturnParted(all, a.free, a.queue, held, t);
    assert Linked(PutBack(p, x), a1, all, size) by {
      ChainPush(p.next, p.free, a.free, x);
      ChainFrame(p.next, p.head, a.queue, x, p.free);
    }
    FlyingFrame(p, PutBack(p, x), held, a.out, a1.out, held - {t}, size);
    hide Parted, Linked, Flying;
  }

  lemma DropCore(p: Pool, held: Holdings, a: Abs, all: set<Slot>, size: nat)
    requires Core(p, held, a, all, size) && a.queue != []
    ensures p.head.At? && p.head.slot in p.next
    ensures Core(Drop(p), held, a.(free := [a.queue[0]] + a.free, queue := a.queue[1..], msgs := a.msgs[1..]), all, size)
  {
    hide Parted, Flying, Linked, Stocked, Drop;
    DropParted(all, a.free, a.queue, held);
    DropLinked(p, held, a, all, size);
    DropFlying(p, held, a, all, size);
  }

  lemma DropLinked(p: Pool, held: Holdings, a: Abs, all: set<Slot>, size: nat)
    requires Core(p, held, a, all, size) && a.queue != []
    ensures p.head.At? && p.head.slot in p.next && |a.msgs| == |a.queue|
    ensures var a1 := a.(free := [a.queue[0]] + a.free, queue := a.queue[1..], msgs := a.msgs[1..]);
      Linked(Drop(p), a1, all, size) && Stocked(Drop(p), a1)
  {
    hide Held1, Flying, Chain, NoDup, Parted;
    var x := a.queue[0];
    HeadSlot(all, a.free, a.queue, held);
    ChainHead(p.next, p.head, a.queue);
    ChainPush(p.next, p.free, a.free, x);
    ChainFrame(p.next, p.next[x], a.queue[1..], x, p.free);
    assert |a.queue| > 1 ==> a.queue[1..][|a.queue| - 2] == a.queue[|a.queue| - 1];
  }

  lemma HeadSlot(all: set<Slot>, free: seq<Slot>, queue: seq<Slot>, held: Holdings)
    requires Parted(all, free, queue, held) && queue != []
    ensures queue[0] in all && queue[0] !in free && queue[0] !in queue[1..]
    ensures |queue| > 1 ==> queue[|queue| - 1] != queue[0]
  {
    assert queue[0] in queue;
    Split(queue);
  }

  lemma ChainHead(next: map<Slot, Link>, from: Link, s: seq<Slot>)
    requires Chain(next, from, s) && s != []
    ensures from == At(s[0]) && s[0] in next && Chain(next, next[s[0]], s[1..])
  {
  }

  lemma DropFlying(p: Pool, held: Holdings, a: Abs, all: set<Slot>, size: nat)
    requires Core(p, held, a, all, size) && a.queue != []
    ensures Flying(Drop(p), held, a.out, size)
  {
    hide Held1, NoDup, Stocked, Flying;
    assert a.queue[0] in a.queue;
    FlyingFrame(p, Drop(p), held, a.out, a.out, held, size);
  }

  function DroppedAll(a: Abs): Abs
    requires |a.msgs| == |a.queue|
    decreases |a.queue|
  {
    if a.queue == [] then a
    else DroppedAll(a.(free := [a.queue[0]] + a.free, queue := a.queue[1..], msgs := a.msgs[1..]))
  }

  lemma QueueMatches(p: Pool, held: Holdings, a: Abs, all: set<Slot>, size: nat)
    requires Core(p, held, a, all, size)
    ensures |a.msgs| == |a.queue| && (a.queue == [] ==> p.head == Null)
  {
  }

  lemma {:induction false} DropAllCore(p: Pool, held: Holdings, a: Abs, all: set<Slot>, size: nat)
    requires Core(p, held, a, all, size)
    ensures |a.msgs| == |a.queue| && DroppedAll(a).queue == [] && DroppedAll(a).out == a.out
    ensures Core(DropAll(p, |a.queue|), held, DroppedAll(a), all, size) && DropAll(p, |a.queue|).head == Null
    decreases |a.queue|
  {
    hide Core;
    QueueMatches(p, held, a, all, size);
    if a.queue != [] {
      DropCore(p, held, a, all, size);
      DropAllCore(Drop(p), held, a.(free := [a.queue[0]] + a.free, queue := a.queue[1..], msgs := a.msgs[1..]), all, size);
    }
  }

  // ----- the step machine -----

  datatype Ask = Ask(size: nat, timeout: int)

  /** q are the suspended receivers, woken those resumed with no error that have
      not run yet, failed those resumed with one. */
  datatype Threads = Threads(q: seq<Tid>, woken: set<Tid>, failed: map<Tid, Err>, asks: map<Tid, Ask>, held: Holdings)

  datatype Mq = Mq(size: nat, flag: Flag, prio: Priorities, pool: Pool, th: Threads)

  predicate Idle(h: Threads, t: Tid) {
    t !in h.q && t !in h.woken && t !in h.failed && t !in h.held
  }

  ghost predicate Placed(h: Threads, flag: Flag, prio: Priorities) {
    && NoDup(h.q) && (flag.PRIO? ==> Sorted(h.q, prio))
    && (forall t :: t in h.q ==> t !in h.woken && t !in h.failed && t !in h.held)
    && (forall t :: t in h.woken ==> t !in h.failed && t !in h.held)
    && (forall t :: t in h.failed ==> t !in h.held)
    && (forall t :: t in h.q || t in h.woken ==> t in h.asks)
  }

  datatype Event =
    | Begin(t: Tid, msg: Bytes, urgent: bool)
    | Fill(t: Tid)
    | Finish(t: Tid)
    | Recv(t: Tid, size: nat, timeout: int)
    | RecvRun(t: Tid, elapsed: nat)
    | Drain(t: Tid)
    | Return(t: Tid)
    | FailRun(t: Tid)
    | Timeout(t: Tid)
    | Reset

  predicate Enabled(h: Threads, e: Event) {
    match e
    case Begin(t, _, _) => Idle(h, t)
    case Fill(t) => t in h.held && h.held[t].Filling?
    case Finish(t) => t in h.held && h.held[t].Filled?
    case Recv(t, _, _) => Idle(h, t)
    case RecvRun(t, _) => t in h.woken && t in h.asks
    case Drain(t) => t in h.held && h.held[t].Draining?
    case Return(t) => t in h.held && h.held[t].Drained?
    case FailRun(t) => t in h.failed
    case Timeout(t) => t in h.q && t in h.asks && h.asks[t].timeout > 0
    case Reset => true
  }

  /** Pointers that the step follows are those of slots. */
  ghost predicate Wired(s: Mq) {
    && (s.pool.free.At? ==> s.pool.free.slot in s.pool.next)
    && (s.pool.entry > 0 ==> s.pool.head.At? && s.pool.head.slot in s.pool.next)
    && (forall t :: t in s.th.held ==> Roomy(s.pool.data, s.th.held[t]))
  }

  ghost predicate Roomy(data: map<Slot, Bytes>, h: Held) {
    h.slot in data && (h.Filling? ==> |h.msg| <= |data[h.slot]|)
  }

  function Wake(h: Threads): Threads {
    if h.q == [] then h else h.(q := h.q[1..], woken := h.woken + {h.q[0]})
  }

  function Hold(h: Threads, t: Tid, x: Held): Threads {
    h.(held := h.held[t := x])
  }

  function Began(s: Mq, t: Tid, msg: Bytes, urgent: bool): Mq
    requires s.pool.free.At? ==> s.pool.free.slot in s.pool.next
  {
    if |msg| > s.size || s.pool.free == Null then s
    else s.(pool := Grab(s.pool), th := Hold(s.th, t, Filling(s.pool.free.slot, msg, urgent)))
  }

  function Finished(s: Mq, t: Tid): Mq
    requires t in s.th.held && s.th.held[t].Filled?
  {
    var h := s.th.held[t];
    s.(pool := Linkage(s.pool, h.slot, h.urgent), th := Wake(s.th.(held := s.th.held - {t})))
  }

  /** The head of the receiving loop: fail, suspend, or leave it and unlink. */
  function TryRecv(s: Mq, t: Tid, size: nat, timeout: int): Mq
    requires s.pool.entry > 0 ==> s.pool.head.At? && s.pool.head.slot in s.pool.next
  {
    if s.pool.entry == 0 then
      if timeout == 0 then s
      else s.(th := s.th.(q := Joined(s.th.q, t, s.flag, s.prio), asks := s.th.asks[t := Ask(size, timeout)]))
    else s.(pool := Unlink(s.pool), th := Hold(s.th, t, Draining(s.pool.head.slot, size)))
  }

  ghost function Step(s: Mq, e: Event): Mq
    requires Wired(s) && Enabled(s.th, e)
  {
    match e
    case Begin(t, msg, urgent) => Began(s, t, msg, urgent)
    case Fill(t) =>
      var h := s.th.held[t];
      assert Roomy(s.pool.data, h);
      s.(pool := Written(s.pool, h.slot, h.msg, h.urgent), th := Hold(s.th, t, Filled(h.slot, h.msg, h.urgent)))
    case Finish(t) => Finished(s, t)
    case Recv(t, size, timeout) => TryRecv(s, t, size, timeout)
    case RecvRun(t, d) =>
      TryRecv(s.(th := s.th.(woken := s.th.woken - {t})), t, s.th.asks[t].size, Remaining(s.th.asks[t].timeout, d))
    case Drain(t) =>
      var h := s.th.held[t];
      assert Roomy(s.pool.data, h);
      s.(th := Hold(s.th, t, Drained(h.slot, Clip(s.pool.data[h.slot], h.size))))
    case Return(t) => s.(pool := PutBack(s.pool, s.th.held[t].slot), th := s.th.(held := s.th.held - {t}))
    case FailRun(t) => s.(th := s.th.(failed := s.th.failed - {t}))
    case Timeout(t) => s.(th := s.th.(q := Left(s.th.q, t), failed := s.th.failed[t := ETIMEOUT]))
    case Reset =>
      s.(th := s.th.(q := [], failed := FailAll(s.th.failed, s.th.q)), pool := DropAll(s.pool, s.pool.entry).(entry := 0))
  }

  /** The same step on sequences: a stack of free slots and a deque of messages. */
  function AbsStep(a: Abs, s: Mq, e: Event): Abs
    requires Enabled(s.th, e) && |a.msgs| == |a.queue|
  {
    match e
    case Begin(_, msg, _) => if |msg| > s.size || a.free == [] then a else a.(free := a.free[1..])
    case Finish(t) => Delivered(a, s.th.held[t].slot, s.th.held[t].msg, s.th.held[t].urgent)
    case Recv(t, _, _) => Popped(a, t)
    case RecvRun(t, _) => Popped(a, t)
    case Return(t) => a.(free := [s.th.held[t].slot] + a.free, out := a.out - {t})
    case Reset => DroppedAll(a)
    case _ => a
  }

  function Popped(a: Abs, t: Tid): Abs
    requires |a.msgs| == |a.queue|
  {
    if a.queue == [] then a else a.(queue := a.queue[1..], msgs := a.msgs[1..], out := a.out[t := a.msgs[0]])
  }

  ghost predicate Sound(s: Mq, a: Abs, all: set<Slot>) {
    && Core(s.pool, s.th.held, a, all, s.size) && s.pool.entry == |a.queue|
    && Placed(s.th, s.flag, s.prio)
  }

  /** No lost wakeup: every queued message has a woken receiver on its way while
      receivers wait. */
  ghost predicate Awake(s: Mq, slack: nat) {
    s.th.q != [] ==> s.pool.entry <= |s.th.woken| + slack
  }

  ghost predicate Inv(s: Mq, a: Abs, all: set<Slot>) {
    Sound(s, a, all) && Awake(s, 0)
  }

  lemma SoundWired(s: Mq, a: Abs, all: set<Slot>)
    requires Sound(s, a, all)
    ensures Wired(s) && |a.msgs| == |a.queue| && (s.pool.free == Null <==> a.free == [])
  {
    forall t | t in s.th.held ensures Roomy(s.pool.data, s.th.held[t]) {
      assert HeldFine(s.pool, s.th.held[t], t, a.out, s.size);
    }
  }

  lemma WakePlaced(h: Threads, flag: Flag, prio: Priorities)
    requires Placed(h, flag, prio)
    ensures Placed(Wake(h), flag, prio) && Wake(h).held == h.held
    ensures h.q != [] ==> |Wake(h).woken| == |h.woken| + 1
  {
    if h.q != [] { assert h.q == [h.q[0]] + h.q[1..] && h.q[0] !in h.q[1..] && h.q[0] in h.q; }
  }

  lemma HoldPlaced(h: Threads, flag: Flag, prio: Priorities, t: Tid, x: Held)
    requires Placed(h, flag, prio) && (Idle(h, t) || t in h.held)
    ensures Placed(Hold(h, t, x), flag, prio) && Placed(h.(held := h.held - {t}), flag, prio)
  {
  }

  lemma BeginInv(s: Mq, a: Abs, all: set<Slot>, t: Tid, msg: Bytes, urgent: bool)
    requires Inv(s, a, all) && Idle(s.th, t)
    ensures Wired(s) && |a.msgs| == |a.queue|
    ensures Inv(Began(s, t, msg, urgent), AbsStep(a, s, Begin(t, msg, urgent)), all)
  {
    SoundWired(s, a, all);
    if |msg| <= s.size && s.pool.free.At? {
      GrabCore(s.pool, s.th.held, a, all, s.size, t, msg, urgent);
      HoldPlaced(s.th, s.flag, s.prio, t, Filling(s.pool.free.slot, msg, urgent));
    }
    hide Core, Placed, Wired;
  }

  lemma LinkEntry(p: Pool, a: Abs, h: Held)
    requires h.Filled?
    ensures Linkage(p, h.slot, h.urgent).entry == p.entry + 1
    ensures |Delivered(a, h.slot, h.msg, h.urgent).queue| == |a.queue| + 1
  {
  }

  lemma FinishInv(s: Mq, a: Abs, all: set<Slot>, t: Tid)
    requires Inv(s, a, all) && t in s.th.held && s.th.held[t].Filled?
    ensures |a.msgs| == |a.queue| && Inv(Finished(s, t), AbsStep(a, s, Finish(t)), all)
  {
    SoundWired(s, a, all);
    hide Core, Placed, Wired, Linkage, Delivered;
    LinkCore(s.pool, s.th.held, a, all, s.size, t);
    var h := s.th.(held := s.th.held - {t});
    HoldPlaced(s.th, s.flag, s.prio, t, s.th.held[t]);
    WakePlaced(h, s.flag, s.prio);
    LinkEntry(s.pool, a, s.th.held[t]);
  }

  lemma TryRecvInv(s: Mq, a: Abs, all: set<Slot>, t: Tid, size: nat, timeout: int)
    requires Sound(s, a, all) && Awake(s, 1) && Idle(s.th, t)
    ensures Wired(s) && |a.msgs| == |a.queue| && Inv(TryRecv(s, t, size, timeout), Popped(a, t), all)
  {
    SoundWired(s, a, all);
    if s.pool.entry == 0 {
      if timeout != 0 {
        JoinedIn(s.th.q, t, s.flag, s.prio);
        if s.flag.PRIO? { JoinedSorted(s.th.q, t, s.prio); }
        hide NoDup, Sorted, Joined;
      }
    } else {
      UnlinkCore(s.pool, s.th.held, a, all, s.size, t, size);
      HoldPlaced(s.th, s.flag, s.prio, t, Draining(s.pool.head.slot, size));
    }
    hide Core, Wired;
  }

  lemma RunningSound(s: Mq, a: Abs, all: set<Slot>, t: Tid)
    requires Inv(s, a, all) && t in s.th.woken
    ensures var s1 := s.(th := s.th.(woken := s.th.woken - {t})); Sound(s1, a, all) && Awake(s1, 1) && Idle(s1.th, t)
  {
  }

  lemma CopyInv(s: Mq, a: Abs, all: set<Slot>, t: Tid)
    requires Inv(s, a, all) && t in s.th.held && Wired(s)
    ensures Enabled(s.th, Fill(t)) ==> Inv(Step(s, Fill(t)), a, all)
    ensures Enabled(s.th, Drain(t)) ==> Inv(Step(s, Drain(t)), a, all)
  {
    hide Core, Placed;
    var h := s.th.held[t];
    if h.Filling? {
      FillCore(s.pool, s.th.held, a, all, s.size, t);
      HoldPlaced(s.th, s.flag, s.prio, t, Filled(h.slot, h.msg, h.urgent));
    } else if h.Draining? {
      DrainCore(s.pool, s.th.held, a, all, s.size, t);
      HoldPlaced(s.th, s.flag, s.prio, t, Drained(h.slot, Clip(s.pool.data[h.slot], h.size)));
    }
  }

  lemma ReturnInv(s: Mq, a: Abs, all: set<Slot>, t: Tid)
    requires Inv(s, a, all) && t in s.th.held && s.th.held[t].Drained? && Wired(s) && |a.msgs| == |a.queue|
    ensures Inv(Step(s, Return(t)), AbsStep(a, s, Return(t)), all)
  {
    hide Core, Placed;
    ReturnCore(s.pool, s.th.held, a, all, s.size, t);
    HoldPlaced(s.th, s.flag, s.prio, t, s.th.held[t]);
  }

  lemma ResetInv(s: Mq, a: Abs, all: set<Slot>)
    requires Inv(s, a, all) && Wired(s) && |a.msgs| == |a.queue|
    ensures Inv(Step(s, Reset), AbsStep(a, s, Reset), all)
  {
    hide Core, DropAll, DroppedAll, Placed, FailAll;
    DropAllCore(s.pool, s.th.held, a, all, s.size);
    FlushedPlaced(s.th, s.flag, s.prio);
    EntryFree(DropAll(s.pool, s.pool.entry), 0, s.th.held, DroppedAll(a), all, s.size);
  }

  lemma FlushedPlaced(h: Threads, flag: Flag, prio: Priorities)
    requires Placed(h, flag, prio)
    ensures Placed(h.(q := [], failed := FailAll(h.failed, h.q)), flag, prio)
  {
    FailAllIn(h.failed, h.q);
  }

  lemma EntryFree(p: Pool, n: nat, held: Holdings, a: Abs, all: set<Slot>, size: nat)
    requires Core(p, held, a, all, size)
    ensures Core(p.(entry := n), held, a, all, size)
  {
    forall t | t in held ensures HeldFine(p.(entry := n), held[t], t, a.out, size) {
      assert HeldFine(p, held[t], t, a.out, size);
    }
  }

  /** Every step keeps the invariant and does what the deque does. */
  lemma StepInv(s: Mq, a: Abs, all: set<Slot>, e: Event)
    requires Inv(s, a, all) && Enabled(s.th, e)
    ensures Wired(s) && |a.msgs| == |a.queue| && Inv(Step(s, e), AbsStep(a, s, e), all)
  {
    SoundWired(s, a, all);
    match e
    case Begin(t, msg, urgent) => BeginInv(s, a, all, t, msg, urgent);
    case Fill(t) => CopyInv(s, a, all, t);
    case Finish(t) => FinishInv(s, a, all, t);
    case Recv(t, size, timeout) => TryRecvInv(s, a, all, t, size, timeout);
    case RecvRun(t, d) =>
      RunningSound(s, a, all, t);
      TryRecvInv(s.(th := s.th.(woken := s.th.woken - {t})), a, all, t, s.th.asks[t].size, Remaining(s.th.asks[t].timeout, d));
    case Drain(t) => CopyInv(s, a, all, t);
    case Return(t) => ReturnInv(s, a, all, t);
    case FailRun(t) =>
    case Timeout(t) =>
      LeftIn(s.th.q, t);
      if s.flag.PRIO? { LeftSorted(s.th.q, t, s.prio); }
    case Reset => ResetInv(s, a, all);
  }

  /** A run of pointer-level steps, with the sequence-level run beside it. */
  ghost predicate Reaches(s: Mq, a: Abs, es: seq<Event>, r: Mq, b: Abs)
    decreases es
  {
    if es == [] then r == s && b == a
    else Wired(s) && |a.msgs| == |a.queue| && Enabled(s.th, es[0])
         && Reaches(Step(s, es[0]), AbsStep(a, s, es[0]), es[1..], r, b)
  }

  /** In every state that any interleaving reaches: every slot is in exactly one
      place, `entry` is the number of queued messages and at most the number of
      slots, the pointers stand for the stack and the deque, and each finished
      copy of a received message agrees with the message that was at the head. */
  lemma {:induction false} RunsSafe(s: Mq, a: Abs, all: set<Slot>, es: seq<Event>, r: Mq, b: Abs)
    requires Inv(s, a, all) && Reaches(s, a, es, r, b)
    ensures Inv(r, b, all)
    ensures Parted(all, b.free, b.queue, r.th.held)
    ensures |b.free| + r.pool.entry + |r.th.held| == |all|
    ensures r.th.q != [] && r.th.woken == {} ==> r.pool.entry == 0
    decreases es
  {
    if es == [] {
      PartedCount(all, b.free, b.queue, r.th.held);
    } else {
      StepInv(s, a, all, es[0]);
      hide Inv, Wired, Enabled;
      RunsSafe(Step(s, es[0]), AbsStep(a, s, es[0]), all, es[1..], r, b);
    }
  }

  /** A timeout and a reset take receivers off the queue with their error codes; a
      reset also leaves no message. */
  lemma FailMeaning(s: Mq, t: Tid)
    requires Wired(s) && t in s.th.q && Enabled(s.th, Timeout(t)) && NoDup(s.th.q)
    ensures var r := Step(s, Timeout(t));
      (forall u :: u in r.th.q <==> u in s.th.q && u != t) && r.th.failed == s.th.failed[t := ETIMEOUT] && r.pool == s.pool
    ensures var r := Step(s, Reset);
      r.th.q == [] && r.pool.entry == 0 && forall u :: u in s.th.q ==> u in r.th.failed && r.th.failed[u] == ERROR
  {
    LeftIn(s.th.q, t);
    FailAllIn(s.th.failed, s.th.q);
    hide Wired, DropAll;
  }

  // ----- the object -----

  /** The slots 0 to n - 1. */
  ghost predicate Numbered(all: set<Slot>, n: nat) {
    forall x :: x in all <==> x.index < n
  }

  /** Start of slot i in the pool: messages of msgSize bytes behind a pointer. */
  function Start(i: nat, msgSize: nat): nat {
    i * (msgSize + 4)
  }

  function MaxMsgs(poolSize: nat, msgSize: nat): nat {
    poolSize / (msgSize + 4) % 0x1_0000
  }

  /** Slots lie inside the pool and do not overlap. */
  lemma SlotsFit(poolSize: nat, msgSize: nat, i: nat, j: nat)
    requires i < j <= MaxMsgs(poolSize, msgSize)
    ensures Start(i, msgSize) + 4 + msgSize <= Start(j, msgSize) <= poolSize
  {
    var k := msgSize + 4;
    var n := poolSize / k;
    assert n % 0x1_0000 <= n;
    Times(i + 1, j, k);
    Times(j, n, k);
    assert (i + 1) * k == i * k + k;
  }

  /** The slots are all that the pool has room for, as far as 16 bits can count. */
  lemma NoMoreFit(poolSize: nat, msgSize: nat) returns (n: nat)
    ensures Start(n, msgSize) <= poolSize < Start(n + 1, msgSize) && MaxMsgs(poolSize, msgSize) == n % 0x1_0000
  {
    var k := msgSize + 4;
    n := poolSize / k;
    assert poolSize == n * k + poolSize % k;
    StartNext(n, msgSize);
  }

  /** The bytes of slot i behind its pointer. */
  function SlotBytes(pool: Bytes, i: nat, msgSize: nat): Bytes
    requires Start(i + 1, msgSize) <= |pool|
  {
    StartNext(i, msgSize);
    pool[Start(i, msgSize) + 4..Start(i + 1, msgSize)]
  }

  lemma StartNext(i: nat, msgSize: nat)
    ensures Start(i + 1, msgSize) == Start(i, msgSize) + 4 + msgSize
  {
  }

  lemma Times(i: nat, j: nat, k: nat)
    requires i <= j
    ensures i * k <= j * k
  {
  }

  /** Initial state over slots with arbitrary old bytes: the free list has the
      highest slot first. */
  function Fresh(n: nat): seq<Slot> {
    if n == 0 then [] else [Slot(n - 1)] + Fresh(n - 1)
  }

  lemma {:induction false} FreshLength(n: nat)
    ensures |Fresh(n)| == n
  {
    if n > 0 { FreshLength(n - 1); }
  }

  lemma {:induction false} FreshIn(n: nat)
    ensures NoDup(Fresh(n)) && forall x :: x in Fresh(n) <==> x.index < n
  {
    if n > 0 {
      FreshIn(n - 1);
      DistinctEnds(Fresh(n - 1), Slot(n - 1));
    }
  }

  lemma InitInv(s: Mq, max: nat, all: set<Slot>)
    requires Numbered(all, max) && Chain(s.pool.next, s.pool.free, Fresh(max))
    requires s.pool.head == s.pool.tail == Null && s.pool.entry == 0 && s.th == Threads([], {}, map[], map[], map[])
    requires forall x :: x in all ==> x in s.pool.next && x in s.pool.data && |s.pool.data[x]| == s.size
    ensures Inv(s, Abs(Fresh(max), [], [], map[]), all)
  {
    hide Chain;
    FreshIn(max);
    EmptyChain(s.pool.next);
  }

  lemma EmptyChain(next: map<Slot, Link>)
    ensures Chain(next, Null, [])
  {
  }

  lemma FreshGrows(links: map<Slot, Link>, first: Link, n: nat)
    requires Chain(links, first, Fresh(n))
    ensures Chain(links[Slot(n) := first], At(Slot(n)), Fresh(n + 1))
  {
    FreshIn(n);
    ChainPush(links, first, Fresh(n), Slot(n));
    assert Fresh(n + 1) == [Slot(n)] + Fresh(n);
  }

  /** The loop of rt_mq_init. */
  method BuildFree(max: nat) returns (links: map<Slot, Link>, first: Link)
    ensures Chain(links, first, Fresh(max)) && forall x: Slot :: x.index < max ==> x in links
  {
    links, first := map[], Null;
    for temp := 0 to max
      invariant Chain(links, first, Fresh(temp))
      invariant forall x: Slot :: x.index < temp ==> x in links
    {
      FreshGrows(links, first, temp);
      links := links[Slot(temp) := first];
      first := At(Slot(temp));
    }
  }

  /** Each slot lies in the pool and has the bytes found there. */
  ghost predicate Described(slots: set<Slot>, raw: map<Slot, Bytes>, pool: Bytes, msg: nat) {
    forall x :: x in slots ==> Start(x.index + 1, msg) <= |pool| && x in raw && raw[x] == SlotBytes(pool, x.index, msg)
  }

  /** The slots that a pool has room for, with the bytes it holds there. */
  method PoolSlots(pool: Bytes, msg: nat) returns (slots: set<Slot>, raw: map<Slot, Bytes>)
    ensures Numbered(slots, MaxMsgs(|pool|, msg)) && Described(slots, raw, pool, msg)
    ensures forall x :: x in slots ==> x in raw && |raw[x]| == msg
  {
    hide MaxMsgs, Start, SlotBytes;
    var max := MaxMsgs(|pool|, msg);
    slots := set i | 0 <= i < max :: Slot(i);
    forall x: Slot | x.index < max ensures x in slots { assert x == Slot(x.index); }
    forall x | x in slots ensures Start(x.index + 1, msg) <= |pool| { SlotsFit(|pool|, msg, x.index, x.index + 1); }
    raw := map x | x in slots :: SlotBytes(pool, x.index, msg);
    forall x | x in slots ensures |raw[x]| == msg { SlotLength(pool, x.index, msg); }
  }

  lemma SlotLength(pool: Bytes, i: nat, msg: nat)
    requires Start(i + 1, msg) <= |pool|
    ensures |SlotBytes(pool, i, msg)| == msg
  {
    StartNext(i, msg);
  }

  lemma NumberedLinks(links: map<Slot, Link>, all: set<Slot>, max: nat)
    requires Numbered(all, max) && forall x: Slot :: x.index < max ==> x in links
    ensures forall x :: x in all ==> x in links
  {
  }

  class MqObject {
    const size: nat
    const flag: Flag
    const prio: Priorities
    var next: map<Slot, Link>
    var data: map<Slot, Bytes>
    var free: Link
    var head: Link
    var tail: Link
    var entry: nat
    var th: Threads
    ghost var abs: Abs
    ghost const all: set<Slot>

    ghost function Now(): Mq
      reads this
    {
      Mq(size, flag, prio, Pool(next, data, free, head, tail, entry), th)
    }

    ghost predicate Valid()
      reads this
    {
      Inv(Now(), abs, all)
    }

    /** rt_mq_init over a pool: msg_size is aligned and, like max_msgs, kept in 16
        bits; the slots hold whatever bytes the pool has there. */
    constructor (pool: Bytes, msgSize: nat, flag: Flag, prio: Priorities)
      ensures size == Align(msgSize) % 0x1_0000 && this.flag == flag && this.prio == prio
      ensures Numbered(all, MaxMsgs(|pool|, size)) && Described(all, data, pool, size)
      ensures abs == Abs(Fresh(MaxMsgs(|pool|, size)), [], [], map[])
      ensures exists n: nat :: Start(n, size) <= |pool| < Start(n + 1, size) && |abs.free| == n % 0x1_0000
      ensures Valid() && entry == 0 && th == Threads([], {}, map[], map[], map[])
    {
      hide Inv, Chain, Described, Numbered, MaxMsgs, Align, Start;
      var msg := Align(msgSize) % 0x1_0000;
      var max := MaxMsgs(|pool|, msg);
      var slots, raw := PoolSlots(pool, msg);
      ghost var n := NoMoreFit(|pool|, msg);
      FreshLength(max);
      size, this.flag, this.prio, all := msg, flag, prio, slots;
      data, head, tail, entry := raw, Null, Null, 0;
      th := Threads([], {}, map[], map[], map[]);
      abs := Abs(Fresh(max), [], [], map[]);
      var links, first := BuildFree(max);
      next, free := links, first;
      NumberedLinks(links, slots, max);
      InitInv(Mq(msg, flag, prio, Pool(links, raw, first, Null, Null, 0), Threads([], {}, map[], map[], map[])), max, slots);
      new;
    }

    /** rt_mq_send and rt_mq_urgent, first critical section. */
    method SendBegin(t: Tid, msg: Bytes, urgent: bool) returns (err: Err)
      requires Valid() && Idle(th, t)
      modifies this
      ensures Valid() && Wired(old(Now())) && Now() == Step(old(Now()), Begin(t, msg, urgent))
      ensures err == if |msg| > size then ERROR else if old(free) == Null then EFULL else EOK
      ensures if err == EOK then t in th.held && th.held[t] == Filling(old(free).slot, msg, urgent) else Now() == old(Now())
    {
      hide Core, Placed;
      BeginInv(Now(), abs, all, t, msg, urgent);
      abs := AbsStep(abs, Now(), Begin(t, msg, urgent));
      if |msg| > size { return ERROR; }
      var x := free;
      if x == Null { return EFULL; }
      free := next[x.slot];
      th := Hold(th, t, Filling(x.slot, msg, urgent));
      err := EOK;
    }

    /** The copy between the critical sections; a send also ends the slot's list. */
    method CopyIn(t: Tid)
      requires Valid() && Enabled(th, Fill(t))
      modifies this
      ensures Valid() && Wired(old(Now())) && Now() == Step(old(Now()), Fill(t)) && abs == old(abs)
    {
      SoundWired(Now(), abs, all);
      CopyInv(Now(), abs, all, t);
      var h := th.held[t];
      assert Roomy(data, h);
      if !h.urgent { next := next[h.slot := Null]; }
      data := data[h.slot := h.msg + data[h.slot][|h.msg|..]];
      th := Hold(th, t, Filled(h.slot, h.msg, h.urgent));
    }

    /** Second critical section: link the slot, count it, resume a receiver. */
    method SendFinish(t: Tid)
      requires Valid() && Enabled(th, Finish(t))
      modifies this
      ensures Valid() && Now() == Finished(old(Now()), t)
      ensures old(th.held[t].urgent) ==> abs.msgs == [old(th.held[t].msg)] + old(abs.msgs)
      ensures !old(th.held[t].urgent) ==> abs.msgs == old(abs.msgs) + [old(th.held[t].msg)]
      ensures old(th.q) != [] ==> th.q == old(th.q[1..]) && th.woken == old(th.woken) + {old(th.q[0])}
    {
      hide Core, Placed;
      FinishInv(Now(), abs, all, t);
      abs := AbsStep(abs, Now(), Finish(t));
      var x := th.held[t].slot;
      if th.held[t].urgent {
        next := next[x := head];
        head := At(x);
        if tail == Null { tail := At(x); }
      } else {
        if tail != Null { next := next[tail.slot := At(x)]; }
        tail := At(x);
        if head == Null { head := At(x); }
      }
      entry := entry + 1;
      th := th.(held := th.held - {t});
      if th.q != [] {
        th := th.(q := th.q[1..], woken := th.woken + {th.q[0]});
      }
    }

    /** rt_mq_recv up to its return, its call of the scheduler or its copy. */
    method Receive(t: Tid, want: nat, timeout: int)
      requires Sound(Now(), abs, all) && Awake(Now(), 1) && Idle(th, t)
      modifies this
      ensures Valid() && Wired(old(Now())) && Now() == TryRecv(old(Now()), t, want, timeout)
      ensures old(abs.msgs) != [] ==> t in abs.out && old(abs.msgs) == [abs.out[t]] + abs.msgs
      ensures old(entry) > 0 ==> old(head).At? && t in th.held && th.held[t] == Draining(old(head).slot, want)
      ensures old(entry) == 0 && timeout != 0 ==> t in th.q && t in th.asks && th.asks[t] == Ask(want, timeout)
      ensures old(entry) == 0 && timeout == 0 ==> Now() == old(Now())
    {
      hide Core, Placed;
      TryRecvInv(Now(), abs, all, t, want, timeout);
      JoinedIn(th.q, t, flag, prio);
      abs := Popped(abs, t);
      if entry == 0 {
        if timeout == 0 { return; }
        var q := Suspend(th.q, t, flag, prio);
        th := th.(q := q, asks := th.asks[t := Ask(want, timeout)]);
        return;
      }
      var x := head.slot;
      head := next[x];
      if tail == At(x) { tail := Null; }
      entry := entry - 1;
      th := Hold(th, t, Draining(x, want));
    }

    /** The copy out, and the return of the slot to the free list. */
    method CopyOut(t: Tid) returns (bytes: Bytes)
      requires Valid() && Enabled(th, Drain(t))
      modifies this
      ensures Valid() && Wired(old(Now())) && Now() == Step(old(Now()), Drain(t)) && abs == old(abs)
      ensures t in abs.out && Gets(bytes, abs.out[t])
      ensures |bytes| == if old(th.held[t].size) > size then size else old(th.held[t].size)
    {
      SoundWired(Now(), abs, all);
      CopyInv(Now(), abs, all, t);
      DrainFits(Now(), abs, all, t);
      var h := th.held[t];
      assert Roomy(data, h);
      bytes := Clip(data[h.slot], h.size);
      th := Hold(th, t, Drained(h.slot, bytes));
    }

    method PutSlot(t: Tid)
      requires Valid() && Enabled(th, Return(t))
      modifies this
      ensures Valid() && Wired(old(Now())) && Now() == Step(old(Now()), Return(t))
    {
      hide Core, Placed;
      SoundWired(Now(), abs, all);
      ReturnInv(Now(), abs, all, t);
      abs := AbsStep(abs, Now(), Return(t));
      var x := th.held[t].slot;
      next := next[x := free];
      free := At(x);
      th := th.(held := th.held - {t});
    }

    /** rt_mq_control with RT_IPC_CMD_RESET. */
    method ResetQueue()
      requires Valid()
      modifies this
      ensures Valid() && Wired(old(Now())) && Now() == Step(old(Now()), Reset)
      ensures abs.msgs == [] && entry == 0 && th.q == []
    {
      hide Placed, Core;
      SoundWired(Now(), abs, all);
      ResetInv(Now(), abs, all);
      ghost var s, a := Now(), abs;
      var q, failed := th.q, th.failed;
      while q != []
        invariant FailAll(failed, q) == FailAll(th.failed, th.q)
      {
        failed, q := failed[q[0] := ERROR], q[1..];
      }
      th := th.(q := q, failed := failed);
      DropLoop(s, a);
      entry := 0;
      abs := DroppedAll(a);
      DropAllCore(s.pool, s.th.held, a, all, size);
      HeadMeansQueue(DropAll(s.pool, |a.queue|), s.th.held, abs, all, size);
    }

    /** The loop of the reset: it ends when the queue is empty, which is after
        `entry` turns. */
    method DropLoop(ghost s: Mq, ghost a: Abs)
      requires Core(s.pool, th.held, a, all, size) && s.pool.entry == |a.queue|
      requires s.pool == Pool(next, data, free, head, tail, entry)
      modifies this`next, this`free, this`head, this`tail
      ensures Pool(next, data, free, head, tail, entry) == DropAll(s.pool, s.pool.entry)
    {
      hide Core;
      ghost var b := a;
      while head != Null
        invariant Core(Pool(next, data, free, head, tail, entry), th.held, b, all, size)
        invariant DropAll(Pool(next, data, free, head, tail, entry), |b.queue|) == DropAll(s.pool, |a.queue|)
        decreases |b.queue|
      {
        ghost var p := Pool(next, data, free, head, tail, entry);
        HeadMeansQueue(p, th.held, b, all, size);
        DropCore(p, th.held, b, all, size);
        var x := head.slot;
        head := next[x];
        if tail == At(x) { tail := Null; }
        next := next[x := free];
        free := At(x);
        b := b.(free := [b.queue[0]] + b.free, queue := b.queue[1..], msgs := b.msgs[1..]);
        assert Pool(next, data, free, head, tail, entry) == Drop(p);
      }
      HeadMeansQueue(Pool(next, data, free, head, tail, entry), th.held, b, all, size);
    }
  }

  lemma HeadMeansQueue(p: Pool, held: Holdings, a: Abs, all: set<Slot>, size: nat)
    requires Core(p, held, a, all, size)
    ensures (p.head == Null <==> a.queue == []) && |a.msgs| == |a.queue|
  {
  }

  lemma DrainFits(s: Mq, a: Abs, all: set<Slot>, t: Tid)
    requires Inv(s, a, all) && Enabled(s.th, Drain(t))
    ensures t in a.out && s.th.held[t].slot in s.pool.data
    ensures var d := s.pool.data[s.th.held[t].slot]; |d| == s.size && Gets(Clip(d, s.th.held[t].size), a.out[t])
  {
    assert HeldFine(s.pool, s.th.held[t], t, a.out, s.size);
  }
}
