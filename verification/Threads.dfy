/** Threads, their rings and one semaphore as a step machine: start, suspend,
    resume, sleep, yield, priority change, exit and timeout of threads, with
    take, release and reset of the semaphore. */
module Threads {
  import opened Words
  import opened IpcQueue
  import opened Bits
  import opened ReadyQueue

  datatype Stat = INIT | READY | SUSPEND | CLOSE

  /** The fields of struct rt_thread used here; `armed`: its timer is started. */
  datatype Thread = Thread(stat: Stat, prio: nat, initPrio: nat, mask: Mask, error: Err, armed: bool)

  // ----- run queues and control blocks -----

  datatype Core = Core(ready: Ready, threads: map<Tid, Thread>)

  predicate ReadyAt(threads: map<Tid, Thread>, t: Tid, p: int) {
    t in threads && threads[t].stat.READY? && threads[t].prio == p
  }

  ghost predicate Cached(th: Thread, two: bool) {
    th.initPrio < Levels(two) && (!th.stat.INIT? ==> th.prio < Levels(two) && th.mask == MaskOf(two, th.prio))
  }

  /** A thread is READY exactly when it is on the run queue of its current
      priority, once, and on no other; the bitmap agrees with the queues. */
  ghost predicate CoreInv(c: Core) {
    && Agree(c.ready)
    && (forall t :: t in c.threads ==> Cached(c.threads[t], c.ready.two))
    && (forall p :: 0 <= p < |c.ready.queues| ==> NoDup(c.ready.queues[p]))
    && (forall t, p :: 0 <= p < |c.ready.queues| ==> (t in c.ready.queues[p] <==> ReadyAt(c.threads, t, p)))
  }

  /** rt_thread_resume and rt_thread_timeout, from the insertion on. */
  function Resumed(c: Core, t: Tid, err: Err): Core
    requires t in c.threads && c.threads[t].prio < |c.ready.queues| && c.threads[t].mask.number < |c.ready.table|
  {
    var th := c.threads[t];
    Core(Insert(c.ready, t, th.prio, th.mask), c.threads[t := th.(stat := READY, armed := false, error := err)])
  }

  /** rt_thread_suspend of a ready thread whose error code its caller may have
      set; then its timer may be started. */
  function Suspended(c: Core, t: Tid, err: Err, armed: bool): Core
    requires t in c.threads && c.threads[t].prio < |c.ready.queues| && c.threads[t].mask.number < |c.ready.table|
  {
    var th := c.threads[t];
    Core(Remove(c.ready, t, th.prio, th.mask), c.threads[t := th.(stat := SUSPEND, armed := armed, error := err)])
  }

  function Closed(c: Core, t: Tid): Core
    requires t in c.threads && c.threads[t].prio < |c.ready.queues| && c.threads[t].mask.number < |c.ready.table|
  {
    var th := c.threads[t];
    Core(Remove(c.ready, t, th.prio, th.mask), c.threads[t := th.(stat := CLOSE, armed := false)])
  }

  /** rt_thread_control with RT_THREAD_CTRL_CHANGE_PRIORITY. */
  function Reprioritized(c: Core, t: Tid, p: nat): Core
    requires t in c.threads && p < |c.ready.queues| && MaskOf(c.ready.two, p).number < |c.ready.table|
    requires c.threads[t].stat.READY? ==> c.threads[t].prio < |c.ready.queues| && c.threads[t].mask.number < |c.ready.table|
  {
    var th := c.threads[t];
    var th1 := th.(prio := p, mask := MaskOf(c.ready.two, p));
    Core(if th.stat.READY? then Insert(Remove(c.ready, t, th.prio, th.mask), t, p, th1.mask) else c.ready,
         c.threads[t := th1])
  }

  /** rt_thread_yield: to the end of the queue unless alone there. */
  function Yielded(c: Core, t: Tid): Core
    requires t in c.threads && c.threads[t].prio < |c.ready.queues|
  {
    var p := c.threads[t].prio;
    if |c.ready.queues[p]| < 2 then c
    else c.(ready := c.ready.(queues := c.ready.queues[p := Left(c.ready.queues[p], t) + [t]]))
  }

  lemma Fits(c: Core, t: Tid)
    requires CoreInv(c) && t in c.threads && !c.threads[t].stat.INIT?
    ensures c.threads[t].prio < |c.ready.queues| && c.threads[t].mask.number < |c.ready.table|
  {
    assert Cached(c.threads[t], c.ready.two);
  }

  lemma NoDupEnd(q: seq<Tid>, t: Tid)
    requires NoDup(q) && t !in q
    ensures NoDup(q + [t])
  {
  }

  lemma ResumedInv(c: Core, t: Tid, err: Err)
    requires CoreInv(c) && t in c.threads && c.threads[t].stat.SUSPEND?
    ensures c.threads[t].prio < |c.ready.queues| && c.threads[t].mask.number < |c.ready.table|
    ensures CoreInv(Resumed(c, t, err))
    ensures var r, p := Resumed(c, t, err), c.threads[t].prio;
      && |r.ready.queues| == |c.ready.queues| && r.ready.queues[p] == c.ready.queues[p] + [t]
      && (forall x :: 0 <= x < |c.ready.queues| && x != p ==> r.ready.queues[x] == c.ready.queues[x])
      && r.threads[t].error == err && !r.threads[t].armed && r.threads[t].prio == p
  {
    Fits(c, t);
    var p := c.threads[t].prio;
    assert Cached(c.threads[t], c.ready.two);
    InsertAgree(c.ready, t, p);
    assert t !in c.ready.queues[p] by { assert !ReadyAt(c.threads, t, p); }
    NoDupEnd(c.ready.queues[p], t);
    hide Agree, NoDup, MaskOf;
  }

  lemma RemovedInv(c: Core, t: Tid, th1: Thread)
    requires CoreInv(c) && t in c.threads && c.threads[t].stat.READY? && !th1.stat.READY? && Cached(th1, c.ready.two)
    ensures c.threads[t].prio < |c.ready.queues| && c.threads[t].mask.number < |c.ready.table|
    ensures CoreInv(Core(Remove(c.ready, t, c.threads[t].prio, c.threads[t].mask), c.threads[t := th1]))
  {
    Fits(c, t);
    var p := c.threads[t].prio;
    assert Cached(c.threads[t], c.ready.two);
    RemoveAgree(c.ready, t, p);
    LeftIn(c.ready.queues[p], t);
    hide Agree, NoDup, MaskOf, Left;
  }

  lemma SuspendedInv(c: Core, t: Tid, err: Err, armed: bool)
    requires CoreInv(c) && t in c.threads && c.threads[t].stat.READY?
    ensures c.threads[t].prio < |c.ready.queues| && c.threads[t].mask.number < |c.ready.table|
    ensures CoreInv(Suspended(c, t, err, armed)) && CoreInv(Closed(c, t))
  {
    var th := c.threads[t];
    RemovedInv(c, t, th.(stat := SUSPEND, armed := armed, error := err));
    RemovedInv(c, t, th.(stat := CLOSE, armed := false));
  }

  lemma ReprioritizedInv(c: Core, t: Tid, p: nat)
    requires CoreInv(c) && t in c.threads && p < Levels(c.ready.two)
    ensures c.threads[t].stat.READY? ==> c.threads[t].prio < |c.ready.queues| && c.threads[t].mask.number < |c.ready.table|
    ensures MaskOf(c.ready.two, p).number < |c.ready.table| && CoreInv(Reprioritized(c, t, p))
    ensures c.threads[t].stat.READY? ==> ReadyAt(Reprioritized(c, t, p).threads, t, p)
    ensures var r := Reprioritized(c, t, p);
      && r.threads.Keys == c.threads.Keys && r.threads[t].prio == p && r.threads[t].stat == c.threads[t].stat
      && forall x :: x in c.threads && x != t ==> r.threads[x] == c.threads[x]
  {
    var th := c.threads[t];
    if th.stat.READY? {
      Fits(c, t);
      var off := th.(stat := SUSPEND, prio := p, mask := MaskOf(c.ready.two, p), armed := th.armed);
      RemovedInv(c, t, off);
      var c1 := Core(Remove(c.ready, t, th.prio, th.mask), c.threads[t := off]);
      RemoveTwo(c.ready, t, th.prio, th.mask);
      ResumedInv(c1, t, th.error);
      RearmedInv(Resumed(c1, t, th.error), t, th.armed);
      assert c1.threads[t := Resumed(c1, t, th.error).threads[t].(armed := th.armed)]
        == Reprioritized(c, t, p).threads;
    }
  }

  lemma RemoveTwo(r: Ready, t: Tid, p: nat, m: Mask)
    requires p < |r.queues| && m.number < |r.table|
    ensures Remove(r, t, p, m).two == r.two && |Remove(r, t, p, m).queues| == |r.queues|
  {
  }

  lemma RearmedInv(c: Core, t: Tid, armed: bool)
    requires CoreInv(c) && t in c.threads
    ensures CoreInv(c.(threads := c.threads[t := c.threads[t].(armed := armed)]))
  {
    hide Agree, NoDup;
  }

  lemma YieldedInv(c: Core, t: Tid)
    requires CoreInv(c) && t in c.threads && c.threads[t].stat.READY?
    ensures c.threads[t].prio < |c.ready.queues| && CoreInv(Yielded(c, t))
    ensures var q := c.ready.queues[c.threads[t].prio];
      |q| > 1 && q[0] == t ==> Yielded(c, t).ready.queues[c.threads[t].prio] == q[1..] + [t]
  {
    Fits(c, t);
    var p := c.threads[t].prio;
    assert t in c.ready.queues[p] by { assert ReadyAt(c.threads, t, p); }
    LeftIn(c.ready.queues[p], t);
    NoDupEnd(Left(c.ready.queues[p], t), t);
    if |c.ready.queues[p]| >= 2 {
      var r1 := Yielded(c, t).ready;
      forall x | 0 <= x < Levels(r1.two) ensures BitAt(r1, x) { assert BitAt(c.ready, x); }
      forall n | 0 <= n < 32 ensures GroupAt(r1, n) { assert GroupAt(c.ready, n); }
      hide NoDup, Left, BitAt, GroupAt;
    }
  }

  // ----- the system with one semaphore -----

  /** The semaphore; `value` has 16 bits. */
  datatype Sem = Sem(value: nat, q: seq<Tid>, flag: Flag)

  /** Counts since the last reset: of releases, successful takes and wraps of
      `value`; and of blocked takes begun and ended by grant, timeout or reset. */
  datatype Log = Log(initial: nat, releases: nat, takes: nat, wraps: nat,
                     begun: nat, granted: nat, expired: nat, flushed: nat)

  datatype Sys = Sys(core: Core, sem: Sem, defunct: seq<Tid>, log: Log)

  function PrioMap(threads: map<Tid, Thread>): Priorities {
    map t | t in threads :: threads[t].prio
  }

  predicate Has(c: Core, t: Tid, stat: Stat) {
    t in c.threads && c.threads[t].stat == stat
  }

  ghost predicate Able(c: Core, t: Tid) {
    t in c.threads && c.threads[t].prio < |c.ready.queues| && c.threads[t].mask.number < |c.ready.table|
  }

  datatype Event =
    | Startup(t: Tid)
    | Take(t: Tid, time: int)
    | Release
    | Reset(value: nat)
    | Timeout(t: Tid)
    | Sleep(t: Tid)
    | Yield(t: Tid)
    | Exit(t: Tid, keep: bool)
    | Change(t: Tid, prio: nat)

  /** Ready threads make calls; only suspended ones with a started timer time
      out; priorities of threads in a queue by priority do not change. */
  predicate Enabled(s: Sys, e: Event) {
    match e
    case Startup(t) => Has(s.core, t, INIT)
    case Take(t, _) => Has(s.core, t, READY)
    case Release => true
    case Reset(_) => true
    case Timeout(t) => Has(s.core, t, SUSPEND) && s.core.threads[t].armed
    case Sleep(t) => Has(s.core, t, READY)
    case Yield(t) => Has(s.core, t, READY)
    case Exit(t, _) => Has(s.core, t, READY)
    case Change(t, p) =>
      t in s.core.threads && (s.sem.flag.FIFO? || t !in s.sem.q) && p < Levels(s.core.ready.two)
  }

  /** Every thread a step moves has a place in the tables. */
  ghost predicate Sane(s: Sys) {
    && |s.core.ready.queues| == Levels(s.core.ready.two) && |s.core.ready.table| == 32
    && (forall t :: t in s.core.threads && !s.core.threads[t].stat.INIT? ==> Able(s.core, t))
    && (forall t :: t in s.core.threads ==> s.core.threads[t].initPrio < |s.core.ready.queues|)
    && (forall t :: t in s.sem.q ==> t in s.core.threads && !s.core.threads[t].stat.INIT?)
  }

  function Prepared(c: Core, t: Tid): Core
    requires t in c.threads
  {
    var th := c.threads[t];
    c.(threads := c.threads[t := th.(stat := SUSPEND, prio := th.initPrio, mask := MaskOf(c.ready.two, th.initPrio))])
  }

  ghost function Started(s: Sys, t: Tid): Sys
    requires Sane(s) && t in s.core.threads
  {
    var c := Prepared(s.core, t);
    s.(core := Resumed(c, t, c.threads[t].error))
  }

  /** rt_sem_take up to its return or its call of the scheduler. */
  ghost function Taken(s: Sys, t: Tid, time: int): Sys
    requires Sane(s) && Has(s.core, t, READY)
  {
    if s.sem.value > 0 then
      s.(sem := s.sem.(value := s.sem.value - 1), log := s.log.(takes := s.log.takes + 1))
    else if time == 0 then s
    else
      var c := Suspended(s.core, t, EOK, time > 0);
      s.(core := c, sem := s.sem.(q := Joined(s.sem.q, t, s.sem.flag, PrioMap(s.core.threads))),
         log := s.log.(begun := s.log.begun + 1))
  }

  /** Resumes the head of the queue with an error code. */
  ghost function WakeHead(s: Sys, err: Err): Sys
    requires Sane(s) && s.sem.q != []
  {
    assert s.sem.q[0] in s.sem.q;
    s.(core := Resumed(s.core, s.sem.q[0], err), sem := s.sem.(q := s.sem.q[1..]))
  }

  ghost function Released(s: Sys): Sys
    requires Sane(s)
  {
    var l := s.log.(releases := s.log.releases + 1);
    if s.sem.q != [] then
      WakeHead(s, EOK).(log := l.(takes := l.takes + 1, granted := l.granted + 1))
    else
      s.(sem := s.sem.(value := (s.sem.value + 1) % 65536), log := l.(wraps := l.wraps + (s.sem.value + 1) / 65536))
  }

  ghost function FlushedAll(s: Sys): Sys
    requires Sane(s)
    decreases |s.sem.q|
  {
    if s.sem.q == [] then s
    else
      WakeSane(s, ERROR);
      FlushedAll(WakeHead(s, ERROR).(log := s.log.(flushed := s.log.flushed + 1)))
  }

  lemma WakeSane(s: Sys, err: Err)
    requires Sane(s) && s.sem.q != []
    ensures Sane(WakeHead(s, err))
  {
    var t := s.sem.q[0];
    assert t in s.sem.q && Able(s.core, t);
    var c := WakeHead(s, err).core;
    forall u | u in c.threads && !c.threads[u].stat.INIT? ensures Able(c, u) {
      if u != t { assert Able(s.core, u); }
    }
    forall u | u in s.sem.q[1..] ensures u in c.threads && !c.threads[u].stat.INIT? { assert u in s.sem.q; }
  }

  ghost function Step(s: Sys, e: Event): Sys
    requires Sane(s) && Enabled(s, e)
  {
    match e
    case Startup(t) => Started(s, t)
    case Take(t, time) => Taken(s, t, time)
    case Release => Released(s)
    case Reset(value) =>
      var s1 := FlushedAll(s);
      var v := value % 65536;
      s1.(sem := s1.sem.(value := v), log := s1.log.(initial := v, releases := 0, takes := 0, wraps := 0))
    case Timeout(t) =>
      s.(core := Resumed(s.core, t, ETIMEOUT), sem := s.sem.(q := Left(s.sem.q, t)),
         log := s.log.(expired := s.log.expired + if t in s.sem.q then 1 else 0))
    case Sleep(t) => s.(core := Suspended(s.core, t, s.core.threads[t].error, true))
    case Yield(t) => s.(core := Yielded(s.core, t))
    case Exit(t, keep) => s.(core := Closed(s.core, t), defunct := if keep then [t] + s.defunct else s.defunct)
    case Change(t, p) => s.(core := Reprioritized(s.core, t, p))
  }

  // ----- the invariant -----

  /** Members of the two other rings. */
  ghost predicate Ringed(c: Core, q: seq<Tid>, defunct: seq<Tid>) {
    && NoDup(q) && NoDup(defunct)
    && (forall t :: t in q ==> Has(c, t, SUSPEND) && c.threads[t].error == EOK)
    && (forall t :: t in defunct ==> Has(c, t, CLOSE))
  }

  ghost predicate Balanced(sem: Sem, l: Log) {
    && sem.value < 65536 && (sem.q != [] ==> sem.value == 0)
    && l.initial + l.releases == sem.value + l.takes + 65536 * l.wraps
    && l.begun == l.granted + l.expired + l.flushed + |sem.q|
  }

  ghost predicate Inv(s: Sys) {
    && CoreInv(s.core) && Ringed(s.core, s.sem.q, s.defunct) && Balanced(s.sem, s.log)
    && (s.sem.flag.PRIO? ==> Sorted(s.sem.q, PrioMap(s.core.threads)))
  }

  lemma InvSane(s: Sys)
    requires Inv(s)
    ensures Sane(s)
  {
    forall t | t in s.core.threads && !s.core.threads[t].stat.INIT? ensures Able(s.core, t) { Fits(s.core, t); }
    forall t | t in s.core.threads ensures s.core.threads[t].initPrio < |s.core.ready.queues| {
      assert Cached(s.core.threads[t], s.core.ready.two);
    }
  }

  lemma SameSorted(q: seq<Tid>, p1: Priorities, p2: Priorities)
    requires Sorted(q, p1) && forall t :: t in q ==> Prio(p1, t) == Prio(p2, t)
    ensures Sorted(q, p2)
  {
  }

  /** Only t changes, and it is on neither of the other rings. */
  lemma ElsewhereKept(s: Sys, t: Tid, c: Core)
    requires Inv(s) && t !in s.sem.q && t !in s.defunct
    requires forall x :: x != t ==> (x in c.threads <==> x in s.core.threads)
    requires forall x :: x != t && x in c.threads ==> c.threads[x] == s.core.threads[x]
    ensures Ringed(c, s.sem.q, s.defunct)
    ensures s.sem.flag.PRIO? ==> Sorted(s.sem.q, PrioMap(c.threads))
  {
    if s.sem.flag.PRIO? { SameSorted(s.sem.q, PrioMap(s.core.threads), PrioMap(c.threads)); }
    hide NoDup, Sorted;
  }

  lemma NotOnRings(s: Sys, t: Tid)
    requires Inv(s) && (Has(s.core, t, READY) || Has(s.core, t, INIT))
    ensures t !in s.sem.q && t !in s.defunct
  {
  }

  lemma StartedInv(s: Sys, t: Tid)
    requires Inv(s) && Sane(s) && Has(s.core, t, INIT)
    ensures Inv(Started(s, t)) && ReadyAt(Started(s, t).core.threads, t, s.core.threads[t].initPrio)
  {
    var c := Prepared(s.core, t);
    NotOnRings(s, t);
    assert CoreInv(c) by {
      assert Cached(s.core.threads[t], s.core.ready.two);
      hide Agree, NoDup;
    }
    ResumedInv(c, t, c.threads[t].error);
    hide CoreInv;
    ElsewhereKept(s, t, Started(s, t).core);
  }

  lemma QueuedRinged(s: Sys, t: Tid, armed: bool)
    requires Inv(s) && Has(s.core, t, READY) && Able(s.core, t)
    ensures var q := Joined(s.sem.q, t, s.sem.flag, PrioMap(s.core.threads));
      && Ringed(Suspended(s.core, t, EOK, armed), q, s.defunct) && |q| == |s.sem.q| + 1
      && (s.sem.flag.PRIO? ==> Sorted(q, PrioMap(Suspended(s.core, t, EOK, armed).threads)))
  {
    NotOnRings(s, t);
    var p := PrioMap(s.core.threads);
    var c := Suspended(s.core, t, EOK, armed);
    ElsewhereKept(s, t, c);
    JoinedIn(s.sem.q, t, s.sem.flag, p);
    if s.sem.flag.PRIO? {
      JoinedSorted(s.sem.q, t, p);
      SameSorted(Joined(s.sem.q, t, PRIO, p), p, PrioMap(c.threads));
    }
    hide Joined, NoDup, Sorted, CoreInv;
  }

  lemma TakenInv(s: Sys, t: Tid, time: int)
    requires Inv(s) && Sane(s) && Has(s.core, t, READY)
    ensures Inv(Taken(s, t, time))
    ensures t in Taken(s, t, time).sem.q <==> s.sem.value == 0 && time != 0
    ensures Enabled(Taken(s, t, time), Timeout(t)) <==> s.sem.value == 0 && time > 0
  {
    hide CoreInv, Ringed, Sorted, Joined;
    NotOnRings(s, t);
    if s.sem.value == 0 && time != 0 {
      SuspendedInv(s.core, t, EOK, time > 0);
      QueuedRinged(s, t, time > 0);
      JoinedIn(s.sem.q, t, s.sem.flag, PrioMap(s.core.threads));
    }
  }

  /** The head leaves the semaphore's ring for a run queue. */
  lemma HeadRinged(c: Core, q: seq<Tid>, defunct: seq<Tid>, err: Err)
    requires Ringed(c, q, defunct) && q != [] && Able(c, q[0])
    ensures Ringed(Resumed(c, q[0], err), q[1..], defunct)
  {
    HeadLeaves(q, map[]);
    assert q[0] in q;
    hide NoDup, Sorted, Insert;
  }

  lemma HeadSorted(c: Core, q: seq<Tid>, err: Err)
    requires NoDup(q) && q != [] && Able(c, q[0]) && Sorted(q, PrioMap(c.threads))
    ensures Sorted(q[1..], PrioMap(Resumed(c, q[0], err).threads))
  {
    HeadLeaves(q, PrioMap(c.threads));
    hide NoDup, Insert;
    SameSorted(q[1..], PrioMap(c.threads), PrioMap(Resumed(c, q[0], err).threads));
  }

  lemma WakeHeadInv(s: Sys, err: Err)
    requires Inv(s) && Sane(s) && s.sem.q != []
    ensures var r := WakeHead(s, err);
      CoreInv(r.core) && Ringed(r.core, r.sem.q, r.defunct) && (s.sem.flag.PRIO? ==> Sorted(r.sem.q, PrioMap(r.core.threads)))
  {
    hide CoreInv, NoDup, Sorted, Resumed;
    assert s.sem.q[0] in s.sem.q;
    ResumedInv(s.core, s.sem.q[0], err);
    HeadRinged(s.core, s.sem.q, s.defunct, err);
    if s.sem.flag.PRIO? { HeadSorted(s.core, s.sem.q, err); }
  }

  lemma ReleasedInv(s: Sys)
    requires Inv(s) && Sane(s)
    ensures Inv(Released(s))
  {
    if s.sem.q != [] { WakeHeadInv(s, EOK); }
    hide CoreInv, Ringed, Sorted;
  }

  lemma {:induction false} FlushedInv(s: Sys)
    requires Inv(s) && Sane(s)
    ensures Inv(FlushedAll(s)) && FlushedAll(s).sem.q == []
    decreases |s.sem.q|
  {
    if s.sem.q != [] {
      WakeHeadInv(s, ERROR);
      WakeSane(s, ERROR);
      hide CoreInv, Ringed, Sorted;
      FlushedInv(WakeHead(s, ERROR).(log := s.log.(flushed := s.log.flushed + 1)));
    }
  }

  lemma TimeoutRinged(s: Sys, t: Tid)
    requires Inv(s) && Has(s.core, t, SUSPEND) && Able(s.core, t)
    ensures var c := Resumed(s.core, t, ETIMEOUT);
      && Ringed(c, Left(s.sem.q, t), s.defunct)
      && (s.sem.flag.PRIO? ==> Sorted(Left(s.sem.q, t), PrioMap(c.threads)))
      && |Left(s.sem.q, t)| == (if t in s.sem.q then |s.sem.q| - 1 else |s.sem.q|)
  {
    var c := Resumed(s.core, t, ETIMEOUT);
    LeftIn(s.sem.q, t);
    if s.sem.flag.PRIO? {
      LeftSorted(s.sem.q, t, PrioMap(s.core.threads));
      SameSorted(Left(s.sem.q, t), PrioMap(s.core.threads), PrioMap(c.threads));
    }
    hide CoreInv, NoDup, Sorted, Left;
  }

  lemma TimeoutInv(s: Sys, t: Tid)
    requires Inv(s) && Sane(s) && Enabled(s, Timeout(t))
    ensures Inv(Step(s, Timeout(t)))
  {
    ResumedInv(s.core, t, ETIMEOUT);
    TimeoutRinged(s, t);
    hide CoreInv, Ringed, Sorted, Left;
  }

  lemma ChangeInv(s: Sys, t: Tid, p: nat)
    requires Inv(s) && Sane(s) && Enabled(s, Change(t, p))
    ensures Inv(Step(s, Change(t, p)))
  {
    ReprioritizedInv(s.core, t, p);
    var c := Reprioritized(s.core, t, p);
    if s.sem.flag.PRIO? { SameSorted(s.sem.q, PrioMap(s.core.threads), PrioMap(c.threads)); }
    hide CoreInv, NoDup, Sorted;
  }

  lemma ExitInv(s: Sys, t: Tid, keep: bool)
    requires Inv(s) && Sane(s) && Enabled(s, Exit(t, keep))
    ensures Inv(Step(s, Exit(t, keep)))
  {
    NotOnRings(s, t);
    SuspendedInv(s.core, t, EOK, false);
    ElsewhereKept(s, t, Closed(s.core, t));
    hide CoreInv, Sorted;
  }

  lemma StepInv(s: Sys, e: Event)
    requires Inv(s) && Enabled(s, e)
    ensures Sane(s) && Inv(Step(s, e))
  {
    InvSane(s);
    match e
    case Startup(t) => StartedInv(s, t);
    case Take(t, time) => TakenInv(s, t, time);
    case Release => ReleasedInv(s);
    case Reset(value) => FlushedInv(s);
    case Timeout(t) => TimeoutInv(s, t);
    case Sleep(t) =>
      NotOnRings(s, t);
      SuspendedInv(s.core, t, s.core.threads[t].error, true);
      ElsewhereKept(s, t, Suspended(s.core, t, s.core.threads[t].error, true));
      hide CoreInv, Ringed, Sorted;
    case Yield(t) =>
      NotOnRings(s, t);
      YieldedInv(s.core, t);
      hide CoreInv;
      ElsewhereKept(s, t, Yielded(s.core, t));
    case Exit(t, keep) => ExitInv(s, t, keep);
    case Change(t, p) => ChangeInv(s, t, p);
  }

  /** Before any thread is started: empty run queues, a fresh semaphore. */
  function InitSys(two: bool, threads: map<Tid, Thread>, v: nat, flag: Flag): Sys {
    Sys(Core(Init(two), threads), Sem(v % 65536, [], flag), [], Log(v % 65536, 0, 0, 0, 0, 0, 0, 0))
  }

  predicate AllInit(two: bool, threads: map<Tid, Thread>) {
    forall t :: t in threads ==> threads[t].stat.INIT? && threads[t].initPrio < Levels(two)
  }

  lemma InitInv(two: bool, threads: map<Tid, Thread>, v: nat, flag: Flag)
    requires AllInit(two, threads)
    ensures Inv(InitSys(two, threads, v, flag))
  {
    InitAgree(two);
    hide Agree;
  }

  ghost predicate Reaches(s: Sys, es: seq<Event>, r: Sys)
    decreases es
  {
    if es == [] then r == s else Sane(s) && Enabled(s, es[0]) && Reaches(Step(s, es[0]), es[1..], r)
  }

  ghost predicate InQueue(s: Sys, t: Tid, p: int) {
    0 <= p < |s.core.ready.queues| && t in s.core.ready.queues[p]
  }

  /** The run queues, the semaphore and the defunct list share no thread. */
  ghost predicate OnOneRing(s: Sys, t: Tid) {
    && (forall p, p1 :: InQueue(s, t, p) && InQueue(s, t, p1) ==> p == p1)
    && (forall p :: InQueue(s, t, p) ==> t !in s.sem.q && t !in s.defunct)
    && (t in s.sem.q ==> t !in s.defunct)
  }

  /** In every reachable state: a thread is on at most one ring, and READY exactly
      when on the run queue of its priority; waiters only when the value is 0;
      initial + releases = value + takes, up to the wraps of the 16-bit value;
      and every blocked take that has ended has ended exactly once. */
  lemma {:induction false} RunsSafe(s: Sys, es: seq<Event>, r: Sys)
    requires Inv(s) && Reaches(s, es, r)
    ensures Inv(r)
    ensures forall t :: OnOneRing(r, t)
    ensures r.sem.q != [] ==> r.sem.value == 0
    ensures r.log.initial + r.log.releases == r.sem.value + r.log.takes <==> r.log.wraps == 0
    ensures r.log.begun - |r.sem.q| == r.log.granted + r.log.expired + r.log.flushed
    decreases es
  {
    if es == [] {
      forall t ensures OnOneRing(r, t) { OneRing(r, t); }
    } else {
      StepInv(s, es[0]);
      hide Inv, Sane, Enabled;
      RunsSafe(Step(s, es[0]), es[1..], r);
    }
  }

  lemma OneRing(s: Sys, t: Tid)
    requires Inv(s)
    ensures OnOneRing(s, t)
  {
    forall p | InQueue(s, t, p) ensures ReadyAt(s.core.threads, t, p) {}
    hide Agree, NoDup, Cached;
  }

  /** Waking the head changes that thread only. */
  lemma WokenHead(s: Sys, err: Err)
    requires Sane(s) && NoDup(s.sem.q) && s.sem.q != []
    ensures var r, t := WakeHead(s, err), s.sem.q[0];
      && r.sem.q == s.sem.q[1..] && NoDup(r.sem.q) && t !in r.sem.q && (forall u :: u in s.sem.q <==> u == t || u in r.sem.q)
      && Has(r.core, t, READY) && r.core.threads[t].error == err
      && forall u :: u != t && u in s.core.threads ==> u in r.core.threads && r.core.threads[u] == s.core.threads[u]
  {
    HeadLeaves(s.sem.q, map[]);
    assert s.sem.q == [s.sem.q[0]] + s.sem.q[1..];
    assert s.sem.q[0] in s.sem.q;
  }

  lemma {:induction false} FlushedOthers(s: Sys, t: Tid)
    requires Sane(s) && NoDup(s.sem.q) && t in s.core.threads && t !in s.sem.q
    ensures t in FlushedAll(s).core.threads && FlushedAll(s).core.threads[t] == s.core.threads[t]
    decreases |s.sem.q|
  {
    hide Sane, NoDup, WakeHead;
    if s.sem.q != [] {
      WakeSane(s, ERROR);
      WokenHead(s, ERROR);
      var r := WakeHead(s, ERROR).(log := s.log.(flushed := s.log.flushed + 1));
      LogFree(WakeHead(s, ERROR), r.log);
      FlushedOthers(r, t);
    }
  }

  lemma LogFree(s: Sys, l: Log)
    requires Sane(s)
    ensures Sane(s.(log := l))
  {
  }

  lemma {:induction false} FlushedEach(s: Sys, t: Tid)
    requires Sane(s) && NoDup(s.sem.q) && t in s.sem.q
    ensures Has(FlushedAll(s).core, t, READY) && FlushedAll(s).core.threads[t].error == ERROR
    decreases |s.sem.q|
  {
    hide Sane, NoDup, WakeHead;
    WakeSane(s, ERROR);
    WokenHead(s, ERROR);
    var r := WakeHead(s, ERROR).(log := s.log.(flushed := s.log.flushed + 1));
    LogFree(WakeHead(s, ERROR), r.log);
    if t == s.sem.q[0] { FlushedOthers(r, t); } else { FlushedEach(r, t); }
  }

  /** What a thread blocked in rt_sem_take finds when it runs again. */
  function Verdict(e: Event): Err {
    if e.Timeout? then ETIMEOUT else if e.Reset? then ERROR else EOK
  }

  /** A blocked take goes on waiting or ends, and it ends only by being granted as
      the head of the queue, by its own timeout or by a reset, with the error code
      that says which. */
  lemma BlockedEnds(s: Sys, e: Event, t: Tid)
    requires Inv(s) && Sane(s) && Enabled(s, e) && t in s.sem.q
    ensures var r := Step(s, e);
      if t in r.sem.q then e != Timeout(t) && !e.Reset? && !(e.Release? && t == s.sem.q[0])
      else (e == Timeout(t) || e.Reset? || (e.Release? && t == s.sem.q[0]))
           && Has(r.core, t, READY) && r.core.threads[t].error == Verdict(e)
  {
    hide CoreInv, Sorted;
    match e
    case Release =>
      HeadLeaves(s.sem.q, map[]);
      assert s.sem.q == [s.sem.q[0]] + s.sem.q[1..];
    case Reset(_) =>
      FlushedEach(s, t);
      FlushedEmpty(s);
    case Timeout(u) => LeftIn(s.sem.q, u);
    case Take(u, time) =>
      if s.sem.value == 0 && time != 0 { JoinedIn(s.sem.q, u, s.sem.flag, PrioMap(s.core.threads)); }
    case _ =>
  }

  lemma {:induction false} FlushedEmpty(s: Sys)
    requires Sane(s)
    ensures FlushedAll(s).sem.q == []
    decreases |s.sem.q|
  {
    if s.sem.q != [] {
      WakeSane(s, ERROR);
      FlushedEmpty(WakeHead(s, ERROR).(log := s.log.(flushed := s.log.flushed + 1)));
    }
  }

  /** With some thread ready, the queue that the bitmap points to holds, first, a
      READY thread than which no READY thread is more urgent. */
  lemma PicksMostUrgent(s: Sys)
    requires Inv(s) && SomeReady(s.core.ready)
    ensures var r := s.core.ready;
      && (r.two ==> 0 <= Ffs(r.group) - 1 < 32 && r.table[Ffs(r.group) - 1] < 256) && r.group < 0x1_0000_0000
      && 0 <= Highest(r) < |r.queues| && r.queues[Highest(r)] != []
      && ReadyAt(s.core.threads, r.queues[Highest(r)][0], Highest(r))
      && forall u :: Has(s.core, u, READY) ==> Highest(r) <= s.core.threads[u].prio
  {
    var r := s.core.ready;
    HighestCorrect(r);
    hide Highest, Ffs, NoDup;
    assert r.queues[Highest(r)][0] in r.queues[Highest(r)];
    forall u | Has(s.core, u, READY) ensures Highest(r) <= s.core.threads[u].prio {
      Fits(s.core, u);
      var p := s.core.threads[u].prio;
      assert ReadyAt(s.core.threads, u, p);
      assert u in r.queues[p];
    }
  }

  /** The conservation law can only fail by releasing at 65535. */
  lemma WrapsOnlyAtTop(s: Sys, e: Event)
    requires Inv(s) && Sane(s) && Enabled(s, e) && !e.Reset?
    ensures Step(s, e).log.wraps == s.log.wraps + (if e.Release? && s.sem.value == 65535 then 1 else 0)
  {
  }

  /** A sleeping thread is suspended and its timer can wake it, with nothing else
      changed; an exiting one is closed and, if it is to be cleaned up, first in
      line for that; a reset leaves the semaphore with the value given. */
  lemma StepMeaning(s: Sys, t: Tid, keep: bool, v: nat)
    requires Inv(s) && Sane(s) && Has(s.core, t, READY)
    ensures var r := Step(s, Sleep(t));
      && Has(r.core, t, SUSPEND) && Enabled(r, Timeout(t)) && r.core.threads[t].error == s.core.threads[t].error
      && r.sem == s.sem && r.defunct == s.defunct
    ensures var r := Step(s, Exit(t, keep));
      && Has(r.core, t, CLOSE) && !r.core.threads[t].armed && r.defunct == (if keep then [t] + s.defunct else s.defunct)
      && r.sem == s.sem
    ensures var r := Step(s, Reset(v)); r.sem.value == v % 65536 && r.sem.q == []
  {
    hide CoreInv, Ringed, Sorted, Remove;
    FlushedEmpty(s);
  }

  /** A semaphore initialised to 65535 and released once has the value zero. */
  lemma FreshWraps(two: bool, threads: map<Tid, Thread>, flag: Flag) returns (r: Sys)
    requires AllInit(two, threads)
    ensures Reaches(InitSys(two, threads, 65535, flag), [Release], r) && r.sem.value == 0 && r.log.wraps == 1
    ensures r.log.initial + r.log.releases == 65536 && r.log.takes == 0
  {
    var s := InitSys(two, threads, 65535, flag);
    InitInv(two, threads, 65535, flag);
    InvSane(s);
    r := Released(s);
    assert [Release][1..] == [];
    assert Reaches(r, [], r);
  }
}
