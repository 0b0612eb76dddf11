/** The scheduler and thread operations in place: run queues and ready table are
    arrays, and every method does to the system what its step does. */
module Kernel {
  import opened Words
  import opened IpcQueue
  import opened Bits
  import opened ReadyQueue
  import opened Threads

  class Kernel {
    const two: bool
    const queues: array<seq<Tid>>
    const table: array<nat>
    var group: nat
    var threads: map<Tid, Thread>
    var value: nat
    var q: seq<Tid>
    const flag: Flag
    var defunct: seq<Tid>
    var current: Tid
    var nest: int
    ghost var log: Log

    ghost function Runs(): Core
      reads this, queues, table
    {
      Core(Ready(two, queues[..], group, table[..]), threads)
    }

    ghost function Now(): Sys
      reads this, queues, table
    {
      Sys(Runs(), Sem(value, q, flag), defunct, log)
    }

    ghost predicate Valid()
      reads this, queues, table
    {
      Inv(Now())
    }

    /** rt_system_scheduler_init, with threads initialised and not yet started and
        the semaphore as rt_sem_init leaves it; `none` stands for no thread. */
    constructor (two: bool, threads: map<Tid, Thread>, v: nat, flag: Flag, none: Tid)
      requires AllInit(two, threads)
      ensures Valid() && fresh(queues) && fresh(table)
      ensures Now() == InitSys(two, threads, v, flag) && nest == 0 && current == none
    {
      this.two, this.flag := two, flag;
      queues := new seq<Tid>[Levels(two)](_ => []);
      table := new nat[32](_ => 0);
      group, nest := 0, 0;
      this.threads, value, q, defunct, current := threads, v % 65536, [], [], none;
      log := Log(v % 65536, 0, 0, 0, 0, 0, 0, 0);
      new;
      assert queues[..] == Init(two).queues && table[..] == Init(two).table;
      InitInv(two, threads, v, flag);
    }

    /** rt_schedule_insert_thread. */
    method InsertThread(t: Tid)
      requires t in threads && threads[t].prio < queues.Length && threads[t].mask.number < table.Length
      modifies this`group, this`threads, queues, table
      ensures threads == old(threads)[t := old(threads[t]).(stat := READY)]
      ensures Runs() == Core(Insert(old(Runs().ready), t, threads[t].prio, threads[t].mask), threads)
      ensures queues[threads[t].prio] == old(queues[threads[t].prio]) + [t]
      ensures forall p :: 0 <= p < queues.Length && p != threads[t].prio ==> queues[p] == old(queues[p])
    {
      var th := threads[t];
      threads := threads[t := th.(stat := READY)];
      queues[th.prio] := queues[th.prio] + [t];
      if two {
        table[th.mask.number] := SetBit(table[th.mask.number], th.mask.high);
      }
      group := SetBit(group, th.mask.number);
      assert queues[..] == old(queues[..])[th.prio := old(queues[..])[th.prio] + [t]];
    }

    /** rt_schedule_remove_thread. */
    method RemoveThread(t: Tid)
      requires t in threads && threads[t].prio < queues.Length && threads[t].mask.number < table.Length
      modifies this`group, queues, table
      ensures Runs() == Core(Remove(old(Runs().ready), t, threads[t].prio, threads[t].mask), threads)
    {
      var p, m := threads[t].prio, threads[t].mask;
      queues[p] := Left(queues[p], t);
      if queues[p] == [] {
        if two {
          table[m.number] := ClearBit(table[m.number], m.high);
          if table[m.number] == 0 { group := ClearBit(group, m.number); }
        } else {
          group := ClearBit(group, m.number);
        }
      }
      assert queues[..] == old(queues[..])[p := Left(old(queues[..])[p], t)];
    }

    /** rt_thread_suspend: refuses threads that are not ready. */
    method SuspendThread(t: Tid) returns (ok: bool)
      requires CoreInv(Runs()) && t in threads
      modifies this`group, this`threads, queues, table
      ensures ok == old(Has(Runs(), t, READY)) && (ok ==> old(Able(Runs(), t)))
      ensures if ok then CoreInv(Runs()) && Runs() == Suspended(old(Runs()), t, old(threads[t].error), false) else Runs() == old(Runs())
    {
      ok := threads[t].stat == READY;
      if ok {
        SuspendedInv(Runs(), t, threads[t].error, false);
        hide CoreInv, Remove;
        threads := threads[t := threads[t].(stat := SUSPEND, armed := false)];
        RemoveThread(t);
      }
    }

    /** rt_thread_resume, and rt_thread_timeout: `err` goes to the thread. */
    method ResumeThread(t: Tid, err: Err) returns (ok: bool)
      requires CoreInv(Runs()) && t in threads
      modifies this`group, this`threads, queues, table
      ensures ok == old(Has(Runs(), t, SUSPEND)) && (ok ==> old(Able(Runs(), t)))
      ensures if ok then CoreInv(Runs()) && Runs() == Resumed(old(Runs()), t, err) else Runs() == old(Runs())
    {
      ok := threads[t].stat == SUSPEND;
      if ok {
        ResumedInv(Runs(), t, err);
        hide CoreInv, Insert;
        threads := threads[t := threads[t].(armed := false, error := err)];
        InsertThread(t);
      }
    }

    /** rt_thread_control with RT_THREAD_CTRL_CHANGE_PRIORITY. */
    method ChangePriority(t: Tid, p: nat)
      requires CoreInv(Runs()) && t in threads && p < Levels(two)
      modifies this`group, this`threads, queues, table
      ensures (old(Has(Runs(), t, READY)) ==> old(Able(Runs(), t))) && p < queues.Length && MaskOf(two, p).number < table.Length
      ensures CoreInv(Runs()) && Runs() == Reprioritized(old(Runs()), t, p)
    {
      ReprioritizedInv(Runs(), t, p);
      InvSizes(Runs());
      hide CoreInv, Insert, Remove, MaskOf, Sized;
      var th := threads[t];
      var th1 := th.(prio := p, mask := MaskOf(two, p));
      if th.stat == READY {
        RemoveThread(t);
        threads := threads[t := th1];
        InsertThread(t);
        assert th1.(stat := READY) == th1;
        assert threads == old(threads)[t := th1];
      } else {
        threads := threads[t := th1];
      }
    }

    /** rt_thread_yield by a ready thread. */
    method YieldThread(t: Tid)
      requires CoreInv(Runs()) && Has(Runs(), t, READY)
      modifies queues
      ensures CoreInv(Runs()) && threads[t].prio < queues.Length && Runs() == Yielded(old(Runs()), t)
    {
      YieldedInv(Runs(), t);
      hide CoreInv;
      var p := threads[t].prio;
      if |queues[p]| >= 2 {
        queues[p] := Left(queues[p], t) + [t];
        assert queues[..] == old(queues[..])[p := Left(old(queues[..])[p], t) + [t]];
      }
    }

    /** The blocking part of rt_sem_take: the error code is reset, the thread
        suspended on the semaphore and its timer started. */
    method Block(t: Tid, time: int)
      requires CoreInv(Runs()) && Has(Runs(), t, READY)
      modifies this`group, this`threads, this`q, queues, table
      ensures old(Able(Runs(), t)) && Runs() == Suspended(old(Runs()), t, EOK, time > 0)
      ensures q == Joined(old(q), t, flag, PrioMap(old(threads)))
    {
      q := Suspend(q, t, flag, PrioMap(threads));
      ErrorFree(Runs(), t, EOK);
      hide CoreInv, Remove;
      threads := threads[t := threads[t].(error := EOK)];
      var ok := SuspendThread(t);
      if time > 0 { threads := threads[t := threads[t].(armed := true)]; }
      assert threads == old(threads)[t := old(threads[t]).(stat := SUSPEND, armed := time > 0, error := EOK)];
    }

    /** rt_sem_take by a ready thread: success, failure, or blocked (no result). */
    method SemTake(t: Tid, time: int) returns (done: bool, err: Err)
      requires Valid() && Has(Runs(), t, READY)
      modifies this, queues, table
      ensures Valid() && old(Sane(Now())) && Now() == Taken(old(Now()), t, time)
      ensures done && err == EOK <==> old(value) > 0
      ensures done && err == ETIMEOUT <==> old(value) == 0 && time == 0
    {
      hide CoreInv, Ringed, Balanced, Sane, Suspended, Sorted;
      InvSane(Now());
      TakenInv(Now(), t, time);
      done, err := true, EOK;
      if value > 0 {
        value := value - 1;
        log := log.(takes := log.takes + 1);
      } else if time == 0 {
        err := ETIMEOUT;
      } else {
        done := false;
        Block(t, time);
        log := log.(begun := log.begun + 1);
      }
    }

    /** rt_sem_release: hands the unit to the first waiter, or keeps it. */
    method SemRelease()
      requires Valid()
      modifies this, queues, table
      ensures Valid() && old(Sane(Now())) && Now() == Released(old(Now()))
    {
      InvSane(Now());
      ReleasedInv(Now());
      ghost var l := log.(releases := log.releases + 1);
      if q != [] {
        var t := q[0];
        assert t in q;
        hide Ringed, Balanced, Insert;
        var ok := ResumeThread(t, threads[t].error);
        q := q[1..];
        log := l.(takes := l.takes + 1, granted := l.granted + 1);
      } else {
        log := l.(wraps := l.wraps + (value + 1) / 65536);
        value := (value + 1) % 65536;
      }
    }

    /** rt_sem_control with RT_IPC_CMD_RESET. */
    method SemReset(v: nat)
      requires Valid()
      modifies this, queues, table
      ensures Valid() && old(Sane(Now())) && Now() == Step(old(Now()), Reset(v)) && q == [] && value == v % 65536
    {
      InvSane(Now());
      StepInv(Now(), Reset(v));
      ghost var s := Now();
      while q != []
        invariant Valid() && Sane(Now()) && FlushedAll(Now()) == FlushedAll(s)
        decreases |q|
      {
        WakeOne();
      }
      value := v % 65536;
      log := log.(initial := v % 65536, releases := 0, takes := 0, wraps := 0);
    }

    /** One turn of rt_ipc_list_resume_all. */
    method WakeOne()
      requires Valid() && Sane(Now()) && q != []
      modifies this, queues, table
      ensures Valid() && Sane(Now()) && |q| == |old(q)| - 1
      ensures FlushedAll(Now()) == FlushedAll(old(Now()))
    {
      ghost var s := Now();
      WakeSane(s, ERROR);
      WakeHeadInv(s, ERROR);
      assert FlushedAll(s) == FlushedAll(WakeHead(s, ERROR).(log := s.log.(flushed := s.log.flushed + 1)));
      var t := q[0];
      assert t in q;
      assert Inv(WakeHead(s, ERROR).(log := s.log.(flushed := s.log.flushed + 1)));
      hide Ringed, Balanced, Insert, CoreInv, Sane;
      var ok := ResumeThread(t, ERROR);
      q := q[1..];
      log := log.(flushed := log.flushed + 1);
      assert Now() == WakeHead(s, ERROR).(log := s.log.(flushed := s.log.flushed + 1));
    }

    /** rt_thread_timeout for a thread whose timer has expired. */
    method ThreadTimeout(t: Tid)
      requires Valid() && Enabled(Now(), Timeout(t))
      modifies this, queues, table
      ensures Valid() && old(Sane(Now())) && Now() == Step(old(Now()), Timeout(t))
    {
      InvSane(Now());
      TimeoutInv(Now(), t);
      hide Ringed, Balanced, Insert, Sane;
      log := log.(expired := log.expired + if t in q then 1 else 0);
      q := Left(q, t);
      var ok := ResumeThread(t, ETIMEOUT);
    }

    /** rt_schedule: with the scheduler unlocked, the head of the most urgent
        nonempty run queue becomes the current thread. */
    method Schedule()
      requires Agree(Runs().ready) && SomeReady(Runs().ready)
      modifies this`current
      ensures nest != 0 ==> current == old(current)
      ensures nest == 0 ==> exists p :: 0 <= p < queues.Length && queues[p] != [] && current == queues[p][0]
                                        && forall p1 :: 0 <= p1 < p ==> queues[p1] == []
    {
      if nest == 0 {
        ghost var r := Runs().ready;
        HighestCorrect(r);
        var highest: int;
        if two {
          var number := Ffs(group) - 1;
          assert table[number] == r.table[number];
          highest := number * 8 + Ffs(table[number]) - 1;
        } else {
          highest := Ffs(group) - 1;
        }
        assert highest == Highest(r);
        assert forall p1 :: 0 <= p1 < highest ==> queues[p1] == r.queues[p1];
        var to := queues[highest][0];
        if to != current { current := to; }
      }
    }

    /** rt_enter_critical; the 16-bit nest counter is not checked. */
    method EnterCritical()
      modifies this`nest
      ensures nest == Nested(old(nest), true)
    {
      nest := if nest == 32767 then -32768 else nest + 1;
    }

    /** rt_exit_critical: leaving the outermost section reschedules. */
    method ExitCritical()
      requires Agree(Runs().ready) && SomeReady(Runs().ready)
      modifies this`nest, this`current
      ensures nest == Nested(old(nest), false)
      ensures nest != 0 ==> current == old(current)
      ensures nest == 0 ==> exists p :: 0 <= p < queues.Length && queues[p] != [] && current == queues[p][0]
                                        && forall p1 :: 0 <= p1 < p ==> queues[p1] == []
    {
      nest := if nest == -32768 then 32767 else nest - 1;
      if nest <= 0 {
        nest := 0;
        Schedule();
      }
    }
  }

  // ----- critical sections -----

  /** The 16-bit nest count after rt_enter_critical and rt_exit_critical; both
      steps wrap, and an exit that leaves it at or below zero makes it zero. */
  function Nested(n: int, enter: bool): int {
    if enter then (if n == 32767 then -32768 else n + 1)
    else if n == -32768 then 32767 else if n > 1 then n - 1 else 0
  }

  function Nest(n: int, ops: seq<bool>): int
    decreases ops
  {
    if ops == [] then n else Nest(Nested(n, ops[0]), ops[1..])
  }

  /** Reference: how many sections are open; an exit too many changes nothing. */
  function Opened(d: nat, enter: bool): nat {
    if enter then d + 1 else if d > 0 then d - 1 else 0
  }

  function Open(d: nat, ops: seq<bool>): nat
    decreases ops
  {
    if ops == [] then d else Open(Opened(d, ops[0]), ops[1..])
  }

  lemma NestTake(n: int, d: nat, ops: seq<bool>, k: nat)
    requires 0 < k <= |ops|
    ensures Nest(n, ops[..k]) == Nest(Nested(n, ops[0]), ops[1..][..k - 1])
    ensures Open(d, ops[..k]) == Open(Opened(d, ops[0]), ops[1..][..k - 1])
  {
    assert ops[..k][1..] == ops[1..][..k - 1];
  }

  /** At most 32767 sections are ever open. */
  predicate Shallow(d: nat, ops: seq<bool>)
    decreases ops
  {
    d <= 32767 && (ops == [] || Shallow(Opened(d, ops[0]), ops[1..]))
  }

  ghost predicate Counts(n: int, d: nat, ops: seq<bool>) {
    forall k :: 0 <= k <= |ops| ==> Nest(n, ops[..k]) == Open(d, ops[..k])
  }

  lemma CountsStep(n: int, d: nat, ops: seq<bool>)
    requires ops != []
    ensures Counts(n, d, ops) <==> n == d && Counts(Nested(n, ops[0]), Opened(d, ops[0]), ops[1..])
  {
    if Counts(n, d, ops) {
      assert Nest(n, ops[..0]) == Open(d, ops[..0]);
      forall k | 0 <= k <= |ops[1..]|
        ensures Nest(Nested(n, ops[0]), ops[1..][..k]) == Open(Opened(d, ops[0]), ops[1..][..k])
      {
        assert Nest(n, ops[..k + 1]) == Open(d, ops[..k + 1]);
        NestTake(n, d, ops, k + 1);
      }
    }
    if n == d && Counts(Nested(n, ops[0]), Opened(d, ops[0]), ops[1..]) {
      forall k | 0 <= k <= |ops| ensures Nest(n, ops[..k]) == Open(d, ops[..k]) {
        if k > 0 { NestTake(n, d, ops, k); }
      }
    }
  }

  /** The nest count is the number of open sections all along exactly when never
      more than 32767 are open. */
  lemma {:induction false} NestCounts(d: nat, ops: seq<bool>)
    requires d <= 32767
    ensures Shallow(d, ops) <==> Counts(d, d, ops)
    decreases ops
  {
    if ops == [] {
      assert forall k :: 0 <= k <= |ops| ==> ops[..k] == [];
    } else {
      CountsStep(d, d, ops);
      hide Counts;
      if Opened(d, ops[0]) <= 32767 {
        NestCounts(Opened(d, ops[0]), ops[1..]);
      } else {
        CountsHead(-32768, 32768, ops[1..]);
      }
    }
  }

  lemma CountsHead(n: int, d: nat, ops: seq<bool>)
    ensures Counts(n, d, ops) ==> n == d
  {
    assert ops[..0] == [];
    assert Counts(n, d, ops) ==> Nest(n, ops[..0]) == Open(d, ops[..0]);
  }

  /** Never more than 65535 sections are open, and none is left while more than
      32768 are. */
  predicate Leavable(d: nat, ops: seq<bool>)
    decreases ops
  {
    && d <= 65535
    && (ops == [] || ((ops[0] || d <= 32768) && Leavable(Opened(d, ops[0]), ops[1..])))
  }

  /** The nest count of d open sections, all entered and none left. */
  function Wrapped(d: nat): int {
    if d <= 32767 then d else d - 65536
  }

  ghost predicate Locks(n: int, d: nat, ops: seq<bool>) {
    forall k :: 0 <= k <= |ops| ==> (Nest(n, ops[..k]) == 0 <==> Open(d, ops[..k]) == 0)
  }

  lemma LocksStep(n: int, d: nat, ops: seq<bool>)
    requires ops != []
    ensures Locks(n, d, ops) <==> (n == 0 <==> d == 0) && Locks(Nested(n, ops[0]), Opened(d, ops[0]), ops[1..])
  {
    if Locks(n, d, ops) {
      assert Nest(n, ops[..0]) == 0 <==> Open(d, ops[..0]) == 0;
      forall k | 0 <= k <= |ops[1..]|
        ensures Nest(Nested(n, ops[0]), ops[1..][..k]) == 0 <==> Open(Opened(d, ops[0]), ops[1..][..k]) == 0
      {
        assert Nest(n, ops[..k + 1]) == 0 <==> Open(d, ops[..k + 1]) == 0;
        NestTake(n, d, ops, k + 1);
      }
    }
    if (n == 0 <==> d == 0) && Locks(Nested(n, ops[0]), Opened(d, ops[0]), ops[1..]) {
      forall k | 0 <= k <= |ops| ensures Nest(n, ops[..k]) == 0 <==> Open(d, ops[..k]) == 0 {
        if k > 0 { NestTake(n, d, ops, k); }
      }
    }
  }

  lemma LocksHead(n: int, d: nat, ops: seq<bool>)
    ensures Locks(n, d, ops) ==> (n == 0 <==> d == 0)
  {
    assert ops[..0] == [];
    assert Locks(n, d, ops) ==> (Nest(n, ops[..0]) == 0 <==> Open(d, ops[..0]) == 0);
  }

  /** The scheduler is locked exactly while a section is open, all along a run,
      if and only if the run is leavable: the wrap at 32768 is undone by the next
      exit, one section deeper every exit unlocks, and the section 65536 does. */
  lemma {:induction false} LockExact(d: nat, ops: seq<bool>)
    requires d <= 65535
    ensures Leavable(d, ops) <==> Locks(Wrapped(d), d, ops)
    decreases ops
  {
    if ops == [] {
      assert forall k :: 0 <= k <= |ops| ==> ops[..k] == [];
    } else {
      LocksStep(Wrapped(d), d, ops);
      LocksHead(Nested(Wrapped(d), ops[0]), Opened(d, ops[0]), ops[1..]);
      hide Locks;
      if Opened(d, ops[0]) <= 65535 && (ops[0] || d <= 32768) {
        LockExact(Opened(d, ops[0]), ops[1..]);
      }
    }
  }

  /** From 32767 open sections, two more and a single exit unlock the scheduler. */
  lemma NestOverflows()
    ensures Nest(32767, [true, true, false]) == 0 && Open(32767, [true, true, false]) == 32768
  {
    var ops := [true, true, false];
    assert ops[1..] == [true, false] && [true, false][1..] == [false] && [false][1..] == [];
    assert Nest(32767, ops) == Nest(-32768, [true, false]) == Nest(-32767, [false]) == Nest(0, []);
    assert Open(32767, ops) == Open(32768, [true, false]) == Open(32769, [false]) == Open(32768, []);
  }

  lemma ErrorFree(c: Core, t: Tid, err: Err)
    requires CoreInv(c) && t in c.threads
    ensures CoreInv(c.(threads := c.threads[t := c.threads[t].(error := err)]))
  {
    hide Agree, NoDup;
  }

  lemma InvSizes(c: Core)
    requires CoreInv(c)
    ensures Sized(c.ready)
  {
  }
}
