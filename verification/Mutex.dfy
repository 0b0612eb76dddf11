/** One mutex with priority inheritance: rt_mutex_init, take and release, the
    timeout of a waiter, and the priority changes they make. `prio` is what the
    threads currently run at; `base` in the lemmas is what they run at while
    they own nothing. */
module Mutex {
  import opened Words
  import opened IpcQueue

  datatype Owner = Nobody | Owned(t: Tid)

  /** value, original_priority and the 8-bit hold, as in struct rt_mutex. */
  datatype State = State(value: nat, owner: Owner, orig: nat, hold: nat,
                         flag: Flag, q: seq<Tid>, prio: Priorities)

  /** The 8-bit hold counter. */
  function Up(hold: nat): nat {
    if hold >= 255 then 0 else hold + 1
  }

  function Down(hold: nat): nat {
    if hold == 0 then 255 else hold - 1
  }

  function Init(flag: Flag, base: Priorities): State {
    State(1, Nobody, 0xFF, 0, flag, [], base)
  }

  /** rt_mutex_take up to its return or its call of the scheduler. */
  function Taken(s: State, t: Tid, time: int): State {
    if s.owner == Owned(t) then s.(hold := Up(s.hold))
    else if s.value > 0 then
      s.(value := s.value - 1, owner := Owned(t), orig := Prio(s.prio, t), hold := Up(s.hold))
    else if time == 0 || s.owner.Nobody? then s
    else
      var o := s.owner.t;
      var prio := if Prio(s.prio, t) < Prio(s.prio, o) then s.prio[o := Prio(s.prio, t)] else s.prio;
      s.(prio := prio, q := Joined(s.q, t, s.flag, prio))
  }

  /** rt_mutex_release: hand over to the head of the queue, or become free. */
  function Released(s: State, t: Tid): State {
    if s.owner != Owned(t) then s
    else if Down(s.hold) != 0 then s.(hold := Down(s.hold))
    else
      var prio := if s.orig != Prio(s.prio, t) then s.prio[t := s.orig] else s.prio;
      if s.q != [] then
        s.(hold := 1, prio := prio, owner := Owned(s.q[0]), orig := Prio(prio, s.q[0]), q := s.q[1..])
      else
        s.(hold := 0, prio := prio, value := (s.value + 1) % 65536, owner := Nobody, orig := 0xFF)
  }

  datatype Event = Take(t: Tid, time: int) | Release(t: Tid) | Timeout(t: Tid)

  /** Only running threads make calls, and only waiting ones time out. */
  predicate Enabled(q: seq<Tid>, e: Event) {
    if e.Timeout? then e.t in q else e.t !in q
  }

  function Step(s: State, e: Event): State {
    match e
    case Take(t, time) => Taken(s, t, time)
    case Release(t) => Released(s, t)
    case Timeout(t) => s.(q := Left(s.q, t))
  }

  // ----- inheritance in every run -----

  /** The owner is at least as urgent as every waiter. */
  ghost predicate Urgent(s: State) {
    s.owner.Owned? ==> forall w :: w in s.q ==> Prio(s.prio, s.owner.t) <= Prio(s.prio, w)
  }

  ghost predicate Inv(s: State, base: Priorities) {
    && NoDup(s.q) && s.hold < 256
    && s.value == (if s.owner.Nobody? then 1 else 0)
    && (s.owner.Nobody? ==> s.q == [] && s.hold == 0)
    && (s.owner.Owned? ==> s.owner.t !in s.q && s.orig == Prio(base, s.owner.t) && Prio(s.prio, s.owner.t) <= s.orig)
    && (forall t :: s.owner != Owned(t) ==> Prio(s.prio, t) == Prio(base, t))
    && (s.flag.PRIO? ==> Sorted(s.q, base) && Urgent(s))
  }

  lemma {:induction false} PlaceSame(q: seq<Tid>, t: Tid, flag: Flag, p1: Priorities, p2: Priorities)
    requires Prio(p1, t) == Prio(p2, t) && forall x :: x in q ==> Prio(p1, x) == Prio(p2, x)
    ensures Place(q, t, flag, p1) == Place(q, t, flag, p2)
    decreases |q|
  {
    if q != [] {
      assert forall x :: x in q[1..] ==> x in q;
      PlaceSame(q[1..], t, flag, p1, p2);
    }
  }

  /** A thread that blocks joins the queue where its base priority puts it. */
  lemma TakenQueue(s: State, base: Priorities, t: Tid, time: int)
    requires Inv(s, base) && s.owner.Owned? && s.owner.t != t && time != 0
    ensures Taken(s, t, time).q == Joined(s.q, t, s.flag, base)
  {
    PlaceSame(s.q, t, s.flag, Taken(s, t, time).prio, base);
  }

  lemma TakenInv(s: State, base: Priorities, t: Tid, time: int)
    requires Inv(s, base) && t !in s.q
    ensures Inv(Taken(s, t, time), base)
  {
    if s.owner.Owned? && s.owner.t != t && time != 0 {
      TakenQueue(s, base, t, time);
      JoinedIn(s.q, t, s.flag, base);
      if s.flag.PRIO? { JoinedSorted(s.q, t, base); }
    }
  }

  lemma ReleasedInv(s: State, base: Priorities, t: Tid)
    requires Inv(s, base)
    ensures Inv(Released(s, t), base)
  {
    hide NoDup, Sorted;
    if s.owner == Owned(t) && Down(s.hold) == 0 {
      var r := Released(s, t);
      assert forall x :: Prio(r.prio, x) == Prio(base, x);
      if s.q != [] {
        HeadLeaves(s.q, base);
        assert r.q == s.q[1..];
      } else {
        assert r.q == [] && NoDup(r.q) == NoDup(s.q);
      }
    }
  }

  lemma StepInv(s: State, base: Priorities, e: Event)
    requires Inv(s, base) && Enabled(s.q, e)
    ensures Inv(Step(s, e), base)
  {
    match e
    case Take(t, time) => TakenInv(s, base, t, time);
    case Release(t) => ReleasedInv(s, base, t);
    case Timeout(t) =>
      LeftIn(s.q, t);
      if s.flag.PRIO? { LeftSorted(s.q, t, base); }
  }

  ghost predicate Reaches(s: State, es: seq<Event>, r: State)
    decreases es
  {
    if es == [] then r == s else Enabled(s.q, es[0]) && Reaches(Step(s, es[0]), es[1..], r)
  }

  /** Whatever takes, recursive takes, releases, timeouts and handovers happen:
      threads that do not own the mutex run at their own priority, so a boost is
      undone when ownership ends, and with the PRIO flag the owner is at least as
      urgent as every waiter. */
  lemma {:induction false} RunsInherit(s: State, base: Priorities, es: seq<Event>, r: State)
    requires Inv(s, base) && Reaches(s, es, r)
    ensures Inv(r, base)
    ensures forall t :: r.owner != Owned(t) ==> Prio(r.prio, t) == Prio(base, t)
    ensures s.flag.PRIO? ==> Urgent(r)
    decreases es
  {
    if es != [] {
      StepInv(s, base, es[0]);
      RunsInherit(Step(s, es[0]), base, es[1..], r);
    }
  }

  lemma InitInv(flag: Flag, base: Priorities)
    ensures Inv(Init(flag, base), base)
  {
  }

  /** Without the PRIO flag a handover does not boost: the new owner covers the
      other waiters exactly when the head of the queue happens to be as urgent
      as each of them. */
  lemma HandoverUrgent(s: State, base: Priorities, t: Tid)
    requires Inv(s, base) && s.owner == Owned(t) && s.hold == 1 && s.q != []
    ensures Urgent(Released(s, t)) <==> forall w :: w in s.q ==> Prio(base, s.q[0]) <= Prio(base, w)
  {
    var r := Released(s, t);
    assert s.q == [s.q[0]] + s.q[1..] && r.q == s.q[1..];
    assert forall w :: w in s.q <==> w == s.q[0] || w in r.q;
    assert forall w :: w in s.q ==> Prio(r.prio, w) == Prio(base, w);
  }

  /** From a fresh FIFO mutex: a takes it, b and then the more urgent c wait, and
      a releases. */
  lemma FifoCanInvert(base: Priorities, a: Tid, b: Tid, c: Tid) returns (r: State)
    requires a != b && a != c && b != c && Prio(base, c) < Prio(base, b)
    ensures Reaches(Init(FIFO, base), [Take(a, -1), Take(b, -1), Take(c, -1), Release(a)], r)
    ensures r.owner == Owned(b) && r.q == [c] && !Urgent(r)
  {
    var es := [Take(a, -1), Take(b, -1), Take(c, -1), Release(a)];
    var s1 := Taken(Init(FIFO, base), a, -1);
    var s2 := Taken(s1, b, -1);
    assert s2.q == [b];
    var s3 := Taken(s2, c, -1);
    assert s3.q == [b, c];
    r := Released(s3, a);
    InitInv(FIFO, base);
    TakenInv(Init(FIFO, base), base, a, -1);
    TakenInv(s1, base, b, -1);
    TakenInv(s2, base, c, -1);
    ReleasedInv(s3, base, a);
    assert es[1..][1..][1..][1..] == [] && es[1..][1..][1..] == [Release(a)];
    assert es[1..][1..] == [Take(c, -1), Release(a)] && es[1..] == [Take(b, -1), Take(c, -1), Release(a)];
    assert Reaches(r, [], r);
    assert Reaches(s3, [Release(a)], r);
    assert Reaches(s2, [Take(c, -1), Release(a)], r);
    assert Reaches(s1, [Take(b, -1), Take(c, -1), Release(a)], r);
    assert c in r.q;
  }

  // ----- against a ledger with unbounded nesting -----

  /** Reference: who owns, how often, who waits, and who has blocked since the
      owner got the mutex. It knows base priorities only. */
  datatype Ledger = Ledger(owner: Owner, depth: nat, q: seq<Tid>, blockers: seq<Tid>)

  function LedgerStep(l: Ledger, flag: Flag, base: Priorities, e: Event): Ledger {
    match e
    case Take(t, time) =>
      if l.owner == Owned(t) then l.(depth := l.depth + 1)
      else if l.owner.Nobody? then Ledger(Owned(t), 1, l.q, [])
      else if time == 0 then l
      else l.(q := Joined(l.q, t, flag, base), blockers := l.blockers + [t])
    case Release(t) =>
      if l.owner != Owned(t) || l.depth == 0 then l
      else if l.depth > 1 then l.(depth := l.depth - 1)
      else if l.q == [] then Ledger(Nobody, 0, [], [])
      else Ledger(Owned(l.q[0]), 1, l.q[1..], [])
    case Timeout(t) => l.(q := Left(l.q, t))
  }

  /** Most urgent priority among o and everyone who blocked on it. */
  function Boost(base: Priorities, o: Tid, blockers: seq<Tid>): nat {
    if blockers == [] then Prio(base, o)
    else Min(Boost(base, o, blockers[..|blockers| - 1]), Prio(base, blockers[|blockers| - 1]))
  }

  ghost predicate Agrees(s: State, l: Ledger, base: Priorities) {
    && s.owner == l.owner && s.q == l.q && s.hold == l.depth % 256
    && (l.owner.Nobody? <==> l.depth == 0)
    && (l.owner.Owned? ==> Prio(s.prio, l.owner.t) == Boost(base, l.owner.t, l.blockers))
  }

  /** The release of an inner hold at which the 8-bit counter reads one. */
  predicate Wraps(l: Ledger, e: Event) {
    e.Release? && l.owner == Owned(e.t) && l.depth > 1 && l.depth % 256 == 1
  }

  lemma TakeAgrees(s: State, l: Ledger, base: Priorities, t: Tid, time: int)
    requires Inv(s, base) && Agrees(s, l, base) && t !in s.q
    ensures Agrees(Taken(s, t, time), LedgerStep(l, s.flag, base, Take(t, time)), base)
  {
    if s.owner.Owned? && s.owner.t != t && time != 0 {
      TakenQueue(s, base, t, time);
      assert (l.blockers + [t])[..|l.blockers|] == l.blockers;
    }
  }

  lemma ReleaseAgrees(s: State, l: Ledger, base: Priorities, t: Tid)
    requires Inv(s, base) && Agrees(s, l, base)
    ensures Agrees(Released(s, t), LedgerStep(l, s.flag, base, Release(t)), base) <==> !Wraps(l, Release(t))
  {
    if s.owner == Owned(t) {
      assert Down(s.hold) == (l.depth - 1) % 256;
      assert l.depth % 256 == 1 <==> (l.depth - 1) % 256 == 0;
    }
  }

  /** Each step does what the ledger does, unless it is a release of an inner
      hold at depth 257, 513 and so on, which gives the mutex away too early. */
  lemma StepAgrees(s: State, l: Ledger, base: Priorities, e: Event)
    requires Inv(s, base) && Agrees(s, l, base) && Enabled(s.q, e)
    ensures Agrees(Step(s, e), LedgerStep(l, s.flag, base, e), base) <==> !Wraps(l, e)
  {
    match e
    case Take(t, time) => TakeAgrees(s, l, base, t, time);
    case Release(t) => ReleaseAgrees(s, l, base, t);
    case Timeout(t) =>
  }

  ghost predicate NeverWraps(l: Ledger, flag: Flag, base: Priorities, es: seq<Event>)
    decreases es
  {
    es == [] || (!Wraps(l, es[0]) && NeverWraps(LedgerStep(l, flag, base, es[0]), flag, base, es[1..]))
  }

  function LedgerRun(l: Ledger, flag: Flag, base: Priorities, es: seq<Event>): Ledger
    decreases es
  {
    if es == [] then l else LedgerRun(LedgerStep(l, flag, base, es[0]), flag, base, es[1..])
  }

  /** Mutex and ledger agree after every step of a run. */
  ghost predicate AgreesAlong(s: State, l: Ledger, base: Priorities, es: seq<Event>)
    decreases es
  {
    && Agrees(s, l, base)
    && (es == [] || AgreesAlong(Step(s, es[0]), LedgerStep(l, s.flag, base, es[0]), base, es[1..]))
  }

  /** Over whole runs the mutex is owned, queued for and released as in the
      ledger, and the owner runs at the most urgent priority among its own and
      those of all threads that blocked on it, exactly when no release wraps. */
  lemma {:induction false} RunsAgree(s: State, l: Ledger, base: Priorities, es: seq<Event>, r: State)
    requires Inv(s, base) && Agrees(s, l, base) && Reaches(s, es, r)
    ensures NeverWraps(l, s.flag, base, es) <==> AgreesAlong(s, l, base, es)
    ensures NeverWraps(l, s.flag, base, es) ==> Agrees(r, LedgerRun(l, s.flag, base, es), base)
    decreases es
  {
    hide Inv, Agrees, Wraps;
    if es != [] {
      StepAgrees(s, l, base, es[0]);
      StepInv(s, base, es[0]);
      FlagStays(s, es[0]);
      if !Wraps(l, es[0]) {
        RunsAgree(Step(s, es[0]), LedgerStep(l, s.flag, base, es[0]), base, es[1..], r);
      }
    }
  }

  lemma FlagStays(s: State, e: Event)
    ensures Step(s, e).flag == s.flag
  {
  }

  /** n takes by one thread and a release. */
  function TakesAndRelease(t: Tid, n: nat): seq<Event> {
    if n == 0 then [Release(t)] else [Take(t, 0)] + TakesAndRelease(t, n - 1)
  }

  lemma {:induction false} WrapRun(s: State, l: Ledger, base: Priorities, t: Tid, n: nat) returns (r: State)
    requires s.owner == Owned(t) && s.q == [] && s.value == 0 && s.hold < 256 && (s.hold + n) % 256 == 1
    requires l.owner == Owned(t) && l.q == [] && l.depth + n > 1
    ensures Reaches(s, TakesAndRelease(t, n), r) && r.owner == Nobody && r.value == 1
    ensures var l1 := LedgerRun(l, s.flag, base, TakesAndRelease(t, n)); l1.owner == Owned(t) && l1.depth == l.depth + n - 1
    decreases n
  {
    if n == 0 {
      r := Released(s, t);
      assert [Release(t)][1..] == [];
      assert Reaches(r, [], r);
    } else {
      var es := TakesAndRelease(t, n);
      assert es[1..] == TakesAndRelease(t, n - 1);
      r := WrapRun(Taken(s, t, 0), LedgerStep(l, s.flag, base, Take(t, 0)), base, t, n - 1);
    }
  }

  /** From a fresh mutex: after 256 k + 1 takes a single release frees the mutex,
      although the thread still holds it 256 k times. */
  lemma FreedTooEarly(flag: Flag, base: Priorities, t: Tid, k: nat) returns (r: State)
    requires k > 0
    ensures var es := TakesAndRelease(t, 256 * k + 1);
      && Reaches(Init(flag, base), es, r) && r.owner == Nobody
      && LedgerRun(Ledger(Nobody, 0, [], []), flag, base, es).owner == Owned(t)
      && LedgerRun(Ledger(Nobody, 0, [], []), flag, base, es).depth == 256 * k
  {
    var s, l := Init(flag, base), Ledger(Nobody, 0, [], []);
    var es := TakesAndRelease(t, 256 * k + 1);
    assert es[1..] == TakesAndRelease(t, 256 * k);
    r := WrapRun(Taken(s, t, 0), LedgerStep(l, flag, base, Take(t, 0)), base, t, 256 * k);
  }

  // ----- the object -----

  class MutexObject {
    var value: nat
    var owner: Owner
    var orig: nat
    var hold: nat
    const flag: Flag
    var q: seq<Tid>
    var prio: Priorities

    ghost function Now(): State
      reads this
    {
      State(value, owner, orig, hold, flag, q, prio)
    }

    constructor (flag: Flag, base: Priorities)
      ensures Now() == Init(flag, base) && Inv(Now(), base)
    {
      this.flag, prio := flag, base;
      value, owner, orig, hold, q := 1, Nobody, 0xFF, 0, [];
    }

    /** rt_thread_control with RT_THREAD_CTRL_CHANGE_PRIORITY. */
    method ChangePriority(t: Tid, p: nat)
      modifies this`prio
      ensures prio == old(prio)[t := p]
    {
      prio := prio[t := p];
    }

    /** False when the call fails at once or blocks. */
    method TakeMutex(t: Tid, time: int, ghost base: Priorities) returns (got: bool)
      requires Inv(Now(), base) && t !in q
      modifies this
      ensures Now() == Taken(old(Now()), t, time) && Inv(Now(), base)
      ensures got <==> owner == Owned(t)
    {
      TakenInv(Now(), base, t, time);
      got := true;
      if owner == Owned(t) {
        hold := Up(hold);
      } else if value > 0 {
        value, owner, orig, hold := value - 1, Owned(t), Prio(prio, t), Up(hold);
      } else {
        got := false;
        if time == 0 { return; }
        if Prio(prio, t) < Prio(prio, owner.t) {
          ChangePriority(owner.t, Prio(prio, t));
        }
        q := Suspend(q, t, flag, prio);
      }
    }

    method ReleaseMutex(t: Tid, ghost base: Priorities) returns (ok: bool)
      requires Inv(Now(), base)
      modifies this
      ensures Now() == Released(old(Now()), t) && Inv(Now(), base)
      ensures ok <==> old(owner) == Owned(t)
      ensures owner != Owned(t) ==> Prio(prio, t) == Prio(base, t)
    {
      ReleasedInv(Now(), base, t);
      ok := owner == Owned(t);
      if !ok { return; }
      hold := Down(hold);
      if hold == 0 {
        if orig != Prio(prio, t) { ChangePriority(t, orig); }
        if q != [] {
          owner, orig, hold := Owned(q[0]), Prio(prio, q[0]), Up(hold);
          q := q[1..];
        } else {
          value, owner, orig := (value + 1) % 65536, Nobody, 0xFF;
        }
      }
    }
  }
}
