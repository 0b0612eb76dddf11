/** Hard timers over the skip list: start, stop, control, and the check made on
    every tick. Time is unbounded here; class TimerList works on 32-bit ticks. */
module Timer {
  import opened Words
  import opened IpcQueue
  import opened SkipList

  datatype Rec = Rec(init: nat, periodic: bool, active: bool)

  /** A call of a timeout function at tick `at`, for a timer linked at `since`
      with deadline `dead`. */
  datatype Fire = Fire(t: Tid, at: nat, since: nat, dead: nat)

  datatype State = State(rows: seq<seq<Tid>>, recs: map<Tid, Rec>, dead: Priorities, since: Priorities,
                         now: nat, rnd: nat, log: seq<Fire>)

  /** The tick at which a timer is due: its deadline, or the next tick when the
      deadline had come before it was linked. */
  function Expiry(since: nat, dead: nat): nat {
    if dead <= since then since + 1 else dead
  }

  function SetActive(s: State, t: Tid, active: bool): State
    requires t in s.recs
  {
    s.(recs := s.recs[t := s.recs[t].(active := active)])
  }

  /** rt_timer_start in one go, as it runs when called with interrupts disabled:
      the reference inserts by a stable linear scan of deadlines. */
  function Started(s: State, t: Tid): State
    requires t in s.recs && |s.rows| > 0
  {
    var dead := s.dead[t := s.now + s.recs[t].init];
    var rnd := (s.rnd + 1) % TICKS;
    SetActive(s, t, true).(rows := Linked(Unlinked(s.rows, t), t, Height(rnd, |s.rows|), dead),
      dead := dead, since := s.since[t := s.now], rnd := rnd)
  }

  /** Its first region with interrupts disabled. */
  function Removed(s: State, t: Tid): State
    requires t in s.recs
  {
    SetActive(s, t, false).(rows := Unlinked(s.rows, t))
  }

  /** Then, with interrupts enabled, the deadline is computed. */
  function Aimed(s: State, t: Tid): State
    requires t in s.recs
  {
    s.(dead := s.dead[t := s.now + s.recs[t].init])
  }

  /** Its second region: the timer is linked by the deadline it has. This is the
      reference; InsertedByTicks is what the 32-bit search makes of it. */
  function Inserted(s: State, t: Tid): State
    requires t in s.recs && |s.rows| > 0
  {
    var rnd := (s.rnd + 1) % TICKS;
    SetActive(s, t, true).(rows := Linked(s.rows, t, Height(rnd, |s.rows|), s.dead), since := s.since[t := s.now], rnd := rnd)
  }

  /** rt_timer_stop. */
  function Stopped(s: State, t: Tid): State
    requires t in s.recs
  {
    if !s.recs[t].active then s else SetActive(s, t, false).(rows := Unlinked(s.rows, t))
  }

  function Controlled(s: State, t: Tid, init: nat, periodic: bool): State
    requires t in s.recs
  {
    s.(recs := s.recs[t := s.recs[t].(init := init, periodic := periodic)])
  }

  /** The guard of the loop in rt_timer_check. */
  predicate Due(s: State)
    requires |s.rows| > 0
  {
    Bottom(s.rows) != [] && Prio(s.dead, Bottom(s.rows)[0]) <= s.now
  }

  /** The body of that loop up to the call of the timeout function. */
  function Called(s: State): State
    requires |s.rows| > 0 && Bottom(s.rows) != [] && Bottom(s.rows)[0] in s.recs
  {
    var t := Bottom(s.rows)[0];
    SetActive(s, t, false).(rows := Unlinked(s.rows, t),
      log := s.log + [Fire(t, s.now, Prio(s.since, t), Prio(s.dead, t))])
  }

  /** The whole body. */
  function Fired(s: State): State
    requires |s.rows| > 0 && Bottom(s.rows) != [] && Bottom(s.rows)[0] in s.recs
  {
    var t := Bottom(s.rows)[0];
    if s.recs[t].periodic then Started(Called(s), t) else Called(s)
  }

  // ----- structure -----

  /** Rows in order; exactly the active timers are linked. */
  ghost predicate Base(s: State) {
    && Rows(s.rows, s.dead) && s.rnd < TICKS
    && (forall x :: x in Bottom(s.rows) <==> x in s.recs && s.recs[x].active)
    && (forall x :: x in s.recs ==> s.recs[x].init < HALF && Prio(s.dead, x) < s.now + HALF)
  }

  lemma BaseLevels(s: State)
    requires Base(s)
    ensures |s.rows| > 0
  {
  }

  lemma RowsLevels(rows: seq<seq<Tid>>, dead: Priorities)
    requires Rows(rows, dead)
    ensures |rows| > 0
  {
  }

  lemma UnlinkedBase(s: State, t: Tid)
    requires Base(s) && t in s.recs
    ensures Base(Removed(s, t))
  {
    UnlinkedRows(s.rows, t, s.dead);
    hide Rows;
  }

  lemma AimedBase(s: State, t: Tid)
    requires Base(s) && t in s.recs && !s.recs[t].active
    ensures Base(Aimed(s, t))
  {
    hide Rows, Bottom;
    RowsLevels(s.rows, s.dead);
    RowsFrame(s.rows, s.dead, t, s.now + s.recs[t].init);
  }

  lemma InsertedBase(s: State, t: Tid)
    requires Base(s) && t in s.recs && !s.recs[t].active
    ensures |s.rows| > 0 && Base(Inserted(s, t))
    ensures Bottom(Inserted(s, t).rows) == Joined(Bottom(s.rows), t, PRIO, s.dead)
    ensures forall x :: x in Bottom(Inserted(s, t).rows) <==> x == t || x in Bottom(s.rows)
  {
    hide Rows, Joined, Linked, Bottom;
    RowsLevels(s.rows, s.dead);
    LinkedRows(s.rows, t, Height((s.rnd + 1) % TICKS, |s.rows|), s.dead);
    JoinedIn(Bottom(s.rows), t, PRIO, s.dead);
  }

  /** The parts of rt_timer_start with nothing in between are the whole. */
  lemma StartedParts(s: State, t: Tid)
    requires t in s.recs && |s.rows| > 0
    ensures Inserted(Aimed(Removed(s, t), t), t) == Started(s, t)
  {
    hide Linked, Unlinked;
    assert s.recs[t := s.recs[t].(active := false)][t := s.recs[t].(active := true)] == s.recs[t := s.recs[t].(active := true)];
  }

  lemma StartedBase(s: State, t: Tid)
    requires Base(s) && t in s.recs
    ensures Base(Started(s, t))
    ensures Bottom(Started(s, t).rows) == Joined(Left(Bottom(s.rows), t), t, PRIO, Started(s, t).dead)
    ensures forall x :: x in Bottom(Started(s, t).rows) <==> x == t || x in Bottom(s.rows)
  {
    hide Rows, Base, Joined, Left, Linked, Unlinked, Bottom, Started, Inserted;
    BaseLevels(s);
    StartedParts(s, t);
    UnlinkedBase(s, t);
    AimedBase(Removed(s, t), t);
    InsertedBase(Aimed(Removed(s, t), t), t);
    RemovedBottom(s, t);
    StartedDead(s, t);
  }

  lemma RemovedBottom(s: State, t: Tid)
    requires Base(s) && t in s.recs
    ensures |s.rows| > 0 && |Unlinked(s.rows, t)| > 0 && Bottom(Unlinked(s.rows, t)) == Left(Bottom(s.rows), t)
    ensures forall x :: x in Bottom(Unlinked(s.rows, t)) <==> x in Bottom(s.rows) && x != t
  {
    UnlinkedRows(s.rows, t, s.dead);
  }

  lemma StartedDead(s: State, t: Tid)
    requires t in s.recs && |s.rows| > 0
    ensures Started(s, t).dead == Aimed(Removed(s, t), t).dead
  {
  }

  lemma RemovedHead(s: State)
    requires Base(s) && Due(s)
    ensures var q := Bottom(s.rows); var t := q[0];
      && t in s.recs && Base(Called(s)) && |Called(s).rows| > 0
      && Bottom(Called(s).rows) == q[1..] && t !in q[1..] && Left(q[1..], t) == q[1..]
      && forall x :: x in q[1..] <==> x in q && x != t
  {
    var q := Bottom(s.rows);
    var t := q[0];
    assert t in q;
    HeadSorted(q, s.dead);
    UnlinkedRows(s.rows, t, s.dead);
    UnlinkedBase(s, t);
    LeftAbsent(q[1..], t);
    hide Rows, Unlinked;
    LogFree(Removed(s, t), Called(s).log);
  }

  lemma LogFree(s: State, log: seq<Fire>)
    requires Base(s)
    ensures Base(s.(log := log))
  {
    hide Rows;
  }

  lemma FiredBase(s: State)
    requires Base(s) && Due(s)
    ensures Bottom(s.rows)[0] in s.recs && Base(Fired(s))
    ensures var t := Bottom(s.rows)[0];
      forall x :: x in Bottom(Fired(s).rows) <==> (x in Bottom(s.rows) && (x != t || s.recs[t].periodic))
  {
    hide Rows, Base, Linked, Unlinked, Bottom, Joined, Left;
    RemovedHead(s);
    var t := Bottom(s.rows)[0];
    if s.recs[t].periodic { StartedBase(Called(s), t); }
  }

  // ----- termination of the check -----

  /** A due timer that re-arms itself with no delay. */
  ghost predicate ZeroPeriod(s: State)
    requires |s.rows| > 0
  {
    exists x :: x in Bottom(s.rows) && x in s.recs && Prio(s.dead, x) <= s.now && s.recs[x].periodic && s.recs[x].init == 0
  }

  function DueCount(q: seq<Tid>, dead: Priorities, now: nat): nat
    decreases q
  {
    if q == [] then 0 else (if Prio(dead, q[0]) <= now then 1 else 0) + DueCount(q[1..], dead, now)
  }

  lemma FiredQueue(s: State)
    requires Base(s) && Due(s)
    ensures Bottom(s.rows)[0] in s.recs
    ensures var t := Bottom(s.rows)[0];
      && (!s.recs[t].periodic ==> Bottom(Fired(s).rows) == Bottom(s.rows)[1..] && Fired(s).dead == s.dead)
      && (s.recs[t].periodic ==> Fired(s).dead == s.dead[t := s.now + s.recs[t].init])
      && (s.recs[t].periodic ==> Bottom(Fired(s).rows) == Joined(Bottom(s.rows)[1..], t, PRIO, Fired(s).dead))
  {
    hide Rows, Base, Linked, Unlinked, Bottom, Joined, Left;
    RemovedHead(s);
    var t := Bottom(s.rows)[0];
    if s.recs[t].periodic { StartedBase(Called(s), t); }
  }

  lemma {:induction false} CountFrame(q: seq<Tid>, dead: Priorities, now: nat, t: Tid, d: nat)
    requires t !in q
    ensures DueCount(q, dead[t := d], now) == DueCount(q, dead, now)
    decreases q
  {
    if q != [] { CountFrame(q[1..], dead, now, t, d); }
  }

  lemma {:induction false} CountJoined(q: seq<Tid>, dead: Priorities, now: nat, t: Tid)
    requires Prio(dead, t) > now
    ensures DueCount(Joined(q, t, PRIO, dead), dead, now) == DueCount(q, dead, now)
    decreases q
  {
    JoinedStep(q, t, dead);
    if q == [] {
      assert [t][1..] == [];
    } else if Prio(dead, t) < Prio(dead, q[0]) {
      assert ([t] + q)[1..] == q;
    } else {
      CountJoined(q[1..], dead, now, t);
      assert ([q[0]] + Joined(q[1..], t, PRIO, dead))[1..] == Joined(q[1..], t, PRIO, dead);
    }
  }

  /** What a turn leaves alone. */
  lemma FiredKeeps(s: State)
    requires Base(s) && Due(s)
    ensures var t := Bottom(s.rows)[0];
      && t in s.recs
      && Fired(s).now == s.now && |Fired(s).rows| == |s.rows|
      && Fired(s).log == s.log + [Fire(t, s.now, Prio(s.since, t), Prio(s.dead, t))]
      && (forall x :: x in Fired(s).recs <==> x in s.recs)
      && (forall x :: x in s.recs ==> Fired(s).recs[x].init == s.recs[x].init && Fired(s).recs[x].periodic == s.recs[x].periodic)
      && (forall x :: x != t ==> Prio(Fired(s).dead, x) == Prio(s.dead, x) && Prio(Fired(s).since, x) == Prio(s.since, x))
  {
    assert Bottom(s.rows)[0] in Bottom(s.rows);
    hide Rows, Linked, Unlinked;
  }

  lemma BaseHead(s: State)
    requires Base(s) && Due(s)
    ensures var q := Bottom(s.rows);
      && q[0] in s.recs && q[0] !in q[1..]
      && (!ZeroPeriod(s) && s.recs[q[0]].periodic ==> s.recs[q[0]].init > 0)
  {
    var q := Bottom(s.rows);
    assert q[0] in q;
    HeadSorted(q, s.dead);
  }

  /** How one turn changes the list and the deadlines. */
  ghost predicate Turned(q: seq<Tid>, dead: Priorities, now: nat, rec: Rec, q1: seq<Tid>, dead1: Priorities) {
    && q != [] && q[0] !in q[1..] && Prio(dead, q[0]) <= now && (rec.periodic ==> rec.init > 0)
    && (!rec.periodic ==> q1 == q[1..] && dead1 == dead)
    && (rec.periodic ==> dead1 == dead[q[0] := now + rec.init] && q1 == Joined(q[1..], q[0], PRIO, dead1))
  }

  lemma FiredTurned(s: State)
    requires Base(s) && Due(s) && !ZeroPeriod(s)
    ensures var q := Bottom(s.rows);
      q[0] in s.recs && Turned(q, s.dead, s.now, s.recs[q[0]], Bottom(Fired(s).rows), Fired(s).dead)
  {
    hide Rows, Base, Joined, Fired, ZeroPeriod;
    BaseLevels(s);
    BaseHead(s);
    FiredQueue(s);
  }

  lemma CountTurned(q: seq<Tid>, dead: Priorities, now: nat, rec: Rec, q1: seq<Tid>, dead1: Priorities)
    requires Turned(q, dead, now, rec, q1, dead1)
    ensures DueCount(q1, dead1, now) == DueCount(q, dead, now) - 1
  {
    hide Joined;
    var t := q[0];
    CountFrame(q[1..], dead, now, t, now + rec.init);
    if rec.periodic { CountJoined(q[1..], dead1, now, t); }
  }

  lemma FiredNoZero(s: State)
    requires Base(s) && Due(s) && !ZeroPeriod(s)
    ensures Bottom(s.rows)[0] in s.recs && |Fired(s).rows| > 0 && !ZeroPeriod(Fired(s))
  {
    hide Rows, Base, Joined, Fired;
    BaseLevels(s);
    FiredBase(s);
    FiredKeeps(s);
    FiredTurned(s);
  }

  /** Without a zero period, each turn of the loop leaves one due timer less. */
  lemma FiredFewer(s: State)
    requires Base(s) && Due(s) && !ZeroPeriod(s)
    ensures Bottom(s.rows)[0] in s.recs && Base(Fired(s)) && !ZeroPeriod(Fired(s))
    ensures DueCount(Bottom(Fired(s).rows), Fired(s).dead, s.now) == DueCount(Bottom(s.rows), s.dead, s.now) - 1
  {
    hide Rows, Base, Fired, ZeroPeriod, Turned;
    BaseLevels(s);
    FiredBase(s);
    FiredNoZero(s);
    FiredTurned(s);
    var q := Bottom(s.rows);
    CountTurned(q, s.dead, s.now, s.recs[q[0]], Bottom(Fired(s).rows), Fired(s).dead);
  }

  /** With one, the loop never ends: after every turn a timer is due again. */
  lemma ZeroForever(s: State)
    requires Base(s) && ZeroPeriod(s)
    ensures Due(s) && Bottom(s.rows)[0] in s.recs && Base(Fired(s)) && ZeroPeriod(Fired(s))
  {
    var x :| x in Bottom(s.rows) && x in s.recs && Prio(s.dead, x) <= s.now && s.recs[x].periodic && s.recs[x].init == 0;
    HeadSorted(Bottom(s.rows), s.dead);
    FiredBase(s);
    FiredQueue(s);
    hide Rows, Base;
    var r := Fired(s);
    assert x in Bottom(r.rows) && x in r.recs && Prio(r.dead, x) <= r.now && r.recs[x].periodic && r.recs[x].init == 0;
  }

  /** State after n turns of the loop body, or fewer if the guard fails. */
  ghost function Turns(s: State, n: nat): State
    requires Base(s)
    ensures Base(Turns(s, n))
    decreases n
  {
    if n == 0 || !Due(s) then s else FiredBase(s); Turns(Fired(s), n - 1)
  }

  /** rt_timer_check comes to an end exactly when no due timer is periodic with
      period zero. */
  lemma {:induction false} CheckEnds(s: State, n: nat)
    requires Base(s)
    ensures ZeroPeriod(s) ==> Due(Turns(s, n))
    ensures !ZeroPeriod(s) && n >= DueCount(Bottom(s.rows), s.dead, s.now) ==> !Due(Turns(s, n))
    decreases n
  {
    hide Rows, Fired, Base, ZeroPeriod, Prio;
    BaseLevels(s);
    if ZeroPeriod(s) {
      ZeroForever(s);
      if n > 0 { CheckEnds(Fired(s), n - 1); }
    } else if Due(s) {
      FiredFewer(s);
      FiredKeeps(s);
      if n > 0 { CheckEnds(Fired(s), n - 1); }
    }
  }

  // ----- what the check does -----

  /** The timers at the front of the list that are due. */
  function DuePrefix(q: seq<Tid>, dead: Priorities, now: nat): seq<Tid>
    decreases q
  {
    if q == [] || Prio(dead, q[0]) > now then [] else [q[0]] + DuePrefix(q[1..], dead, now)
  }

  function Fires(q: seq<Tid>, now: nat, since: Priorities, dead: Priorities): seq<Fire>
    decreases q
  {
    if q == [] then [] else [Fire(q[0], now, Prio(since, q[0]), Prio(dead, q[0]))] + Fires(q[1..], now, since, dead)
  }

  /** What a check at `now` has to fire from list q. */
  function DueFires(q: seq<Tid>, now: nat, since: Priorities, dead: Priorities): seq<Fire> {
    Fires(DuePrefix(q, dead, now), now, since, dead)
  }

  /** In the sorted list the front run is all that is due. */
  lemma {:induction false} PrefixIsAll(q: seq<Tid>, dead: Priorities, now: nat)
    requires Sorted(q, dead)
    ensures forall x :: x in DuePrefix(q, dead, now) <==> x in q && Prio(dead, x) <= now
    ensures DuePrefix(q, dead, now) <= q
    decreases q
  {
    if q != [] {
      assert forall x :: x in q ==> Prio(dead, q[0]) <= Prio(dead, x);
      if Prio(dead, q[0]) <= now {
        PrefixIsAll(q[1..], dead, now);
        assert forall x :: x in q <==> x == q[0] || x in q[1..];
      }
    }
  }

  /** Deadlines of other timers do not matter. */
  lemma {:induction false} PrefixFrame(q: seq<Tid>, now: nat, since: Priorities, dead: Priorities,
                                       since1: Priorities, dead1: Priorities, t: Tid)
    requires t !in q
    requires forall x :: x != t ==> Prio(dead1, x) == Prio(dead, x) && Prio(since1, x) == Prio(since, x)
    ensures DuePrefix(q, dead1, now) == DuePrefix(q, dead, now)
    ensures DueFires(q, now, since1, dead1) == DueFires(q, now, since, dead)
    decreases q
  {
    if q != [] {
      PrefixFrame(q[1..], now, since, dead, since1, dead1, t);
      var d := DuePrefix(q[1..], dead, now);
      assert ([q[0]] + d)[1..] == d;
    }
  }

  lemma {:induction false} PrefixJoined(q: seq<Tid>, dead: Priorities, now: nat, t: Tid)
    requires Prio(dead, t) > now
    ensures DuePrefix(Joined(q, t, PRIO, dead), dead, now) == DuePrefix(q, dead, now)
    decreases q
  {
    JoinedStep(q, t, dead);
    if q == [] {
    } else if Prio(dead, t) < Prio(dead, q[0]) {
      assert ([t] + q)[0] == t;
    } else {
      PrefixJoined(q[1..], dead, now, t);
      assert ([q[0]] + Joined(q[1..], t, PRIO, dead))[1..] == Joined(q[1..], t, PRIO, dead);
    }
  }

  /** One turn fires the front timer and leaves the rest of the front run. */
  lemma FiresTurned(q: seq<Tid>, now: nat, since: Priorities, dead: Priorities, rec: Rec,
                    q1: seq<Tid>, since1: Priorities, dead1: Priorities)
    requires Turned(q, dead, now, rec, q1, dead1)
    requires forall x :: x != q[0] ==> Prio(dead1, x) == Prio(dead, x) && Prio(since1, x) == Prio(since, x)
    ensures [Fire(q[0], now, Prio(since, q[0]), Prio(dead, q[0]))] + DueFires(q1, now, since1, dead1)
      == DueFires(q, now, since, dead)
  {
    var t := q[0];
    PrefixFrame(q[1..], now, since, dead, since1, dead1, t);
    if rec.periodic { PrefixJoined(q[1..], dead1, now, t); }
    var d := DuePrefix(q[1..], dead, now);
    assert ([t] + d)[1..] == d;
  }

  ghost function Checked(s: State): State
    requires Base(s) && !ZeroPeriod(s)
    decreases DueCount(Bottom(s.rows), s.dead, s.now)
  {
    if Due(s) then FiredFewer(s); Checked(Fired(s)) else s
  }

  /** rt_timer_check fires exactly the due timers, once each, in the order of the
      list: by deadline, and by insertion among equals. */
  lemma {:induction false} CheckFires(s: State)
    requires Base(s) && !ZeroPeriod(s)
    ensures Base(Checked(s)) && !Due(Checked(s)) && Checked(s).now == s.now
    ensures Checked(s).log == s.log + DueFires(Bottom(s.rows), s.now, s.since, s.dead)
    decreases DueCount(Bottom(s.rows), s.dead, s.now)
  {
    hide Rows, Base, ZeroPeriod, Fired, Turned, DueFires, Prio;
    BaseLevels(s);
    if Due(s) {
      FiredFewer(s);
      FiredTurned(s);
      FiredKeeps(s);
      var r, q := Fired(s), Bottom(s.rows);
      CheckFires(r);
      FiresTurned(q, s.now, s.since, s.dead, s.recs[q[0]], Bottom(r.rows), r.since, r.dead);
    } else {
      NothingDue(Bottom(s.rows), s.now, s.since, s.dead);
    }
  }

  lemma NothingDue(q: seq<Tid>, now: nat, since: Priorities, dead: Priorities)
    requires q == [] || Prio(dead, q[0]) > now
    ensures DueFires(q, now, since, dead) == []
  {
  }

  // ----- every run is on time -----

  /** An active timer between ticks: its expiry is still to come. */
  predicate Ahead(now: nat, since: nat, dead: nat) {
    since <= now && dead < since + HALF && since + 1 < dead + HALF && now < Expiry(since, dead)
  }

  /** The same inside the check, where it may be due now. */
  predicate Pending(now: nat, since: nat, dead: nat) {
    since <= now && dead < since + HALF && since + 1 < dead + HALF && now <= Expiry(since, dead) && (since == now ==> dead > now)
  }

  ghost predicate AllAhead(s: State)
    requires |s.rows| > 0
  {
    forall x :: x in Bottom(s.rows) ==> Ahead(s.now, Prio(s.since, x), Prio(s.dead, x))
  }

  ghost predicate AllPending(s: State)
    requires |s.rows| > 0
  {
    forall x :: x in Bottom(s.rows) ==> Pending(s.now, Prio(s.since, x), Prio(s.dead, x))
  }

  /** Every timer so far fired at its expiry, neither early nor late. */
  ghost predicate OnTime(log: seq<Fire>) {
    forall f :: f in log ==> f.at == Expiry(f.since, f.dead)
  }

  ghost predicate Inv(s: State) {
    Base(s) && AllAhead(s) && OnTime(s.log)
  }

  lemma FiredPending(s: State)
    requires Base(s) && AllPending(s) && OnTime(s.log) && Due(s) && !ZeroPeriod(s)
    ensures Bottom(s.rows)[0] in s.recs && |Fired(s).rows| > 0 && AllPending(Fired(s)) && OnTime(Fired(s).log)
  {
    hide Rows, Joined;
    BaseLevels(s);
    BaseHead(s);
    FiredBase(s);
    FiredKeeps(s);
    hide Base, ZeroPeriod;
    var t := Bottom(s.rows)[0];
    assert t in Bottom(s.rows) && Prio(s.dead, t) <= s.now;
  }

  lemma NoneDueAhead(s: State)
    requires Base(s) && AllPending(s) && !Due(s)
    ensures AllAhead(s)
  {
    var q := Bottom(s.rows);
    if q != [] { HeadSorted(q, s.dead); }
  }

  lemma {:induction false} CheckedInv(s: State)
    requires Base(s) && AllPending(s) && OnTime(s.log) && !ZeroPeriod(s)
    ensures Inv(Checked(s))
    decreases DueCount(Bottom(s.rows), s.dead, s.now)
  {
    hide Rows, Base, ZeroPeriod, Fired, Prio, AllPending, AllAhead, OnTime;
    BaseLevels(s);
    if Due(s) {
      FiredFewer(s);
      FiredKeeps(s);
      FiredPending(s);
      CheckedInv(Fired(s));
    } else {
      NoneDueAhead(s);
    }
  }

  function NextTick(s: State): State {
    s.(now := s.now + 1)
  }

  lemma TickPending(s: State)
    requires Inv(s)
    ensures Base(NextTick(s)) && AllPending(NextTick(s))
  {
    hide Rows;
  }

  lemma StartedInv(s: State, t: Tid)
    requires Inv(s) && t in s.recs
    ensures Inv(Started(s, t))
  {
    hide Rows, Joined, Left, Linked, Unlinked;
    BaseLevels(s);
    StartedBase(s, t);
  }

  lemma StoppedInv(s: State, t: Tid)
    requires Inv(s) && t in s.recs
    ensures Inv(Stopped(s, t)) && Inv(Removed(s, t))
  {
    UnlinkedRows(s.rows, t, s.dead);
    UnlinkedBase(s, t);
    hide Rows;
  }

  lemma AimedInv(s: State, t: Tid)
    requires Inv(s) && t in s.recs && !s.recs[t].active
    ensures Inv(Aimed(s, t))
  {
    hide Rows;
    AimedBase(s, t);
  }

  lemma InsertedInv(s: State, t: Tid)
    requires Inv(s) && t in s.recs && !s.recs[t].active && s.now + 1 < Prio(s.dead, t) + HALF
    ensures |s.rows| > 0 && Inv(Inserted(s, t))
  {
    hide Rows, Joined, Linked;
    InsertedBase(s, t);
  }

  // ----- the list on 32-bit ticks -----

  function InsertedByTicks(s: State, t: Tid): State
    requires t in s.recs && |s.rows| > 0
  {
    var rnd := (s.rnd + 1) % TICKS;
    SetActive(s, t, true).(rows := LinkedAt(s.rows, t, Height(rnd, |s.rows|), Heads(s.rows, t, s.dead)),
      since := s.since[t := s.now], rnd := rnd)
  }

  function StartedByTicks(s: State, t: Tid): State
    requires t in s.recs && |s.rows| > 0
  {
    InsertedByTicks(Aimed(Removed(s, t), t), t)
  }

  function FiredByTicks(s: State): State
    requires |s.rows| > 0 && Bottom(s.rows) != [] && Bottom(s.rows)[0] in s.recs
  {
    var t := Bottom(s.rows)[0];
    if s.recs[t].periodic then StartedByTicks(Called(s), t) else Called(s)
  }

  ghost predicate SeesInsert(s: State, t: Tid) {
    Sees(s.rows, t, s.dead)
  }

  ghost predicate SeesStart(s: State, t: Tid)
    requires t in s.recs
  {
    SeesInsert(Aimed(Removed(s, t), t), t)
  }

  /** Every re-arming of the check is seen. */
  ghost predicate CheckSees(s: State)
    requires Base(s) && !ZeroPeriod(s)
    decreases DueCount(Bottom(s.rows), s.dead, s.now)
  {
    if Due(s) then
      FiredFewer(s);
      (s.recs[Bottom(s.rows)[0]].periodic ==> SeesStart(Called(s), Bottom(s.rows)[0])) && CheckSees(Fired(s))
    else true
  }

  /** All deadlines are in the half ranges before and after now. */
  ghost predicate Within(s: State)
    requires |s.rows| > 0
  {
    forall x :: x in Bottom(s.rows) ==> s.now < Prio(s.dead, x) + HALF && Prio(s.dead, x) < s.now + HALF
  }

  lemma PendingWithin(s: State)
    requires |s.rows| > 0 && Base(s) && (AllAhead(s) || AllPending(s))
    ensures Within(s)
  {
    hide Rows;
  }

  /** The second part of a start on 32-bit ticks does what the reference does
      exactly when the search sees. */
  lemma InsertExact(s: State, t: Tid)
    requires |s.rows| > 0 && Base(s) && Within(s) && t in s.recs && !s.recs[t].active && s.now < Prio(s.dead, t) + HALF
    ensures InsertedByTicks(s, t) == Inserted(s, t) <==> SeesInsert(s, t)
  {
    hide Rows, Linked, LinkedAt, Heads, Height, Sees, Bottom;
    assert Spread(Bottom(s.rows), t, s.dead);
    LinkExact(s.rows, t, Height((s.rnd + 1) % TICKS, |s.rows|), s.dead);
  }

  /** And so does a start in one go. */
  lemma StartExact(s: State, t: Tid)
    requires |s.rows| > 0 && Base(s) && Within(s) && t in s.recs
    ensures StartedByTicks(s, t) == Started(s, t) <==> SeesStart(s, t)
  {
    hide Rows, Base, Linked, Unlinked, Inserted, InsertedByTicks, SeesInsert, Started, Bottom, Left;
    StartedParts(s, t);
    UnlinkedBase(s, t);
    AimedBase(Removed(s, t), t);
    RemovedBottom(s, t);
    BaseLevels(Aimed(Removed(s, t), t));
    AimedWithin(s, t);
    InsertExact(Aimed(Removed(s, t), t), t);
  }

  lemma AimedWithin(s: State, t: Tid)
    requires |s.rows| > 0 && Base(s) && Within(s) && t in s.recs
    ensures var r := Aimed(Removed(s, t), t); |r.rows| > 0 && Within(r) && r.now < Prio(r.dead, t) + HALF
  {
    hide Rows, Base, Unlinked, Bottom, Left;
    RemovedBottom(s, t);
  }

  /** And one turn of the check. */
  lemma FiredExact(s: State)
    requires |s.rows| > 0 && Base(s) && Within(s) && Due(s)
    ensures var t := Bottom(s.rows)[0];
      && t in s.recs && |Called(s).rows| > 0
      && (FiredByTicks(s) == Fired(s) <==> (s.recs[t].periodic ==> SeesStart(Called(s), t)))
  {
    hide Rows, Base, Bottom, Left, Unlinked, StartedByTicks, Started, SeesStart;
    RemovedHead(s);
    CalledWithin(s);
    StartExact(Called(s), Bottom(s.rows)[0]);
  }

  lemma CalledWithin(s: State)
    requires |s.rows| > 0 && Base(s) && Within(s) && Due(s)
    ensures Bottom(s.rows)[0] in s.recs && |Called(s).rows| > 0 && Within(Called(s))
  {
    hide Rows, Base, Bottom, Left, Unlinked;
    RemovedHead(s);
  }

  /** rt_tick_get() - timeout_tick tells whether the deadline has come. */
  predicate DueByTicks(s: State) {
    && |s.rows| > 0 && Bottom(s.rows) != [] && Bottom(s.rows)[0] in s.recs
    && Minus(s.now % TICKS, Prio(s.dead, Bottom(s.rows)[0]) % TICKS) < HALF
  }

  lemma DueCompare(now: nat, dead: nat)
    requires now < dead + HALF && dead < now + HALF
    ensures Minus(now % TICKS, dead % TICKS) < HALF <==> dead <= now
  {
    assert (now % TICKS - dead % TICKS) % TICKS == (now - dead) % TICKS;
    if dead <= now { assert (now - dead) % TICKS == now - dead; } else { assert (now - dead) % TICKS == now - dead + TICKS; }
  }

  lemma DueExact(s: State)
    requires |s.rows| > 0 && Base(s) && Within(s)
    ensures DueByTicks(s) <==> Due(s)
  {
    hide Rows;
    if Bottom(s.rows) != [] {
      assert Bottom(s.rows)[0] in Bottom(s.rows);
      DueCompare(s.now, Prio(s.dead, Bottom(s.rows)[0]));
    }
  }

  /** The loop of rt_timer_check on 32-bit ticks, at most n turns of it. */
  function TurnsByTicks(s: State, n: nat): State
    decreases n
  {
    if n == 0 || !DueByTicks(s) then s else TurnsByTicks(FiredByTicks(s), n - 1)
  }

  lemma TurnsStep(s: State)
    requires Base(s) && Due(s)
    ensures Bottom(s.rows)[0] in s.recs && Base(Fired(s))
    ensures forall n: nat :: n > 0 ==> Turns(s, n) == Turns(Fired(s), n - 1)
  {
    hide Rows;
    FiredBase(s);
  }

  /** The check on 32-bit ticks does what the reference does, turn by turn,
      exactly when it sees. */
  lemma {:induction false} CheckExact(s: State)
    requires Base(s) && |s.rows| > 0 && AllPending(s) && OnTime(s.log) && !ZeroPeriod(s)
    ensures CheckSees(s) <==> forall n: nat :: TurnsByTicks(s, n) == Turns(s, n)
    decreases DueCount(Bottom(s.rows), s.dead, s.now)
  {
    hide Rows, Base, ZeroPeriod, Fired, FiredByTicks, Prio, AllPending, OnTime, Within, DueByTicks, SeesStart, Bottom;
    PendingWithin(s);
    DueExact(s);
    if Due(s) {
      FiredFewer(s);
      FiredPending(s);
      FiredExact(s);
      FiredKeeps(s);
      TurnsStep(s);
      if FiredByTicks(s) == Fired(s) {
        CheckExact(Fired(s));
        if CheckSees(Fired(s)) {
          forall n: nat ensures TurnsByTicks(s, n) == Turns(s, n) {
            if n > 0 { assert TurnsByTicks(Fired(s), n - 1) == Turns(Fired(s), n - 1); }
          }
        } else {
          var n: nat :| TurnsByTicks(Fired(s), n) != Turns(Fired(s), n);
          assert TurnsByTicks(s, n + 1) != Turns(s, n + 1);
        }
      } else {
        assert TurnsByTicks(s, 1) == TurnsByTicks(FiredByTicks(s), 0) == FiredByTicks(s);
        assert Turns(s, 1) == Turns(Fired(s), 0) == Fired(s);
      }
    }
  }

  /** rt_timer_start is one step or three; other steps may come in between. */
  datatype Event =
    | Start(t: Tid)
    | Remove(t: Tid)
    | Aim(t: Tid)
    | Insert(t: Tid)
    | Stop(t: Tid)
    | Control(t: Tid, init: nat, periodic: bool)
    | Tick

  /** The steps that can come next. A timer between the parts of its start is not
      started again. */
  ghost predicate Possible(s: State, e: Event) {
    match e
    case Start(t) => t in s.recs
    case Remove(t) => t in s.recs
    case Aim(t) => t in s.recs && !s.recs[t].active
    case Insert(t) => t in s.recs && !s.recs[t].active
    case Stop(t) => t in s.recs
    case Control(t, init, _) => t in s.recs && init < HALF
    case Tick => Base(NextTick(s)) && !ZeroPeriod(NextTick(s))
  }

  /** The wrapped comparisons of the step tell the truth: InsertExact, StartExact
      and CheckExact show that the 32-bit list then, and only then, does what the
      reference does. */
  ghost predicate Seen(s: State, e: Event)
    requires |s.rows| > 0 && Possible(s, e)
  {
    match e
    case Start(t) => SeesStart(s, t)
    case Insert(t) => s.now + 1 < Prio(s.dead, t) + HALF && SeesInsert(s, t)
    case Tick => CheckSees(NextTick(s))
    case _ => true
  }

  ghost predicate Enabled(s: State, e: Event)
    requires |s.rows| > 0
  {
    Possible(s, e) && Seen(s, e)
  }

  ghost function Step(s: State, e: Event): State
    requires |s.rows| > 0 && Possible(s, e)
  {
    match e
    case Start(t) => Started(s, t)
    case Remove(t) => Removed(s, t)
    case Aim(t) => Aimed(s, t)
    case Insert(t) => Inserted(s, t)
    case Stop(t) => Stopped(s, t)
    case Control(t, init, periodic) => Controlled(s, t, init, periodic)
    case Tick => Checked(NextTick(s))
  }

  lemma StepInv(s: State, e: Event)
    requires |s.rows| > 0 && Inv(s) && Enabled(s, e)
    ensures Inv(Step(s, e))
  {
    match e
    case Start(t) => StartedInv(s, t);
    case Remove(t) => StoppedInv(s, t);
    case Aim(t) => AimedInv(s, t);
    case Insert(t) => InsertedInv(s, t);
    case Stop(t) => StoppedInv(s, t);
    case Control(t, init, periodic) => hide Rows;
    case Tick =>
      TickPending(s);
      CheckedInv(NextTick(s));
  }

  ghost predicate Reaches(s: State, es: seq<Event>, r: State)
    decreases es
  {
    if es == [] then r == s else |s.rows| > 0 && Enabled(s, es[0]) && Reaches(Step(s, es[0]), es[1..], r)
  }

  /** Over every run of seen starts, parts of starts, stops, controls and ticks:
      each timer that fired did so at its expiry, and no active timer's expiry has
      passed. */
  lemma {:induction false} RunsOnTime(s: State, es: seq<Event>, r: State)
    requires Inv(s) && Reaches(s, es, r)
    ensures Inv(r) && OnTime(r.log)
    ensures forall x :: x in r.recs && r.recs[x].active ==> r.now < Expiry(Prio(r.since, x), Prio(r.dead, x))
    decreases es
  {
    if es == [] {
      assert forall x :: x in r.recs && r.recs[x].active ==> x in Bottom(r.rows);
    } else {
      StepInv(s, es[0]);
      RunsOnTime(Step(s, es[0]), es[1..], r);
    }
  }

  // ----- what one check does to one timer -----

  /** A turn re-arms its timer from now if periodic; the others stay as they are. */
  lemma FiredOne(s: State, x: Tid)
    requires Base(s) && Due(s)
    ensures var t, f := Bottom(s.rows)[0], Fired(s);
      && t in s.recs && |f.rows| > 0
      && (x in Bottom(f.rows) <==> x in Bottom(s.rows) && (x != t || s.recs[t].periodic))
      && (x != t || !s.recs[t].periodic ==> Prio(f.since, x) == Prio(s.since, x) && Prio(f.dead, x) == Prio(s.dead, x))
      && (x == t && s.recs[t].periodic ==> Prio(f.since, x) == s.now && Prio(f.dead, x) == s.now + s.recs[x].init)
  {
    hide Rows, Base, Linked, Unlinked, Bottom;
    BaseLevels(s);
    FiredBase(s);
    FiredKeeps(s);
  }

  /** A check drops a timer only if it was due and is not periodic, and moves it
      only if it was due and is periodic: no timer is skipped. */
  lemma {:induction false} CheckKeeps(s: State, x: Tid)
    requires Base(s) && !ZeroPeriod(s)
    ensures var r := Checked(s); var due := x in Bottom(s.rows) && Prio(s.dead, x) <= s.now;
      && |r.rows| > 0 && (x in r.recs <==> x in s.recs) && (x in Bottom(s.rows) ==> x in s.recs)
      && (x in s.recs ==> r.recs[x].init == s.recs[x].init && r.recs[x].periodic == s.recs[x].periodic)
      && (x in Bottom(r.rows) <==> x in Bottom(s.rows) && (due ==> s.recs[x].periodic))
      && (!due || !s.recs[x].periodic ==> Prio(r.since, x) == Prio(s.since, x) && Prio(r.dead, x) == Prio(s.dead, x))
      && (due && s.recs[x].periodic ==> Prio(r.since, x) == s.now && Prio(r.dead, x) == s.now + s.recs[x].init)
    decreases DueCount(Bottom(s.rows), s.dead, s.now)
  {
    hide Rows, Base, ZeroPeriod, Fired, Prio, Bottom;
    BaseLevels(s);
    LinkedKnown(s, x);
    if Due(s) {
      FiredFewer(s);
      FiredKeeps(s);
      FiredOne(s, x);
      HeadDue(s);
      CheckKeeps(Fired(s), x);
    } else {
      NotDue(s, x);
    }
  }

  lemma LinkedKnown(s: State, x: Tid)
    requires Base(s)
    ensures |s.rows| > 0 && (x in Bottom(s.rows) <==> x in s.recs && s.recs[x].active)
  {
  }

  lemma HeadDue(s: State)
    requires Base(s) && Due(s) && !ZeroPeriod(s)
    ensures var t := Bottom(s.rows)[0];
      && t in s.recs && t in Bottom(s.rows) && Prio(s.dead, t) <= s.now
      && (s.recs[t].periodic ==> s.now + s.recs[t].init > s.now)
  {
    BaseHead(s);
  }

  lemma NotDue(s: State, x: Tid)
    requires Base(s) && !Due(s)
    ensures |s.rows| > 0 && (x in Bottom(s.rows) ==> Prio(s.dead, x) > s.now)
  {
    if Bottom(s.rows) != [] { HeadSorted(Bottom(s.rows), s.dead); }
  }

  // ----- the schedule of one timer over a whole run -----

  datatype Track = Idle | Armed(since: nat, dead: nat)

  function TrackOf(s: State, t: Tid): Track
    requires t in s.recs
  {
    if s.recs[t].active then Armed(Prio(s.since, t), Prio(s.dead, t)) else Idle
  }

  /** The calls an undisturbed timer owes up to tick `now`: one at its expiry, and
      if periodic one every `init` ticks from there. */
  function Schedule(t: Tid, k: Track, init: nat, periodic: bool, now: nat): seq<Fire>
    decreases if k.Idle? || k.since > now then 0 else now + 1 - k.since
  {
    if k.Idle? || Expiry(k.since, k.dead) > now then []
    else
      var e := Expiry(k.since, k.dead);
      [Fire(t, e, k.since, k.dead)] + Schedule(t, if periodic then Armed(e, e + init) else Idle, init, periodic, now)
  }

  /** Where that leaves it. */
  function Later(k: Track, init: nat, periodic: bool, now: nat): Track
    decreases if k.Idle? || k.since > now then 0 else now + 1 - k.since
  {
    if k.Idle? || Expiry(k.since, k.dead) > now then k
    else
      var e := Expiry(k.since, k.dead);
      Later(if periodic then Armed(e, e + init) else Idle, init, periodic, now)
  }

  /** In plain numbers: a one-shot timer is called once, a periodic one at its
      expiry and then every `init` ticks as long as the tick has come. */
  lemma {:induction false} ScheduleMeaning(t: Tid, k: Track, init: nat, periodic: bool, now: nat)
    requires k.Armed? && (periodic ==> init > 0)
    ensures var c, e := Schedule(t, k, init, periodic, now), Expiry(k.since, k.dead);
      && (!periodic ==> c == if e <= now then [Fire(t, e, k.since, k.dead)] else [])
      && (periodic ==> forall n :: 0 <= n < |c| ==> c[n].t == t && c[n].at == e + n * init)
      && (periodic ==> e + |c| * init > now && forall n :: 0 <= n < |c| ==> e + n * init <= now)
    decreases if k.since > now then 0 else now + 1 - k.since
  {
    var e := Expiry(k.since, k.dead);
    if e <= now && periodic {
      var c, rest := Schedule(t, k, init, periodic, now), Schedule(t, Armed(e, e + init), init, periodic, now);
      ScheduleMeaning(t, Armed(e, e + init), init, periodic, now);
      assert Expiry(e, e + init) == e + init;
      forall n | 0 <= n < |c| ensures c[n].t == t && c[n].at == e + n * init && e + n * init <= now {
        if n > 0 {
          assert c[n] == rest[n - 1];
          NextMultiple(n - 1, init);
        }
      }
      NextMultiple(|rest|, init);
    }
  }

  lemma NextMultiple(n: nat, init: nat)
    ensures init + n * init == (n + 1) * init
  {
  }

  /** A schedule can be cut at any tick. */
  lemma {:induction false} ScheduleThen(t: Tid, k: Track, init: nat, periodic: bool, mid: nat, now: nat)
    requires mid <= now
    ensures Schedule(t, k, init, periodic, now)
      == Schedule(t, k, init, periodic, mid) + Schedule(t, Later(k, init, periodic, mid), init, periodic, now)
    ensures Later(k, init, periodic, now) == Later(Later(k, init, periodic, mid), init, periodic, now)
    decreases if k.Idle? || k.since > mid then 0 else mid + 1 - k.since
  {
    if k.Armed? && Expiry(k.since, k.dead) <= mid {
      var e := Expiry(k.since, k.dead);
      ScheduleThen(t, if periodic then Armed(e, e + init) else Idle, init, periodic, mid, now);
    }
  }

  /** The calls of timer t in a log. */
  function CallsOf(log: seq<Fire>, t: Tid): seq<Fire>
    decreases log
  {
    if log == [] then [] else (if log[0].t == t then [log[0]] else []) + CallsOf(log[1..], t)
  }

  lemma {:induction false} CallsConcat(a: seq<Fire>, b: seq<Fire>, t: Tid)
    ensures CallsOf(a + b, t) == CallsOf(a, t) + CallsOf(b, t)
    decreases a
  {
    if a == [] {
      assert a + b == b;
    } else {
      CallsConcat(a[1..], b, t);
      assert (a + b)[1..] == a[1..] + b;
    }
  }

  lemma {:induction false} CallsFired(q: seq<Tid>, now: nat, since: Priorities, dead: Priorities, t: Tid)
    requires NoDup(q)
    ensures CallsOf(Fires(q, now, since, dead), t) == if t in q then [Fire(t, now, Prio(since, t), Prio(dead, t))] else []
    decreases q
  {
    if q != [] {
      HeadLeaves(q, dead);
      CallsFired(q[1..], now, since, dead, t);
      var rest := Fires(q[1..], now, since, dead);
      assert ([Fire(q[0], now, Prio(since, q[0]), Prio(dead, q[0]))] + rest)[1..] == rest;
    }
  }

  /** The calls of t in one check. */
  lemma DueCalls(s: State, t: Tid)
    requires Base(s)
    ensures |s.rows| > 0
    ensures CallsOf(DueFires(Bottom(s.rows), s.now, s.since, s.dead), t) ==
      if t in Bottom(s.rows) && Prio(s.dead, t) <= s.now then [Fire(t, s.now, Prio(s.since, t), Prio(s.dead, t))] else []
  {
    var q := Bottom(s.rows);
    PrefixIsAll(q, s.dead, s.now);
    CallsFired(DuePrefix(q, s.dead, s.now), s.now, s.since, s.dead, t);
  }

  /** A tick calls t exactly when its schedule says so. */
  lemma TickFollows(s: State, t: Tid)
    requires |s.rows| > 0 && Inv(s) && t in s.recs && Enabled(s, Tick)
    ensures var r, k, i, p := Checked(NextTick(s)), TrackOf(s, t), s.recs[t].init, s.recs[t].periodic;
      && t in r.recs && r.recs[t].init == i && r.recs[t].periodic == p && s.log <= r.log && r.now == s.now + 1
      && CallsOf(r.log[|s.log|..], t) == Schedule(t, k, i, p, r.now) && TrackOf(r, t) == Later(k, i, p, r.now)
  {
    hide Rows, Base, ZeroPeriod, DueFires, Bottom, Checked, Schedule, Later, CallsOf, AllAhead, OnTime, Ahead, Prio;
    var s1 := NextTick(s);
    LinkedKnown(s1, t);
    CheckFires(s1);
    CheckKeeps(s1, t);
    DueCalls(s1, t);
    var r := Checked(s1);
    LinkedKnown(r, t);
    assert r.log[|s.log|..] == DueFires(Bottom(s1.rows), s1.now, s1.since, s1.dead);
    TrackAhead(s, t);
    HeadDueTrack(s1, t);
    ScheduleOne(t, TrackOf(s, t), s.recs[t].init, s.recs[t].periodic, s.now);
  }

  lemma TrackAhead(s: State, t: Tid)
    requires Inv(s) && t in s.recs
    ensures TrackOf(s, t).Armed? ==> Ahead(s.now, TrackOf(s, t).since, TrackOf(s, t).dead)
  {
    LinkedKnown(s, t);
  }

  lemma HeadDueTrack(s: State, t: Tid)
    requires |s.rows| > 0 && !ZeroPeriod(s) && t in s.recs
    ensures t in Bottom(s.rows) && Prio(s.dead, t) <= s.now && s.recs[t].periodic ==> s.recs[t].init > 0
  {
  }

  /** One tick ahead a schedule holds at most one call. */
  lemma ScheduleOne(t: Tid, k: Track, init: nat, periodic: bool, now: nat)
    requires k.Armed? ==> Ahead(now, k.since, k.dead)
    requires k.Armed? && k.dead <= now + 1 && periodic ==> init > 0
    ensures var due := k.Armed? && k.dead <= now + 1;
      && Schedule(t, k, init, periodic, now + 1) == (if due then [Fire(t, now + 1, k.since, k.dead)] else [])
      && Later(k, init, periodic, now + 1) ==
        (if !due then k else if periodic then Armed(now + 1, now + 1 + init) else Idle)
  {
    if k.Armed? && k.dead <= now + 1 {
      assert Expiry(k.since, k.dead) == now + 1;
      if periodic { assert Expiry(now + 1, now + 1 + init) > now + 1; }
    }
  }

  predicate Names(e: Event, t: Tid) {
    !e.Tick? && e.t == t
  }

  lemma OtherFollows(s: State, e: Event, t: Tid)
    requires |s.rows| > 0 && t in s.recs && Enabled(s, e) && !e.Tick? && !Names(e, t)
    ensures var r := Step(s, e);
      && t in r.recs && r.recs[t] == s.recs[t] && TrackOf(r, t) == TrackOf(s, t) && r.log == s.log && r.now == s.now
  {
    hide Linked, Unlinked;
  }

  /** Over every run of seen steps in which a timer is not started, stopped or
      controlled, it is called exactly by its schedule, neither skipped nor called
      twice, whatever the other timers do; and it is left where the schedule
      leaves it. */
  lemma {:induction false} KeepsSchedule(s: State, es: seq<Event>, r: State, t: Tid)
    requires Inv(s) && Reaches(s, es, r) && t in s.recs && forall e :: e in es ==> !Names(e, t)
    ensures s.log <= r.log && s.now <= r.now && t in r.recs
    ensures CallsOf(r.log[|s.log|..], t) == Schedule(t, TrackOf(s, t), s.recs[t].init, s.recs[t].periodic, r.now)
    ensures TrackOf(r, t) == Later(TrackOf(s, t), s.recs[t].init, s.recs[t].periodic, r.now)
    decreases es
  {
    hide Inv, Schedule, Later, TrackOf, Possible, Seen, Step, Names;
    if es == [] {
      ScheduleNow(s, t);
      assert r.log[|s.log|..] == [];
    } else {
      var e, m := es[0], Step(s, es[0]);
      StepInv(s, e);
      StepFollows(s, e, t);
      assert e in es && forall e1 :: e1 in es[1..] ==> e1 in es;
      KeepsSchedule(m, es[1..], r, t);
      CallsConcat(m.log[|s.log|..], r.log[|m.log|..], t);
      assert r.log[|s.log|..] == m.log[|s.log|..] + r.log[|m.log|..];
      ScheduleThen(t, TrackOf(s, t), s.recs[t].init, s.recs[t].periodic, m.now, r.now);
    }
  }

  lemma ScheduleNow(s: State, t: Tid)
    requires Inv(s) && t in s.recs
    ensures Schedule(t, TrackOf(s, t), s.recs[t].init, s.recs[t].periodic, s.now) == []
    ensures Later(TrackOf(s, t), s.recs[t].init, s.recs[t].periodic, s.now) == TrackOf(s, t)
  {
    TrackAhead(s, t);
  }

  lemma StepFollows(s: State, e: Event, t: Tid)
    requires |s.rows| > 0 && Inv(s) && Enabled(s, e) && t in s.recs && !Names(e, t)
    ensures var r, k, i, p := Step(s, e), TrackOf(s, t), s.recs[t].init, s.recs[t].periodic;
      && t in r.recs && r.recs[t].init == i && r.recs[t].periodic == p && s.log <= r.log && s.now <= r.now
      && CallsOf(r.log[|s.log|..], t) == Schedule(t, k, i, p, r.now) && TrackOf(r, t) == Later(k, i, p, r.now)
  {
    hide Inv, Schedule, Later, TrackOf;
    if e.Tick? {
      TickFollows(s, t);
    } else {
      OtherFollows(s, e, t);
      ScheduleNow(s, t);
      assert s.log[|s.log|..] == [];
    }
  }

  // ----- what starting, stopping and controlling a timer do -----

  /** A stopped timer is linked no more and idle; the others are left alone. */
  lemma StopMeaning(s: State, t: Tid, x: Tid)
    requires Base(s) && t in s.recs && x in s.recs
    ensures var r := Stopped(s, t);
      && |r.rows| > 0 && |s.rows| > 0 && t in r.recs && x in r.recs && r.now == s.now && r.log == s.log
      && (x in Bottom(r.rows) <==> x in Bottom(s.rows) && x != t)
      && TrackOf(r, t) == Idle && (x != t ==> TrackOf(r, x) == TrackOf(s, x) && r.recs[x] == s.recs[x])
      && r.recs[t].init == s.recs[t].init && r.recs[t].periodic == s.recs[t].periodic
  {
    hide Rows;
    RemovedBottom(s, t);
    LinkedKnown(s, x);
  }

  /** A started timer is armed from now for its delay; the others are left alone.
      Linked in parts, it is armed from the last part for the deadline set before. */
  lemma StartMeaning(s: State, t: Tid, x: Tid)
    requires Base(s) && t in s.recs && x in s.recs && |s.rows| > 0
    ensures var r := Started(s, t);
      && t in r.recs && x in r.recs && TrackOf(r, t) == Armed(s.now, s.now + s.recs[t].init) && r.now == s.now && r.log == s.log
      && r.recs[t].init == s.recs[t].init && r.recs[t].periodic == s.recs[t].periodic
      && (x != t ==> TrackOf(r, x) == TrackOf(s, x) && r.recs[x] == s.recs[x])
    ensures var r := Inserted(s, t);
      && TrackOf(r, t) == Armed(s.now, Prio(s.dead, t)) && (x != t ==> TrackOf(r, x) == TrackOf(s, x))
    ensures Prio(Aimed(s, t).dead, t) == s.now + s.recs[t].init && TrackOf(Removed(s, t), t) == Idle
  {
    hide Rows, Linked, Unlinked;
  }

  /** rt_timer_control sets delay and kind for the next start; a running timer
      runs on. */
  lemma ControlMeaning(s: State, t: Tid, init: nat, periodic: bool, x: Tid)
    requires t in s.recs && x in s.recs
    ensures var r := Controlled(s, t, init, periodic);
      && r.recs[t].init == init && r.recs[t].periodic == periodic && TrackOf(r, x) == TrackOf(s, x)
      && (x != t ==> r.recs[x] == s.recs[x]) && r.rows == s.rows && r.log == s.log && r.now == s.now
  {
  }

  /** After a stop, and until the timer is named again, it is not called. */
  lemma StoppedSilent(s: State, t: Tid, es: seq<Event>, r: State)
    requires Inv(s) && t in s.recs && Reaches(Stopped(s, t), es, r) && forall e :: e in es ==> !Names(e, t)
    ensures s.log <= r.log && CallsOf(r.log[|s.log|..], t) == [] && t in r.recs && TrackOf(r, t) == Idle
  {
    hide Reaches, Names, Stopped, TrackOf, CallsOf;
    StoppedInv(s, t);
    StopMeaning(s, t, t);
    KeepsSchedule(Stopped(s, t), es, r, t);
  }

  /** After a start, and until it is named again, a one-shot timer is called once,
      `init` ticks later or at the next tick if that is none. */
  lemma StartedOnce(s: State, t: Tid, es: seq<Event>, r: State)
    requires |s.rows| > 0 && Inv(s) && t in s.recs && !s.recs[t].periodic
    requires Reaches(Started(s, t), es, r) && forall e :: e in es ==> !Names(e, t)
    ensures s.log <= r.log
    ensures var d := s.now + s.recs[t].init; var at := if s.recs[t].init == 0 then s.now + 1 else d;
      CallsOf(r.log[|s.log|..], t) == if at <= r.now then [Fire(t, at, s.now, d)] else []
  {
    hide Reaches, Names, Started, TrackOf, CallsOf, Rows;
    StartedInv(s, t);
    StartMeaning(s, t, t);
    KeepsSchedule(Started(s, t), es, r, t);
    ScheduleMeaning(t, Armed(s.now, s.now + s.recs[t].init), s.recs[t].init, false, r.now);
  }

  // ----- the start -----

  function Fresh(levels: nat, recs: map<Tid, Rec>, now: nat): State {
    State(seq(levels, _ => []), recs, map[], map[], now, 0, [])
  }

  lemma FreshInv(levels: nat, recs: map<Tid, Rec>, now: nat)
    requires levels > 0 && forall x :: x in recs ==> recs[x].init < HALF && !recs[x].active
    ensures Inv(Fresh(levels, recs, now))
  {
    var s := Fresh(levels, recs, now);
    assert forall i :: 0 <= i < levels - 1 ==> Below(s.rows, i);
  }

  /** A periodic timer of period zero, started in a fresh list: at the next tick
      the check comes to no end. */
  lemma ZeroLoops(levels: nat, now: nat, t: Tid, n: nat)
    requires levels > 0
    ensures var s := Started(Fresh(levels, map[t := Rec(0, true, false)], now), t);
      Inv(s) && Base(NextTick(s)) && ZeroPeriod(NextTick(s)) && Due(Turns(NextTick(s), n))
  {
    hide Rows, Linked, Unlinked, Turns, Joined, Due;
    var s0 := Fresh(levels, map[t := Rec(0, true, false)], now);
    FreshInv(levels, s0.recs, now);
    StartedInv(s0, t);
    StartedBase(s0, t);
    var s := NextTick(Started(s0, t));
    assert t in Bottom(s.rows) && Prio(s.dead, t) <= s.now;
    TickPending(Started(s0, t));
    CheckEnds(s, n);
  }

  // ----- runs without late insertions see -----

  /** No linked timer is more than so many ticks past its deadline. */
  ghost predicate Punctual(s: State, late: nat)
    requires |s.rows| > 0
  {
    forall x :: x in Bottom(s.rows) ==> s.now <= Prio(s.dead, x) + late
  }

  lemma RowsSee(rows: seq<seq<Tid>>, t: Tid, dead: Priorities, now: nat)
    requires Rows(rows, dead) && now <= Prio(dead, t) < now + HALF
    requires forall x :: x in Bottom(rows) ==> now <= Prio(dead, x) + 3 && Prio(dead, x) < now + HALF
    ensures Sees(rows, t, dead)
  {
    forall i | 0 <= i < |rows| ensures SeesRow(rows, i, t, dead) {
      RowIn(rows, dead, i);
      hide Rows, From;
      var row, p := rows[i], Place(rows[i], t, PRIO, dead);
      assert p < |row| ==> row[p] in row;
      assert From(rows, i, t, dead) < p ==> row[From(rows, i, t, dead)] in row;
    }
  }

  lemma InsertSeen(s: State, t: Tid)
    requires Base(s) && t in s.recs && s.now <= Prio(s.dead, t) && |s.rows| > 0 && Punctual(s, 3)
    ensures SeesInsert(s, t)
  {
    hide Rows, Sees;
    RowsSee(s.rows, t, s.dead, s.now);
  }

  lemma StartSeen(s: State, t: Tid)
    requires Base(s) && t in s.recs && |s.rows| > 0 && Punctual(s, 3)
    ensures SeesStart(s, t)
  {
    hide Rows, Base, SeesInsert, Unlinked, Left, Bottom;
    UnlinkedBase(s, t);
    AimedBase(Removed(s, t), t);
    RemovedBottom(s, t);
    AimedPunctual(s, t);
    InsertSeen(Aimed(Removed(s, t), t), t);
  }

  lemma AimedPunctual(s: State, t: Tid)
    requires Base(s) && t in s.recs && |s.rows| > 0 && Punctual(s, 3)
    ensures var r := Aimed(Removed(s, t), t); |r.rows| > 0 && Punctual(r, 3) && r.now <= Prio(r.dead, t)
  {
    hide Rows, Base, Unlinked, Left;
    RemovedBottom(s, t);
  }

  lemma {:induction false} CheckSeen(s: State)
    requires Base(s) && !ZeroPeriod(s) && |s.rows| > 0 && Punctual(s, 3)
    ensures CheckSees(s)
    decreases DueCount(Bottom(s.rows), s.dead, s.now)
  {
    hide Rows, Base, ZeroPeriod, Fired, Prio, Punctual, SeesStart, Bottom, Unlinked;
    if Due(s) {
      FiredFewer(s);
      FiredKeeps(s);
      RemovedHead(s);
      TurnPunctual(s);
      StartSeen(Called(s), Bottom(s.rows)[0]);
      CheckSeen(Fired(s));
    }
  }

  lemma TurnPunctual(s: State)
    requires Base(s) && |s.rows| > 0 && Punctual(s, 3) && Due(s)
    ensures Bottom(s.rows)[0] in s.recs && |Called(s).rows| > 0 && Punctual(Called(s), 3)
    ensures |Fired(s).rows| > 0 && Punctual(Fired(s), 3)
  {
    hide Rows, Base, Fired, Bottom, Unlinked, Left;
    RemovedHead(s);
    FiredKeeps(s);
    forall x | x in Bottom(Fired(s).rows) ensures s.now <= Prio(Fired(s).dead, x) + 3 { FiredOne(s, x); }
  }

  /** The second part of a start comes before its deadline. */
  ghost predicate InTime(s: State, e: Event) {
    e.Insert? ==> s.now <= Prio(s.dead, e.t)
  }

  /** Such a step sees, and leaves no timer linked late. */
  lemma InTimeSeen(s: State, e: Event)
    requires |s.rows| > 0 && Inv(s) && Punctual(s, 2) && Possible(s, e) && InTime(s, e)
    ensures Enabled(s, e) && |Step(s, e).rows| > 0 && Punctual(Step(s, e), 2)
  {
    hide Rows, SeesStart, SeesInsert, CheckSees, Joined, Linked, Unlinked, Left;
    match e
    case Start(t) =>
      StartSeen(s, t);
      StartedBase(s, t);
    case Remove(t) => RemovedBottom(s, t);
    case Aim(t) =>
    case Insert(t) =>
      InsertSeen(s, t);
      InsertedBase(s, t);
    case Stop(t) => RemovedBottom(s, t);
    case Control(t, init, periodic) =>
    case Tick => TickSeen(s);
  }

  lemma TickSeen(s: State)
    requires |s.rows| > 0 && Inv(s) && Punctual(s, 2) && Possible(s, Tick)
    ensures CheckSees(NextTick(s)) && |Checked(NextTick(s)).rows| > 0 && Punctual(Checked(NextTick(s)), 2)
  {
    hide Rows, ZeroPeriod, CheckSees, Checked, AllAhead, OnTime;
    var r := NextTick(s);
    CheckSeen(r);
    CheckFires(r);
    BaseLevels(Checked(r));
    forall x | x in Bottom(Checked(r).rows) ensures Checked(r).now <= Prio(Checked(r).dead, x) + 2 { NotDue(Checked(r), x); }
  }

  ghost predicate AllInTime(s: State, es: seq<Event>)
    decreases es
  {
    es == [] || (|s.rows| > 0 && Possible(s, es[0]) && InTime(s, es[0]) && AllInTime(Step(s, es[0]), es[1..]))
  }

  /** Runs in which every such part comes in time need no condition: the wrapped
      comparisons tell the truth in all their steps. */
  lemma {:induction false} InTimeRuns(s: State, es: seq<Event>) returns (r: State)
    requires |s.rows| > 0 && Inv(s) && Punctual(s, 2) && AllInTime(s, es)
    ensures Reaches(s, es, r) && |r.rows| > 0 && Inv(r) && Punctual(r, 2)
    decreases es
  {
    hide Inv, Punctual, Possible, Enabled, Step, InTime;
    if es == [] {
      r := s;
    } else {
      InTimeSeen(s, es[0]);
      StepInv(s, es[0]);
      r := InTimeRuns(Step(s, es[0]), es[1..]);
    }
  }

  // ----- a late insertion that is misplaced -----

  /** Timer t with no delay is aimed at tick d, a tick passes, x is started with
      the longest delay, and then t is linked. The search walks past x, and when
      the expiry of t comes the check stops at x: t is not called, then or in the
      tick after. */
  lemma LateMisplaced(d: nat, t: Tid, x: Tid) returns (s: State)
    requires t != x
    ensures var es := [Remove(t), Aim(t), Tick, Start(x)];
      Reaches(Fresh(1, map[t := Rec(0, false, false), x := Rec(HALF - 1, false, false)], d), es, s)
    ensures |s.rows| > 0 && Possible(s, Insert(t)) && !Seen(s, Insert(t))
    ensures var r := InsertedByTicks(s, t);
      && r.rows == [[x, t]] && TrackOf(r, t) == Armed(d + 1, d) && NextTick(r).now == Expiry(d + 1, d)
      && !DueByTicks(NextTick(r)) && !DueByTicks(NextTick(NextTick(r)))
  {
    hide Rows, Sees, Linked, Scan, Joined, Head;
    var recs := map[t := Rec(0, false, false), x := Rec(HALF - 1, false, false)];
    var s0 := Fresh(1, recs, d);
    FreshInv(1, recs, d);
    var s1 := Removed(s0, t);
    assert s1.rows == [[]] && s1 == s0;
    var s2 := Aimed(s1, t);
    AimedInv(s1, t);
    TickPending(s2);
    var s3 := NextTick(s2);
    assert !Due(s3) && Checked(s3) == s3 && CheckSees(s3);
    CheckedInv(s3);
    StartSeen(s3, x);
    s := Started(s3, x);
    LateState(s3, x);
    assert s.rows == [[x]];
    FourSteps(s0, s1, s2, s3, s, t, x);
    MisplacedEnd(s, d, t, x);
  }

  lemma LateState(s: State, x: Tid)
    requires s.rows == [[]] && x in s.recs
    ensures Started(s, x).rows == [[x]]
  {
    var rows := Unlinked(s.rows, x);
    assert rows == [[]];
    JoinedStep([], x, Started(s, x).dead);
  }

  lemma FourSteps(s0: State, s1: State, s2: State, s3: State, s4: State, t: Tid, x: Tid)
    requires |s0.rows| > 0 && Enabled(s0, Remove(t)) && s1 == Step(s0, Remove(t))
    requires |s1.rows| > 0 && Enabled(s1, Aim(t)) && s2 == Step(s1, Aim(t))
    requires |s2.rows| > 0 && Enabled(s2, Tick) && s3 == Step(s2, Tick)
    requires |s3.rows| > 0 && Enabled(s3, Start(x)) && s4 == Step(s3, Start(x))
    ensures Reaches(s0, [Remove(t), Aim(t), Tick, Start(x)], s4)
  {
    hide Enabled, Step;
    var es := [Remove(t), Aim(t), Tick, Start(x)];
    assert es[1..] == [Aim(t), Tick, Start(x)] && es[1..][1..] == [Tick, Start(x)];
    assert es[1..][1..][1..] == [Start(x)] && es[1..][1..][1..][1..] == [];
    assert Reaches(s4, [], s4);
    assert Reaches(s3, [Start(x)], s4);
    assert Reaches(s2, [Tick, Start(x)], s4);
    assert Reaches(s1, [Aim(t), Tick, Start(x)], s4);
  }

  lemma MisplacedEnd(s: State, d: nat, t: Tid, x: Tid)
    requires s.rows == [[x]] && t != x && t in s.recs && x in s.recs && !s.recs[t].active && s.now == d + 1 && s.rnd == 1
    requires Prio(s.dead, t) == d && Prio(s.dead, x) == d + HALF
    ensures Possible(s, Insert(t)) && !Seen(s, Insert(t))
    ensures var r := InsertedByTicks(s, t);
      && r.rows == [[x, t]] && TrackOf(r, t) == Armed(d + 1, d)
      && !DueByTicks(NextTick(r)) && !DueByTicks(NextTick(NextTick(r)))
  {
    WrapCompare(d + HALF, d);
    assert Scan([x], 0, t, s.dead) == Scan([x], 1, t, s.dead) == 1;
    assert Head(s.rows, 0, t, s.dead) == 1;
    assert Heads(s.rows, t, s.dead) == [1];
    assert Place([x], t, PRIO, s.dead) == 0;
    assert !SeesRow(s.rows, 0, t, s.dead);
    assert [x][..1] + [t] + [x][1..] == [x, t];
    assert LinkedAt(s.rows, t, 1, [1]) == [[x, t]];
    DueCompare(d + 2, d + HALF);
    DueCompare(d + 3, d + HALF);
  }
}
