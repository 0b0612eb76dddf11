/** The hard timer list on 32-bit ticks, as rt_timer_start, rt_timer_stop and
    rt_timer_check work on it. A ghost state with unbounded time runs beside. */
module TimerList {
  import opened IpcQueue
  import opened SkipList
  import opened Timer

  /** The loop that links the new timer into the rows, bottom row first. */
  method LinkRows(rows: seq<seq<Tid>>, t: Tid, heads: seq<nat>, counter: nat) returns (r: seq<seq<Tid>>)
    requires |rows| > 0 && |heads| == |rows| && forall i :: 0 <= i < |rows| ==> heads[i] <= |rows[i]|
    ensures r == LinkedAt(rows, t, Height(counter, |rows|), heads)
  {
    var n := |rows|;
    r := rows[n - 1 := rows[n - 1][..heads[n - 1]] + [t] + rows[n - 1][heads[n - 1]..]];
    var tst, lvl := counter, 2;
    assert r == LinkedAt(rows, t, 1, heads);
    while lvl <= n
      invariant 2 <= lvl <= n + 1
      invariant r == LinkedAt(rows, t, lvl - 1, heads)
      invariant Height(counter, n) == lvl - 2 + Height(tst, n - lvl + 2)
    {
      if tst % 4 != 0 {
        break;
      }
      var i := n - lvl;
      r := r[i := rows[i][..heads[i]] + [t] + rows[i][heads[i]..]];
      assert r == LinkedAt(rows, t, lvl, heads);
      tst, lvl := tst / 4, lvl + 1;
    }
  }

  /** _rt_timer_remove. */
  method UnlinkRows(rows: seq<seq<Tid>>, t: Tid) returns (r: seq<seq<Tid>>)
    ensures r == Unlinked(rows, t)
  {
    r := [];
    for i := 0 to |rows|
      invariant |r| == i && forall j :: 0 <= j < i ==> r[j] == Left(rows[j], t)
    {
      r := r + [Left(rows[i], t)];
    }
  }

  lemma AddTicks(now: nat, init: nat)
    ensures (now % TICKS + init) % TICKS == (now + init) % TICKS
  {
  }

  /** The 32-bit ticks stand for deadlines; every linked timer has one. */
  ghost predicate Ticks(rows: seq<seq<Tid>>, ticks: map<Tid, nat>, dead: Priorities)
    requires |rows| > 0
  {
    && (forall x :: x in Bottom(rows) ==> x in ticks)
    && (forall x :: x in ticks ==> ticks[x] == Prio(dead, x) % TICKS)
  }

  lemma InsertReady(s: State, t: Tid, ticks: map<Tid, nat>)
    requires Base(s) && t in s.recs && t in ticks && |s.rows| > 0 && Ticks(s.rows, ticks, s.dead)
    ensures Rows(s.rows, s.dead) && Ticking(Bottom(s.rows), ticks, s.dead) && ticks[t] == Prio(s.dead, t) % TICKS
    ensures |InsertedByTicks(s, t).rows| > 0 && Ticks(InsertedByTicks(s, t).rows, ticks, s.dead)
  {
    hide Rows, Head;
    var n, k := |s.rows| - 1, Head(s.rows, |s.rows| - 1, t, s.dead);
    var row := s.rows[n];
    assert InsertedByTicks(s, t).rows[n] == row[..k] + [t] + row[k..];
  }

  class TimerList {
    var rows: seq<seq<Tid>>
    var recs: map<Tid, Rec>
    var ticks: map<Tid, nat>
    var tick: nat
    var rnd: nat
    ghost var s: State

    ghost predicate Matches()
      reads this
    {
      && |rows| > 0 && rows == s.rows && recs == s.recs && rnd == s.rnd && tick == s.now % TICKS
      && Ticks(rows, ticks, s.dead)
    }

    /** rt_system_timer_init over timers that are all stopped. */
    constructor (levels: nat, recs: map<Tid, Rec>)
      requires levels > 0 && forall x :: x in recs ==> recs[x].init < HALF && !recs[x].active
      ensures Matches() && Inv(s) && this.recs == recs && |rows| == levels && tick == 0
    {
      rows, this.recs, ticks, tick, rnd := seq(levels, _ => []), recs, map[], 0, 0;
      s := Fresh(levels, recs, 0);
      new;
      FreshInv(levels, recs, 0);
    }

    /** rt_timer_start up to the end of its first critical section. */
    method RemoveTimer(t: Tid)
      requires Matches() && Base(s) && t in recs
      modifies this`rows, this`recs, this`s
      ensures Matches() && s == Removed(old(s), t) && Base(s)
    {
      UnlinkedRows(s.rows, t, s.dead);
      UnlinkedBase(s, t);
      hide Rows, Base;
      rows := UnlinkRows(rows, t);
      recs := recs[t := recs[t].(active := false)];
      s := Removed(s, t);
    }

    /** Between its critical sections it sets the deadline. */
    method AimTimer(t: Tid)
      requires Matches() && Base(s) && t in recs && !recs[t].active
      modifies this`ticks, this`s
      ensures Matches() && s == Aimed(old(s), t) && Base(s) && t in ticks
    {
      AimedBase(s, t);
      AddTicks(s.now, recs[t].init);
      hide Rows, Base;
      ticks := ticks[t := (tick + recs[t].init) % TICKS];
      s := Aimed(s, t);
    }

    /** Its second critical section: searches and links on 32-bit ticks only. The
        timer goes where the reference puts it if the step is seen. */
    method InsertTimer(t: Tid)
      requires Matches() && Base(s) && t in recs && !recs[t].active && t in ticks
      modifies this`rows, this`recs, this`rnd, this`s
      ensures Matches() && s == InsertedByTicks(old(s), t)
      ensures old(Inv(s) && Enabled(s, Insert(t))) ==> s == old(Step(s, Insert(t))) && Inv(s)
    {
      hide Base, Rows, LinkedAt, Heads, Ticks, Ticking, Height, Inv, Seen;
      InsertReady(s, t, ticks);
      InsertStep(s, t);
      var heads := Search(rows, ticks[t], ticks, t, s.dead);
      HeadsAre(rows, t, s.dead, heads);
      rnd := (rnd + 1) % TICKS;
      rows := LinkRows(rows, t, heads, rnd);
      recs := recs[t := recs[t].(active := true)];
      s := InsertedByTicks(s, t);
    }

    /** rt_timer_start with nothing in between. */
    method StartTimer(t: Tid)
      requires Matches() && Base(s) && t in recs
      modifies this
      ensures Matches() && s == StartedByTicks(old(s), t)
      ensures old(Within(s) && SeesStart(s, t)) ==>
        s == Started(old(s), t) && Bottom(rows) == Joined(Left(old(Bottom(rows)), t), t, PRIO, s.dead)
    {
      hide Base, Rows, Unlinked, Joined, Left, Ticks, InsertedByTicks, Started, SeesStart, Within, Inv;
      StartStep(s, t);
      RemoveTimer(t);
      AimTimer(t);
      InsertTimer(t);
    }

    /** rt_timer_stop. */
    method StopTimer(t: Tid) returns (ok: bool)
      requires Matches() && Base(s) && t in recs
      modifies this
      ensures Matches() && s == Stopped(old(s), t) && ok == old(recs[t].active)
      ensures recs == old(recs)[t := old(recs[t]).(active := false)]
      ensures forall x :: x in Bottom(rows) <==> x in old(Bottom(rows)) && x != t
    {
      ok := recs[t].active;
      LinkedKnown(s, t);
      if ok {
        UnlinkedRows(s.rows, t, s.dead);
        rows := UnlinkRows(rows, t);
        recs := recs[t := recs[t].(active := false)];
      }
      s := Stopped(s, t);
    }

    /** rt_timer_check at the current tick. */
    method CheckTimers()
      requires Matches() && Base(s) && AllPending(s) && OnTime(s.log) && !ZeroPeriod(s) && CheckSees(s)
      modifies this
      ensures Matches() && old(Base(s)) && old(!ZeroPeriod(s)) && s == Checked(old(s)) && Inv(s)
    {
      hide Base, Rows, Prio, AllPending, OnTime, ZeroPeriod, Fired, FiredByTicks, SeesStart, Within;
      CheckedInv(s);
      while Bottom(rows) != []
        invariant Matches() && Base(s) && AllPending(s) && OnTime(s.log) && !ZeroPeriod(s) && CheckSees(s)
        invariant Checked(s) == old(Checked(s))
        decreases DueCount(Bottom(s.rows), s.dead, s.now)
      {
        var t := Bottom(rows)[0];
        assert t in Bottom(rows);
        PendingWithin(s);
        HeadActive(s);
        DueExact(s);
        if Minus(tick, ticks[t]) < HALF {
          FiredFewer(s);
          FiredPending(s);
          FiredKeeps(s);
          FiredExact(s);
          FireHead();
        } else {
          break;
        }
      }
    }

    /** One turn: unlink, call the timeout function, re-arm if periodic. */
    method FireHead()
      requires Matches() && Base(s) && Due(s)
      modifies this
      ensures Matches() && old(Bottom(rows)[0]) in old(recs) && s == FiredByTicks(old(s))
    {
      hide Base, Rows, Unlinked, Left, Ticks, Joined, StartedByTicks, Started;
      HeadActive(s);
      RemovedHead(s);
      CalledTicks(s, ticks);
      var t := Bottom(rows)[0];
      rows := UnlinkRows(rows, t);
      var periodic := recs[t].periodic && recs[t].active;
      recs := recs[t := recs[t].(active := false)];
      s := Called(s);
      if periodic {
        StartTimer(t);
      }
    }

    /** The part of rt_tick_increase that concerns timers. */
    method TickIncrease()
      requires Matches() && Inv(s) && Enabled(s, Tick)
      modifies this
      ensures Matches() && Inv(s) && s == old(Step(s, Tick))
    {
      TickPending(s);
      tick := (tick + 1) % TICKS;
      AddTicks(s.now, 1);
      s := NextTick(s);
      CheckTimers();
    }

    /** rt_timer_list_next_timeout: the earliest deadline, or RT_TICK_MAX. */
    method NextTimeout() returns (r: nat)
      requires Matches() && Base(s)
      ensures Bottom(rows) == [] ==> r == TICKS - 1
      ensures Bottom(rows) != [] ==> exists x :: x in Bottom(rows) && r == Prio(s.dead, x) % TICKS
                                       && forall y :: y in Bottom(rows) ==> Prio(s.dead, x) <= Prio(s.dead, y)
    {
      if Bottom(rows) == [] { return TICKS - 1; }
      HeadSorted(Bottom(rows), s.dead);
      assert Bottom(rows)[0] in Bottom(rows);
      r := ticks[Bottom(rows)[0]];
    }
  }

  lemma HeadsAre(rows: seq<seq<Tid>>, t: Tid, dead: Priorities, heads: seq<nat>)
    requires |heads| == |rows| && forall i :: 0 <= i < |rows| ==> heads[i] == Head(rows, i, t, dead)
    ensures heads == Heads(rows, t, dead) && forall i :: 0 <= i < |rows| ==> heads[i] <= |rows[i]|
  {
    hide Head;
  }

  /** A seen insertion is the reference's. */
  lemma InsertStep(s: State, t: Tid)
    requires Base(s) && t in s.recs && !s.recs[t].active && |s.rows| > 0
    ensures Inv(s) && Enabled(s, Insert(t)) ==>
      InsertedByTicks(s, t) == Step(s, Insert(t)) && Inv(InsertedByTicks(s, t))
  {
    hide Rows, InsertedByTicks, Inserted, SeesInsert, Base, OnTime;
    if Inv(s) && Enabled(s, Insert(t)) {
      PendingWithin(s);
      InsertExact(s, t);
      StepInv(s, Insert(t));
    }
  }

  lemma StartStep(s: State, t: Tid)
    requires Base(s) && t in s.recs && |s.rows| > 0
    ensures Within(s) && SeesStart(s, t) ==>
      && StartedByTicks(s, t) == Started(s, t)
      && Bottom(Started(s, t).rows) == Joined(Left(Bottom(s.rows), t), t, PRIO, Started(s, t).dead)
  {
    hide Rows, Base, StartedByTicks, Started, SeesStart, Within;
    StartedBase(s, t);
    if Within(s) && SeesStart(s, t) { StartExact(s, t); }
  }

  lemma HeadActive(s: State)
    requires Base(s) && |s.rows| > 0 && Bottom(s.rows) != []
    ensures Bottom(s.rows)[0] in s.recs && s.recs[Bottom(s.rows)[0]].active
  {
    assert Bottom(s.rows)[0] in Bottom(s.rows);
  }

  lemma CalledTicks(s: State, ticks: map<Tid, nat>)
    requires Base(s) && Due(s) && Ticks(s.rows, ticks, s.dead)
    ensures Bottom(s.rows)[0] in s.recs && |Called(s).rows| > 0 && Ticks(Called(s).rows, ticks, s.dead)
  {
    hide Rows, Unlinked, Left;
    RemovedHead(s);
  }
}
