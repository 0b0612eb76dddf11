/** Event objects: sets of 32 bits that threads wait on. Sending walks the queue
    of waiting threads once while receivers with the CLEAR option shrink the set
    under the walk. */
module EventFlags {
  import opened Words
  import opened IpcQueue

  datatype Bit = Bit(number: nat)

  /** A 32-bit event word, as the set of its bits that are 1. */
  type Bits = set<Bit>

  /** What a thread asks for: event_set and event_info. */
  datatype Want = Want(bits: Bits, all: bool, any: bool, clear: bool)

  /** The test made by both rt_event_send and rt_event_recv. */
  predicate Satisfied(w: Want, set0: Bits) {
    if w.all then w.bits * set0 == w.bits else w.any && w.bits * set0 != {}
  }

  /** In terms of bits: all of them are set, or with the OR option some are. */
  lemma SatisfiedMeaning(w: Want, set0: Bits)
    ensures w.all ==> (Satisfied(w, set0) <==> forall b :: b in w.bits ==> b in set0)
    ensures !w.all ==> (Satisfied(w, set0) <==> w.any && exists b :: b in w.bits && b in set0)
  {
    if w.all {
      if Satisfied(w, set0) {
        forall b | b in w.bits ensures b in set0 { assert b in w.bits * set0; }
      }
    } else if exists b :: b in w.bits && b in set0 {
      var b :| b in w.bits && b in set0;
      assert b in w.bits * set0;
    }
  }

  /** An immediate receive: the bits received and the set left behind. */
  function ReceiveNow(w: Want, set0: Bits): (Bits, Bits) {
    (set0 * w.bits, if w.clear then set0 - w.bits else set0)
  }

  /** What rt_event_send stores in a satisfied waiter, and the set it leaves. */
  function Granted(w: Want, set0: Bits): (Bits, Bits) {
    var bits := if w.all then w.bits else w.bits * set0;
    (bits, if w.clear then set0 - bits else set0)
  }

  /** A waiter satisfied by a send gets the same bits, and clears the same bits,
      as if it had received at that moment. */
  lemma GrantIsReceive(w: Want, set0: Bits)
    requires Satisfied(w, set0)
    ensures Granted(w, set0) == ReceiveNow(w, set0)
  {
    assert set0 * w.bits == w.bits * set0;
    assert set0 - w.bits * set0 == set0 - w.bits;
  }

  lemma SmallerSet(w: Want, small: Bits, big: Bits)
    requires small <= big && !Satisfied(w, big)
    ensures !Satisfied(w, small)
  {
    assert w.bits * small <= w.bits * big;
    if w.bits * small == w.bits {
      assert w.bits * big == w.bits;
    }
  }

  // ----- the walk of rt_event_send -----

  /** Result of walking q with the set starting at set0: who stays, the set at
      the end, and what the others got. */
  datatype Walk = Walk(stay: seq<Tid>, set1: Bits, given: map<Tid, Bits>)

  predicate Known(q: seq<Tid>, wants: map<Tid, Want>) {
    forall t <- q :: t in wants
  }

  function Deliver(q: seq<Tid>, wants: map<Tid, Want>, set0: Bits): Walk
    requires Known(q, wants)
    decreases |q|
  {
    if q == [] then Walk([], set0, map[])
    else
      var t := q[0];
      if Satisfied(wants[t], set0) then
        var (bits, set1) := Granted(wants[t], set0);
        var w := Deliver(q[1..], wants, set1);
        w.(given := w.given[t := bits])
      else
        var w := Deliver(q[1..], wants, set0);
        w.(stay := [t] + w.stay)
  }

  /** After the walk nobody stays whose condition holds for the final set, though
      the set shrinks on the way; and everybody either stays or was given
      something. */
  lemma {:induction false} DeliverSettles(q: seq<Tid>, wants: map<Tid, Want>, set0: Bits)
    requires Known(q, wants) && NoDup(q)
    ensures var w := Deliver(q, wants, set0);
      && w.set1 <= set0 && NoDup(w.stay)
      && (forall t :: t in w.stay ==> t in q && t !in w.given && !Satisfied(wants[t], w.set1))
      && (forall t :: t in w.given ==> t in q && t !in w.stay)
      && (forall t :: t in q ==> t in w.stay || t in w.given)
    decreases |q|
  {
    if q == [] {
    } else {
      var t := q[0];
      assert q == [t] + q[1..] && t !in q[1..];
      var set1 := if Satisfied(wants[t], set0) then Granted(wants[t], set0).1 else set0;
      DeliverSettles(q[1..], wants, set1);
      var w := Deliver(q[1..], wants, set1);
      if Satisfied(wants[t], set0) {
      } else {
        SmallerSet(wants[t], w.set1, set0);
      }
    }
  }

  /** What a waiter is given is in the set when the walk starts, and what a CLEAR
      waiter is given is gone when it ends. */
  lemma {:induction false} ConsumedOnce(q: seq<Tid>, wants: map<Tid, Want>, set0: Bits, t: Tid)
    requires Known(q, wants) && NoDup(q) && t in Deliver(q, wants, set0).given
    ensures var w := Deliver(q, wants, set0);
      && t in wants && w.given[t] <= set0
      && (wants[t].clear ==> w.given[t] !! w.set1)
    decreases |q|
  {
    var h := q[0];
    assert q == [h] + q[1..] && h !in q[1..];
    var sat := Satisfied(wants[h], set0);
    var set1 := if sat then Granted(wants[h], set0).1 else set0;
    var w := Deliver(q[1..], wants, set1);
    DeliverSettles(q[1..], wants, set1);
    if t == h {
      GrantIsReceive(wants[h], set0);
    } else {
      ConsumedOnce(q[1..], wants, set1, t);
    }
  }

  /** The walk from the second waiter on, and what the first one leaves. */
  lemma DeliverTail(q: seq<Tid>, wants: map<Tid, Want>, set0: Bits) returns (set1: Bits)
    requires Known(q, wants) && NoDup(q) && q != []
    ensures Known(q[1..], wants) && NoDup(q[1..])
    ensures var w, v := Deliver(q, wants, set0).given, Deliver(q[1..], wants, set1).given;
      && (forall t :: t != q[0] ==> (t in w <==> t in v) && (t in w ==> w[t] == v[t]))
      && (q[0] in w && wants[q[0]].clear ==> w[q[0]] !! set1)
    ensures Deliver(q, wants, set0).set1 == Deliver(q[1..], wants, set1).set1
    ensures q[0] !in Deliver(q[1..], wants, set1).given
    ensures var w := Deliver(q, wants, set0).given;
      forall b :: b in set0 && b !in set1 ==> q[0] in w && wants[q[0]].clear && b in w[q[0]]
  {
    hide Satisfied;
    assert q == [q[0]] + q[1..] && q[0] !in q[1..];
    set1 := if Satisfied(wants[q[0]], set0) then Granted(wants[q[0]], set0).1 else set0;
    DeliverSettles(q[1..], wants, set1);
  }

  /** No bit is consumed twice: what a CLEAR waiter takes, nobody behind it gets. */
  lemma {:induction false} ConsumedApart(q: seq<Tid>, wants: map<Tid, Want>, set0: Bits, i: nat, j: nat)
    requires Known(q, wants) && NoDup(q) && i < j < |q|
    requires var w := Deliver(q, wants, set0); q[i] in w.given && q[j] in w.given && wants[q[i]].clear
    ensures Deliver(q, wants, set0).given[q[i]] !! Deliver(q, wants, set0).given[q[j]]
    decreases |q|
  {
    hide Deliver;
    var set1 := DeliverTail(q, wants, set0);
    assert q[j] == q[1..][j - 1] && q[j] != q[0];
    if i == 0 {
      ConsumedOnce(q[1..], wants, set1, q[j]);
    } else {
      assert q[i] == q[1..][i - 1] && q[i] != q[0];
      ConsumedApart(q[1..], wants, set1, i - 1, j - 1);
    }
  }

  /** Bit b went to a CLEAR waiter. */
  ghost predicate Consumed(given: map<Tid, Bits>, wants: map<Tid, Want>, b: Bit) {
    exists t :: t in given && t in wants && wants[t].clear && b in given[t]
  }

  /** No bit gets lost: it is still in the set, or a CLEAR waiter has it. */
  lemma {:induction false} DeliverConserves(q: seq<Tid>, wants: map<Tid, Want>, set0: Bits, b: Bit)
    requires Known(q, wants) && NoDup(q) && b in set0
    ensures var w := Deliver(q, wants, set0); b in w.set1 || Consumed(w.given, wants, b)
    decreases |q|
  {
    hide Deliver, NoDup;
    if q == [] {
      NobodyWaits(wants, set0);
    } else {
      var set1 := DeliverTail(q, wants, set0);
      var w, v := Deliver(q, wants, set0), Deliver(q[1..], wants, set1);
      if b in set1 {
        DeliverConserves(q[1..], wants, set1, b);
        if Consumed(v.given, wants, b) {
          var t :| t in v.given && t in wants && wants[t].clear && b in v.given[t];
          assert t in w.given && w.given[t] == v.given[t];
        }
      }
    }
  }

  lemma NobodyWaits(wants: map<Tid, Want>, set0: Bits)
    ensures Deliver([], wants, set0).set1 == set0
  {
  }

  /** What a served waiter is given meets its own condition and is nothing else. */
  lemma {:induction false} GivenMeaning(q: seq<Tid>, wants: map<Tid, Want>, set0: Bits, t: Tid)
    requires Known(q, wants) && NoDup(q) && t in Deliver(q, wants, set0).given
    ensures var g := Deliver(q, wants, set0).given[t];
      t in wants && g <= wants[t].bits && (if wants[t].all then wants[t].bits <= g else wants[t].any && g != {})
    decreases |q|
  {
    assert q == [q[0]] + q[1..] && q[0] !in q[1..];
    var set1 := if Satisfied(wants[q[0]], set0) then Granted(wants[q[0]], set0).1 else set0;
    DeliverSettles(q[1..], wants, set1);
    if t != q[0] { GivenMeaning(q[1..], wants, set1, t); }
  }

  /** The threads of q that were given nothing, in their order. */
  function Unserved(q: seq<Tid>, given: map<Tid, Bits>): seq<Tid> {
    if q == [] then [] else (if q[0] in given then [] else [q[0]]) + Unserved(q[1..], given)
  }

  lemma {:induction false} UnservedFrame(q: seq<Tid>, g1: map<Tid, Bits>, g2: map<Tid, Bits>)
    requires forall t :: t in q ==> (t in g1 <==> t in g2)
    ensures Unserved(q, g1) == Unserved(q, g2)
    decreases q
  {
    if q != [] {
      assert forall t :: t in q[1..] ==> t in q;
      UnservedFrame(q[1..], g1, g2);
    }
  }

  /** Those who stay keep their order. */
  lemma {:induction false} StayInOrder(q: seq<Tid>, wants: map<Tid, Want>, set0: Bits)
    requires Known(q, wants) && NoDup(q)
    ensures var w := Deliver(q, wants, set0); w.stay == Unserved(q, w.given)
    decreases |q|
  {
    hide Satisfied, Granted;
    if q != [] {
      assert q == [q[0]] + q[1..] && q[0] !in q[1..];
      var set1 := if Satisfied(wants[q[0]], set0) then Granted(wants[q[0]], set0).1 else set0;
      DeliverSettles(q[1..], wants, set1);
      StayInOrder(q[1..], wants, set1);
      UnservedFrame(q[1..], Deliver(q, wants, set0).given, Deliver(q[1..], wants, set1).given);
    }
  }

  /** Reference: every thread of q in turn tries an immediate rt_event_recv. */
  function Turns(q: seq<Tid>, wants: map<Tid, Want>, set0: Bits): Walk
    requires Known(q, wants)
    decreases |q|
  {
    if q == [] then Walk([], set0, map[])
    else if Satisfied(wants[q[0]], set0) then
      var w := Turns(q[1..], wants, ReceiveNow(wants[q[0]], set0).1);
      w.(given := w.given[q[0] := ReceiveNow(wants[q[0]], set0).0])
    else
      var w := Turns(q[1..], wants, set0);
      w.(stay := [q[0]] + w.stay)
  }

  /** A send serves its waiters exactly as if each had received at its turn. */
  lemma {:induction false} SendIsReceives(q: seq<Tid>, wants: map<Tid, Want>, set0: Bits)
    requires Known(q, wants)
    ensures Deliver(q, wants, set0) == Turns(q, wants, set0)
    decreases |q|
  {
    if q != [] {
      if Satisfied(wants[q[0]], set0) {
        GrantIsReceive(wants[q[0]], set0);
        SendIsReceives(q[1..], wants, Granted(wants[q[0]], set0).1);
      } else {
        SendIsReceives(q[1..], wants, set0);
      }
    }
  }

  /** State of the walk at position n: w is what it will have done at its end. */
  ghost predicate Walking(q: seq<Tid>, n: int, wants: map<Tid, Want>, set1: Bits, given: map<Tid, Bits>, w: Walk) {
    && 0 <= n <= |q| && Known(q, wants) && NoDup(q)
    && Known(q[n..], wants)
    && var d := Deliver(q[n..], wants, set1);
       w.stay == q[..n] + d.stay && w.set1 == d.set1 && given + d.given == w.given
  }

  lemma Unlinked(q: seq<Tid>, n: int)
    requires 0 <= n < |q| && NoDup(q)
    ensures var r := q[..n] + q[n + 1..];
      NoDup(r) && r[..n] == q[..n] && r[n..] == q[n..][1..] && NoDup(r[n..])
    ensures q[n] !in q[n..][1..] && forall x :: x in q[..n] + q[n + 1..] ==> x in q
  {
  }

  lemma MergeLater(g: map<Tid, Bits>, e: map<Tid, Bits>, t: Tid, v: Bits)
    requires t !in e
    ensures g[t := v] + e == g + e[t := v]
  {
  }

  lemma WalkGrants(q: seq<Tid>, n: int, wants: map<Tid, Want>, set1: Bits, given: map<Tid, Bits>, w: Walk)
    requires Walking(q, n, wants, set1, given, w) && n < |q| && Satisfied(wants[q[n]], set1)
    ensures var r := Granted(wants[q[n]], set1);
      Walking(q[..n] + q[n + 1..], n, wants, r.1, given[q[n] := r.0], w)
  {
    hide Satisfied, Granted;
    Unlinked(q, n);
    hide NoDup;
    var rest, r, q1 := q[n..], Granted(wants[q[n]], set1), q[..n] + q[n + 1..];
    assert Known(q1, wants) && Known(rest[1..], wants);
    var e := Deliver(rest[1..], wants, r.1);
    assert q[n] !in e.given by { DeliverSettles(rest[1..], wants, r.1); }
    MergeLater(given, e.given, q[n], r.0);
    assert Deliver(rest, wants, set1) == e.(given := e.given[q[n] := r.0]);
    assert q1[n..] == rest[1..];
  }

  lemma WalkPasses(q: seq<Tid>, n: int, wants: map<Tid, Want>, set1: Bits, given: map<Tid, Bits>, w: Walk)
    requires Walking(q, n, wants, set1, given, w) && n < |q| && !Satisfied(wants[q[n]], set1)
    ensures Walking(q, n + 1, wants, set1, given, w)
  {
    assert q[n..][1..] == q[n + 1..];
    assert q[..n + 1] == q[..n] + [q[n]];
  }

  /** The walk over the ring of waiters, which unlinks nodes as it goes. */
  method WalkQueue(q0: seq<Tid>, wants: map<Tid, Want>, set0: Bits)
    returns (q: seq<Tid>, set1: Bits, given: map<Tid, Bits>)
    requires Known(q0, wants) && NoDup(q0)
    ensures Walk(q, set1, given) == Deliver(q0, wants, set0)
  {
    hide NoDup, Granted, Satisfied;
    q, set1, given := q0, set0, map[];
    var n := 0;
    ghost var w := Deliver(q0, wants, set0);
    assert q[0..] == q0 && q[..0] == [] && given + w.given == w.given;
    while n < |q|
      invariant Walking(q, n, wants, set1, given, w)
      decreases |q| - n
    {
      var t := q[n];
      if Satisfied(wants[t], set1) {
        WalkGrants(q, n, wants, set1, given, w);
        var r := Granted(wants[t], set1);
        q, set1, given := q[..n] + q[n + 1..], r.1, given[t := r.0];
      } else {
        WalkPasses(q, n, wants, set1, given, w);
        n := n + 1;
      }
    }
    assert q[n..] == [] && q[..n] == q && given + map[] == given;
  }

  // ----- the object as a step machine -----

  /** `given` are the threads resumed with an event that have not run yet. */
  datatype Ev = Ev(set0: Bits, flag: Flag, prio: Priorities, q: seq<Tid>, wants: map<Tid, Want>,
                   waits: map<Tid, int>, given: map<Tid, Bits>, failed: map<Tid, Err>)

  predicate Idle(s: Ev, t: Tid) {
    t !in s.q && t !in s.given && t !in s.failed
  }

  datatype Event =
    | Send(bits: Bits)
    | Recv(t: Tid, w: Want, timeout: int)
    | Return(t: Tid)
    | Timeout(t: Tid)
    | Reset

  predicate Enabled(s: Ev, e: Event) {
    match e
    case Send(_) => Known(s.q, s.wants)
    case Recv(t, w, _) => Idle(s, t) && (w.all || w.any)
    case Return(t) => t in s.given || t in s.failed
    case Timeout(t) => t in s.q && t in s.waits && s.waits[t] > 0
    case Reset => true
  }

  function Sent(s: Ev, bits: Bits): Ev
    requires Known(s.q, s.wants)
  {
    if bits == {} then s else
    var w := Deliver(s.q, s.wants, s.set0 + bits);
    s.(set0 := w.set1, q := w.stay, given := s.given + w.given)
  }

  /** rt_event_recv up to its return or its call of the scheduler. */
  function Received(s: Ev, t: Tid, w: Want, timeout: int): Ev {
    if w.bits == {} then s
    else if Satisfied(w, s.set0) then s.(set0 := ReceiveNow(w, s.set0).1)
    else if timeout == 0 then s
    else s.(q := Joined(s.q, t, s.flag, s.prio), wants := s.wants[t := w], waits := s.waits[t := timeout])
  }

  function Step(s: Ev, e: Event): Ev
    requires Enabled(s, e)
  {
    match e
    case Send(bits) => Sent(s, bits)
    case Recv(t, w, timeout) => Received(s, t, w, timeout)
    case Return(t) => s.(given := s.given - {t}, failed := s.failed - {t})
    case Timeout(t) => s.(q := Left(s.q, t), failed := s.failed[t := ETIMEOUT])
    case Reset => s.(q := [], set0 := {}, failed := FailAll(s.failed, s.q))
  }

  /** No satisfied waiter is left asleep. */
  ghost predicate Inv(s: Ev) {
    && NoDup(s.q) && Known(s.q, s.wants)
    && (forall t :: t in s.q ==> !Satisfied(s.wants[t], s.set0))
    && (forall t :: t in s.q ==> t !in s.given && t !in s.failed)
    && (s.flag.PRIO? ==> Sorted(s.q, s.prio))
  }

  lemma {:induction false} StaySorted(q: seq<Tid>, wants: map<Tid, Want>, set0: Bits, p: Priorities)
    requires Known(q, wants) && Sorted(q, p)
    ensures var w := Deliver(q, wants, set0); Sorted(w.stay, p) && forall t :: t in w.stay ==> t in q
    decreases |q|
  {
    if q != [] {
      var set1 := if Satisfied(wants[q[0]], set0) then Granted(wants[q[0]], set0).1 else set0;
      StaySorted(q[1..], wants, set1, p);
      assert forall t :: t in q[1..] ==> t in q && Prio(p, q[0]) <= Prio(p, t);
    }
  }

  lemma SentInv(s: Ev, bits: Bits)
    requires Inv(s)
    ensures Inv(Sent(s, bits))
  {
    DeliverSettles(s.q, s.wants, s.set0 + bits);
    if s.flag.PRIO? { StaySorted(s.q, s.wants, s.set0 + bits, s.prio); }
  }

  /** A waiter's condition in terms of bits. */
  ghost predicate Holds(w: Want, set0: Bits) {
    if w.all then forall b :: b in w.bits ==> b in set0 else w.any && exists b :: b in w.bits && b in set0
  }

  lemma HoldsSatisfied(w: Want, set0: Bits)
    ensures Holds(w, set0) <==> Satisfied(w, set0)
  {
    SatisfiedMeaning(w, set0);
  }

  /** Thread t left the queue with bit b, which it clears. */
  ghost predicate TookBit(s: Ev, r: Ev, t: Tid, b: Bit) {
    t in s.q && t !in r.q && t in s.wants && s.wants[t].clear && t in r.given && b in r.given[t]
  }

  /** Thread t was given what it waits for, out of the bits in set0. */
  ghost predicate Fulfilled(s: Ev, r: Ev, t: Tid, set0: Bits) {
    t in s.wants && t in r.given && r.given[t] <= s.wants[t].bits && r.given[t] <= set0 && Holds(s.wants[t], r.given[t])
  }

  /** r follows s when bits are added: no bit of the sum is lost, a bit that is gone
      went to a CLEAR waiter that left the queue; a satisfied waiter at the head
      leaves; who leaves was given what it waits for; the others keep their order. */
  ghost predicate Delivers(s: Ev, bits: Bits, r: Ev)
    requires Known(s.q, s.wants)
  {
    && r.set0 <= s.set0 + bits
    && (forall b :: b in s.set0 + bits ==> b in r.set0 || exists t :: TookBit(s, r, t, b))
    && (s.q != [] && Holds(s.wants[s.q[0]], s.set0 + bits) ==> s.q[0] !in r.q)
    && (forall t :: t in s.q ==> t in r.q || Fulfilled(s, r, t, s.set0 + bits))
    && r.q == Unserved(s.q, r.given)
    && (forall t :: t in s.given ==> t in r.given && r.given[t] == s.given[t]) && r.failed == s.failed
  }

  lemma SentMeaning(s: Ev, bits: Bits)
    requires Inv(s)
    ensures Delivers(s, bits, Sent(s, bits))
  {
    if bits == {} {
      assert s.set0 + bits == s.set0;
      AllWait(s.q, s.given);
      if s.q != [] { SatisfiedMeaning(s.wants[s.q[0]], s.set0); }
    } else {
      SentMore(s, bits);
    }
  }

  lemma {:induction false} AllWait(q: seq<Tid>, given: map<Tid, Bits>)
    requires forall t :: t in q ==> t !in given
    ensures Unserved(q, given) == q
    decreases q
  {
    if q != [] {
      assert forall t :: t in q[1..] ==> t in q;
      AllWait(q[1..], given);
    }
  }

  lemma SentMore(s: Ev, bits: Bits)
    requires Inv(s) && bits != {}
    ensures Delivers(s, bits, Sent(s, bits))
  {
    hide NoDup, Satisfied, Deliver, Granted, Holds;
    var set1 := s.set0 + bits;
    var w, r := Deliver(s.q, s.wants, set1), Sent(s, bits);
    DeliverSettles(s.q, s.wants, set1);
    forall b | b in set1 ensures b in r.set0 || exists t :: TookBit(s, r, t, b) {
      DeliverConserves(s.q, s.wants, set1, b);
      if b !in r.set0 {
        var t :| t in w.given && t in s.wants && s.wants[t].clear && b in w.given[t];
        assert TookBit(s, r, t, b);
      }
    }
    forall t | t in s.q && t !in r.q ensures Fulfilled(s, r, t, set1) {
      assert t in w.given && r.given[t] == w.given[t];
      GivenMeaning(s.q, s.wants, set1, t);
      ConsumedOnce(s.q, s.wants, set1, t);
      HoldsGiven(s.wants[t], r.given[t]);
    }
    if s.q != [] && Holds(s.wants[s.q[0]], set1) { HeadServed(s.q, s.wants, set1); }
    StayInOrder(s.q, s.wants, set1);
    UnservedFrame(s.q, w.given, r.given);
  }

  lemma HoldsGiven(w: Want, g: Bits)
    requires g <= w.bits && (if w.all then w.bits <= g else w.any && g != {})
    ensures Holds(w, g)
  {
    if !w.all {
      var b :| b in g;
      assert b in w.bits && b in g;
    }
  }

  lemma HeadServed(q: seq<Tid>, wants: map<Tid, Want>, set0: Bits)
    requires Known(q, wants) && NoDup(q) && q != [] && Holds(wants[q[0]], set0)
    ensures q[0] !in Deliver(q, wants, set0).stay
  {
    SatisfiedMeaning(wants[q[0]], set0);
    DeliverSettles(q, wants, set0);
    hide NoDup, Satisfied;
  }

  /** A receive takes bits only with the CLEAR option and only when its condition
      holds; otherwise it gives up at once, or joins the queue with its wish. */
  lemma ReceivedMeaning(s: Ev, t: Tid, w: Want, timeout: int)
    requires w.bits != {}
    ensures var r := Received(s, t, w, timeout);
      && (Holds(w, s.set0) ==> r.q == s.q && r.wants == s.wants)
      && (Holds(w, s.set0) ==> forall b :: b in r.set0 <==> b in s.set0 && !(w.clear && b in w.bits))
      && (!Holds(w, s.set0) ==> r.set0 == s.set0)
      && (!Holds(w, s.set0) && timeout == 0 ==> r == s)
      && (!Holds(w, s.set0) && timeout != 0 ==> t in r.q && t in r.wants && r.wants[t] == w && r.waits == s.waits[t := timeout])
      && r.given == s.given && r.failed == s.failed
  {
    SatisfiedMeaning(w, s.set0);
    JoinedIn(s.q, t, s.flag, s.prio);
  }

  /** A timeout and a reset take waiters off the queue with their error codes. */
  lemma FailMeaning(s: Ev, t: Tid)
    requires t in s.q && t in s.waits && s.waits[t] > 0 && NoDup(s.q)
    ensures var r := Step(s, Timeout(t));
      && (forall u :: u in r.q <==> u in s.q && u != t) && r.failed == s.failed[t := ETIMEOUT] && r.set0 == s.set0
    ensures var r := Step(s, Reset);
      && r.q == [] && r.set0 == {} && r.given == s.given
      && forall u :: u in s.q ==> u in r.failed && r.failed[u] == ERROR
  {
    LeftIn(s.q, t);
    FailAllIn(s.failed, s.q);
  }

  lemma ReceivedInv(s: Ev, t: Tid, w: Want, timeout: int)
    requires Inv(s) && Idle(s, t)
    ensures Inv(Received(s, t, w, timeout))
  {
    if w.bits != {} && Satisfied(w, s.set0) {
      var set1 := ReceiveNow(w, s.set0).1;
      forall x | x in s.q ensures !Satisfied(s.wants[x], set1) { SmallerSet(s.wants[x], set1, s.set0); }
    } else if w.bits != {} && timeout != 0 {
      JoinedIn(s.q, t, s.flag, s.prio);
      if s.flag.PRIO? { JoinedSorted(s.q, t, s.prio); }
    }
  }

  lemma StepInv(s: Ev, e: Event)
    requires Inv(s) && Enabled(s, e)
    ensures Inv(Step(s, e))
  {
    match e
    case Send(bits) => SentInv(s, bits);
    case Recv(t, w, timeout) => ReceivedInv(s, t, w, timeout);
    case Return(t) =>
    case Timeout(t) =>
      LeftIn(s.q, t);
      if s.flag.PRIO? { LeftSorted(s.q, t, s.prio); }
    case Reset =>
  }

  ghost predicate Reaches(s: Ev, es: seq<Event>, r: Ev)
    decreases es
  {
    if es == [] then r == s else Enabled(s, es[0]) && Reaches(Step(s, es[0]), es[1..], r)
  }

  /** In every state that any interleaving reaches, no queued thread's condition
      holds for the current event set. */
  lemma {:induction false} RunsSafe(s: Ev, es: seq<Event>, r: Ev)
    requires Inv(s) && Reaches(s, es, r)
    ensures Inv(r) && forall t :: t in r.q ==> t in r.wants && !Satisfied(r.wants[t], r.set0)
    decreases es
  {
    if es != [] {
      StepInv(s, es[0]);
      RunsSafe(Step(s, es[0]), es[1..], r);
    }
  }

  // ----- the object -----

  class EventObject {
    var set0: Bits
    const flag: Flag
    const prio: Priorities
    var q: seq<Tid>
    var wants: map<Tid, Want>
    var waits: map<Tid, int>
    var given: map<Tid, Bits>
    var failed: map<Tid, Err>

    ghost function Now(): Ev
      reads this
    {
      Ev(set0, flag, prio, q, wants, waits, given, failed)
    }

    constructor (flag: Flag, prio: Priorities)
      ensures Now() == Ev({}, flag, prio, [], map[], map[], map[], map[]) && Inv(Now())
    {
      this.flag, this.prio, set0 := flag, prio, {};
      q, wants, waits, given, failed := [], map[], map[], map[], map[];
    }

    /** rt_event_send: one walk over the queue, removing as it goes. */
    method SendBits(bits: Bits) returns (ok: bool)
      requires Inv(Now())
      modifies this
      ensures ok == (bits != {}) && Now() == Sent(old(Now()), bits) && Inv(Now())
      ensures Known(old(q), old(wants)) && Delivers(old(Now()), bits, Now())
    {
      SentInv(Now(), bits);
      SentMeaning(Now(), bits);
      ok := bits != {};
      if !ok { return; }
      set0 := set0 + bits;
      var got;
      q, set0, got := WalkQueue(q, wants, set0);
      given := given + got;
    }

    /** rt_event_recv: an immediate success returns the bits. */
    method Receive(t: Tid, w: Want, timeout: int) returns (ok: bool, bits: Bits)
      requires Inv(Now()) && Idle(Now(), t) && (w.all || w.any)
      modifies this
      ensures Now() == Received(old(Now()), t, w, timeout) && Inv(Now())
      ensures ok == (w.bits != {} && Holds(w, old(set0)))
      ensures ok ==> forall b :: b in bits <==> b in old(set0) && b in w.bits
    {
      hide Inv, Holds, NoDup, Joined, Idle;
      ReceivedInv(Now(), t, w, timeout);
      HoldsSatisfied(w, set0);
      ok, bits := false, {};
      if w.bits == {} { return; }
      if w.all {
        ok := w.bits * set0 == w.bits;
      } else if w.any {
        ok := w.bits * set0 != {};
      }
      if ok {
        bits := set0 * w.bits;
        if w.clear { set0 := set0 - w.bits; }
      } else if timeout != 0 {
        wants, waits := wants[t := w], waits[t := timeout];
        q := Suspend(q, t, flag, prio);
      }
    }
  }
}
