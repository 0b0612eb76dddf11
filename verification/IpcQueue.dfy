/** Queues of suspended threads: rt_ipc_list_suspend, resume and resume_all.
    Rings are sequences here; module Ring shows that the list primitives act on
    rings as these sequence operations do. */
module IpcQueue {
  import opened Words

  /** Names a thread; the timer modules use the same queues for timers. */
  datatype Tid = Tid(id: nat)

  datatype Flag = FIFO | PRIO

  /** The error codes of IPC calls and of threads. */
  datatype Err = EOK | ERROR | ETIMEOUT | EFULL

  /** Smaller numbers are more urgent. */
  type Priorities = map<Tid, nat>

  function Prio(p: Priorities, t: Tid): nat {
    if t in p then p[t] else 0
  }

  /** Position at which t joins the queue: the end, or in front of the first
      thread that is less urgent. */
  function Place(q: seq<Tid>, t: Tid, flag: Flag, p: Priorities): (k: nat)
    ensures k <= |q|
  {
    if q == [] || flag.FIFO? then |q|
    else if Prio(p, t) < Prio(p, q[0]) then 0
    else 1 + Place(q[1..], t, flag, p)
  }

  function Joined(q: seq<Tid>, t: Tid, flag: Flag, p: Priorities): seq<Tid> {
    var k := Place(q, t, flag, p); q[..k] + [t] + q[k..]
  }

  /** Most urgent first. */
  ghost predicate Sorted(q: seq<Tid>, p: Priorities) {
    forall i, j :: 0 <= i < j < |q| ==> Prio(p, q[i]) <= Prio(p, q[j])
  }

  lemma {:induction false} PlaceMeaning(q: seq<Tid>, t: Tid, p: Priorities)
    requires Sorted(q, p)
    ensures var k := Place(q, t, PRIO, p);
      && (forall i :: 0 <= i < k ==> Prio(p, q[i]) <= Prio(p, t))
      && (forall i :: k <= i < |q| ==> Prio(p, t) < Prio(p, q[i]))
  {
    if q != [] && Prio(p, t) >= Prio(p, q[0]) {
      PlaceMeaning(q[1..], t, p);
      var k := Place(q, t, PRIO, p);
      assert forall i :: 1 <= i < |q| ==> q[i] == q[1..][i - 1];
    }
  }

  /** A priority queue stays sorted. */
  lemma JoinedSorted(q: seq<Tid>, t: Tid, p: Priorities)
    requires Sorted(q, p)
    ensures Sorted(Joined(q, t, PRIO, p), p)
  {
    PlaceMeaning(q, t, p);
  }

  /** t goes behind all that are as urgent, and the others keep their order. */
  lemma JoinedBehind(q: seq<Tid>, t: Tid, p: Priorities) returns (k: nat)
    requires Sorted(q, p)
    ensures k <= |q| && Joined(q, t, PRIO, p) == q[..k] + [t] + q[k..]
    ensures (forall x :: x in q[..k] ==> Prio(p, x) <= Prio(p, t)) && (forall x :: x in q[k..] ==> Prio(p, t) < Prio(p, x))
  {
    k := Place(q, t, PRIO, p);
    PlaceMeaning(q, t, p);
  }

  lemma JoinedIn(q: seq<Tid>, t: Tid, flag: Flag, p: Priorities)
    ensures forall x :: x in Joined(q, t, flag, p) <==> x in q || x == t
    ensures NoDup(q) && t !in q ==> NoDup(Joined(q, t, flag, p))
    ensures |Joined(q, t, flag, p)| == |q| + 1
  {
    var k := Place(q, t, flag, p);
    assert q == q[..k] + q[k..];
  }

  /** The head leaves its ring when it is resumed. */
  lemma HeadLeaves(q: seq<Tid>, p: Priorities)
    requires q != [] && NoDup(q)
    ensures NoDup(q[1..]) && q[0] !in q[1..] && forall x :: x in q[1..] ==> x in q
    ensures Sorted(q, p) ==> Sorted(q[1..], p) && forall x :: x in q ==> Prio(p, q[0]) <= Prio(p, x)
  {
    assert q == [q[0]] + q[1..];
  }

  /** q without t, which leaves its ring when it times out. */
  function Left(q: seq<Tid>, t: Tid): seq<Tid> {
    if q == [] then [] else if q[0] == t then q[1..] else [q[0]] + Left(q[1..], t)
  }

  /** A queue by arrival: the newcomer is last. */
  lemma JoinedFifo(q: seq<Tid>, t: Tid, p: Priorities)
    ensures Joined(q, t, FIFO, p) == q + [t]
  {
  }

  /** The others keep their order when one leaves. */
  lemma {:induction false} LeftParts(a: seq<Tid>, t: Tid, b: seq<Tid>)
    requires t !in a
    ensures Left(a + [t] + b, t) == a + b
    decreases a
  {
    var q := a + [t] + b;
    if a == [] {
      assert q[1..] == b && a + b == b;
    } else {
      assert q[1..] == a[1..] + [t] + b;
      LeftParts(a[1..], t, b);
      assert a == [a[0]] + a[1..];
    }
  }

  lemma {:induction false} LeftIn(q: seq<Tid>, t: Tid)
    requires NoDup(q)
    ensures NoDup(Left(q, t)) && forall x :: x in Left(q, t) <==> x in q && x != t
    ensures |Left(q, t)| == if t in q then |q| - 1 else |q|
  {
    if q != [] {
      assert q == [q[0]] + q[1..];
      LeftIn(q[1..], t);
      assert q[0] !in q[1..] && q[0] !in Left(q[1..], t);
    }
  }

  lemma {:induction false} LeftSorted(q: seq<Tid>, t: Tid, p: Priorities)
    requires Sorted(q, p)
    ensures Sorted(Left(q, t), p) && forall x :: x in Left(q, t) ==> x in q
  {
    if q != [] && q[0] != t {
      LeftSorted(q[1..], t, p);
      assert forall x :: x in q[1..] ==> x in q;
      assert forall x :: x in q ==> Prio(p, q[0]) <= Prio(p, x);
    }
  }

  /** The search loop of rt_ipc_list_suspend. */
  method Suspend(q: seq<Tid>, t: Tid, flag: Flag, p: Priorities) returns (r: seq<Tid>)
    ensures r == Joined(q, t, flag, p)
  {
    if flag.FIFO? {
      return q + [t];
    }
    var n := 0;
    while n < |q| && Prio(p, t) >= Prio(p, q[n])
      invariant 0 <= n <= |q|
      invariant Place(q, t, flag, p) == n + Place(q[n..], t, flag, p)
    {
      assert q[n..][1..] == q[n + 1..];
      n := n + 1;
    }
    r := q[..n] + [t] + q[n..];
  }

  /** rt_ipc_list_resume_all on a reset: every waiter fails. */
  function FailAll(f: map<Tid, Err>, q: seq<Tid>): map<Tid, Err>
    decreases q
  {
    if q == [] then f else FailAll(f[q[0] := ERROR], q[1..])
  }

  lemma {:induction false} FailAllIn(f: map<Tid, Err>, q: seq<Tid>)
    ensures forall t :: t in FailAll(f, q) <==> t in f || t in q
    ensures forall t :: t in q ==> FailAll(f, q)[t] == ERROR
    ensures forall t :: t in f && t !in q ==> FailAll(f, q)[t] == f[t]
    decreases q
  {
    if q != [] {
      FailAllIn(f[q[0] := ERROR], q[1..]);
      assert forall t :: t in q <==> t == q[0] || t in q[1..];
    }
  }

  /** Time left after `elapsed` ticks of waiting. */
  function Remaining(timeout: int, elapsed: nat): int {
    if timeout > 0 then (if timeout < elapsed then 0 else timeout - elapsed) else timeout
  }

  /** The waiting time is used up by the ticks that pass, never below zero; waiting
      forever stays forever, and no waiting stays none. */
  lemma RemainingMeaning(timeout: int, elapsed: nat)
    ensures timeout > 0 && elapsed <= timeout ==> Remaining(timeout, elapsed) + elapsed == timeout
    ensures timeout > 0 && elapsed > timeout ==> Remaining(timeout, elapsed) == 0
    ensures timeout <= 0 ==> Remaining(timeout, elapsed) == timeout
  {
  }
}
