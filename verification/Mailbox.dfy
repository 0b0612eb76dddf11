/** Mailboxes as a step machine: every interrupt-disabled region of send, receive,
    timeout and reset is one step, and steps of all threads interleave freely. */
module Mailbox {
  import opened Words
  import opened IpcQueue

  // ----- the buffer -----

  datatype Box = Box(size: nat, pool: seq<int>, entry: nat, inOff: nat, outOff: nat)

  function Bump(off: nat, size: nat): nat {
    if off + 1 >= size then 0 else off + 1
  }

  predicate Ringed(b: Box) {
    && b.size <= |b.pool| && b.entry <= b.size
    && (b.size == 0 ==> b.inOff == b.outOff == 0)
    && (b.size > 0 ==> b.outOff < b.size)
    && (b.size > 0 ==> b.inOff == if b.outOff + b.entry < b.size then b.outOff + b.entry else b.outOff + b.entry - b.size)
  }

  function Stored(b: Box, v: int): Box
    requires b.inOff < |b.pool|
  {
    b.(pool := b.pool[b.inOff := v], inOff := Bump(b.inOff, b.size), entry := b.entry + 1)
  }

  function Fetched(b: Box): Box
    requires b.entry > 0
  {
    b.(outOff := Bump(b.outOff, b.size), entry := b.entry - 1)
  }

  /** The mails in the box, oldest first. */
  function Contents(b: Box): (c: seq<int>)
    requires Ringed(b)
    ensures |c| == b.entry
  {
    seq(b.entry, i requires 0 <= i < b.entry => b.pool[Slot(b, i)])
  }

  /** Where the i-th oldest mail lies. */
  function Slot(b: Box, i: nat): (k: nat)
    requires Ringed(b) && i < b.entry
    ensures k < b.size
  {
    if b.outOff + i < b.size then b.outOff + i else b.outOff + i - b.size
  }

  /** The buffer is a first-in first-out queue. */
  lemma StoredContents(b: Box, v: int)
    requires Ringed(b) && b.entry < b.size
    ensures Ringed(Stored(b, v)) && Contents(Stored(b, v)) == Contents(b) + [v]
  {
    var b2 := Stored(b, v);
    forall i | 0 <= i < b2.entry ensures Contents(b2)[i] == (Contents(b) + [v])[i] {
      if i < b.entry {
        assert Slot(b2, i) == Slot(b, i) != b.inOff;
      } else {
        assert Slot(b2, i) == b.inOff;
      }
    }
  }

  lemma FetchedContents(b: Box)
    requires Ringed(b) && b.entry > 0
    ensures Ringed(Fetched(b)) && Contents(b) == [b.pool[b.outOff]] + Contents(Fetched(b))
  {
    var b2 := Fetched(b);
    forall i | 0 <= i < b2.entry ensures Contents(b2)[i] == Contents(b)[i + 1] {
      assert Slot(b2, i) == Slot(b, i + 1);
    }
  }

  // ----- the threads -----

  /** recvQ and sendQ are the suspended receivers and senders. wokenR and wokenS
      are those resumed with no error that have not run yet; `failed` are those
      resumed with one. mails and waits hold what a blocked call has on its
      stack: the mail to send, and the waiting time left (negative: forever). */
  datatype Threads = Threads(recvQ: seq<Tid>, sendQ: seq<Tid>, wokenR: set<Tid>, wokenS: set<Tid>,
                             failed: map<Tid, Err>, mails: map<Tid, int>, waits: map<Tid, int>)

  predicate Idle(h: Threads, t: Tid) {
    t !in h.recvQ && t !in h.sendQ && t !in h.wokenR && t !in h.wokenS && t !in h.failed
  }

  /** A thread is in at most one place. */
  ghost predicate Placed(h: Threads) {
    && NoDup(h.recvQ) && NoDup(h.sendQ)
    && (forall t :: t in h.recvQ ==> t !in h.sendQ && t !in h.wokenR && t !in h.wokenS && t !in h.failed)
    && (forall t :: t in h.sendQ ==> t !in h.wokenR && t !in h.wokenS && t !in h.failed)
    && (forall t :: t in h.wokenR ==> t !in h.wokenS && t !in h.failed)
    && (forall t :: t in h.wokenS ==> t !in h.failed)
    && (forall t :: t in h.sendQ || t in h.wokenS ==> t in h.mails && t in h.waits)
    && (forall t :: t in h.recvQ || t in h.wokenR ==> t in h.waits)
  }

  ghost predicate Ordered(h: Threads, flag: Flag, prio: Priorities) {
    flag.PRIO? ==> Sorted(h.recvQ, prio) && Sorted(h.sendQ, prio)
  }

  /** rt_ipc_list_resume on the receivers. */
  function WakeReceiver(h: Threads): Threads {
    if h.recvQ == [] then h else h.(recvQ := h.recvQ[1..], wokenR := h.wokenR + {h.recvQ[0]})
  }

  function WakeSender(h: Threads): Threads {
    if h.sendQ == [] then h else h.(sendQ := h.sendQ[1..], wokenS := h.wokenS + {h.sendQ[0]})
  }

  function JoinReceivers(h: Threads, t: Tid, timeout: int, flag: Flag, prio: Priorities): Threads {
    h.(recvQ := Joined(h.recvQ, t, flag, prio), waits := h.waits[t := timeout])
  }

  function JoinSenders(h: Threads, t: Tid, v: int, timeout: int, flag: Flag, prio: Priorities): Threads {
    h.(sendQ := Joined(h.sendQ, t, flag, prio), mails := h.mails[t := v], waits := h.waits[t := timeout])
  }

  /** rt_thread_timeout for a thread queued here. */
  function Expired(h: Threads, t: Tid): Threads {
    h.(recvQ := Left(h.recvQ, t), sendQ := Left(h.sendQ, t), failed := h.failed[t := ETIMEOUT])
  }

  /** rt_ipc_list_resume_all on both lists. */
  function Flushed(h: Threads): Threads {
    h.(recvQ := [], sendQ := [], failed := FailAll(FailAll(h.failed, h.recvQ), h.sendQ))
  }

  lemma WakeReceiverPlaced(h: Threads, flag: Flag, prio: Priorities)
    requires Placed(h) && Ordered(h, flag, prio)
    ensures Placed(WakeReceiver(h)) && Ordered(WakeReceiver(h), flag, prio)
    ensures h.recvQ != [] ==> |WakeReceiver(h).wokenR| == |h.wokenR| + 1
  {
    var q := h.recvQ;
    if q != [] { assert q == [q[0]] + q[1..] && q[0] !in q[1..] && q[0] in q; }
  }

  lemma WakeSenderPlaced(h: Threads, flag: Flag, prio: Priorities)
    requires Placed(h) && Ordered(h, flag, prio)
    ensures Placed(WakeSender(h)) && Ordered(WakeSender(h), flag, prio)
    ensures h.sendQ != [] ==> |WakeSender(h).wokenS| == |h.wokenS| + 1
  {
    var q := h.sendQ;
    if q != [] { assert q == [q[0]] + q[1..] && q[0] !in q[1..] && q[0] in q; }
  }

  lemma JoinReceiversPlaced(h: Threads, t: Tid, timeout: int, flag: Flag, prio: Priorities)
    requires Placed(h) && Ordered(h, flag, prio) && Idle(h, t)
    ensures var h2 := JoinReceivers(h, t, timeout, flag, prio); Placed(h2) && Ordered(h2, flag, prio)
  {
    JoinedIn(h.recvQ, t, flag, prio);
    if flag.PRIO? { JoinedSorted(h.recvQ, t, prio); }
    hide Joined, Sorted, NoDup;
  }

  lemma JoinSendersPlaced(h: Threads, t: Tid, v: int, timeout: int, flag: Flag, prio: Priorities)
    requires Placed(h) && Ordered(h, flag, prio) && Idle(h, t)
    ensures var h2 := JoinSenders(h, t, v, timeout, flag, prio); Placed(h2) && Ordered(h2, flag, prio)
  {
    JoinedIn(h.sendQ, t, flag, prio);
    if flag.PRIO? { JoinedSorted(h.sendQ, t, prio); }
    hide Joined, Sorted, NoDup;
  }

  lemma ExpiredPlaced(h: Threads, t: Tid, flag: Flag, prio: Priorities)
    requires Placed(h) && Ordered(h, flag, prio) && (t in h.recvQ || t in h.sendQ)
    ensures Placed(Expired(h, t)) && Ordered(Expired(h, t), flag, prio)
    ensures (Expired(h, t).recvQ != [] ==> h.recvQ != []) && (Expired(h, t).sendQ != [] ==> h.sendQ != [])
  {
    LeftIn(h.recvQ, t);
    LeftIn(h.sendQ, t);
    if flag.PRIO? {
      LeftSorted(h.recvQ, t, prio);
      LeftSorted(h.sendQ, t, prio);
    }
  }

  lemma FlushedPlaced(h: Threads)
    requires Placed(h)
    ensures Placed(Flushed(h))
    ensures forall t :: t in h.recvQ || t in h.sendQ ==> t in Flushed(h).failed && Flushed(h).failed[t] == ERROR
  {
    FailAllIn(h.failed, h.recvQ);
    FailAllIn(FailAll(h.failed, h.recvQ), h.sendQ);
  }

  // ----- the mailbox -----

  /** `sent` and `got` log the mails stored and fetched since the last reset. */
  datatype Mb = Mb(box: Box, flag: Flag, prio: Priorities, th: Threads, sent: seq<int>, got: seq<int>)

  /** rt_mb_init; the size field has 16 bits. */
  function Init(pool: seq<int>, size: nat, flag: Flag, prio: Priorities): Mb {
    Mb(Box(size % 0x1_0000, pool, 0, 0, 0), flag, prio, Threads([], [], {}, {}, map[], map[], map[]), [], [])
  }

  /** Stores a mail and resumes the first receiver. */
  function Put(s: Mb, v: int): Mb
    requires s.box.inOff < |s.box.pool|
  {
    s.(box := Stored(s.box, v), sent := s.sent + [v], th := WakeReceiver(s.th))
  }

  /** Fetches a mail and resumes the first sender. */
  function Take(s: Mb): Mb
    requires s.box.outOff < |s.box.pool| && s.box.entry > 0
  {
    s.(box := Fetched(s.box), got := s.got + [s.box.pool[s.box.outOff]], th := WakeSender(s.th))
  }

  datatype Outcome = Done(err: Err) | Blocked

  /** The head of the sending loop: fail, suspend, or leave the loop and store. */
  function TrySend(s: Mb, t: Tid, v: int, timeout: int): (Mb, Outcome)
    requires s.box.entry != s.box.size ==> s.box.inOff < |s.box.pool|
  {
    if s.box.entry == s.box.size then
      if timeout == 0 then (s, Done(EFULL))
      else (s.(th := JoinSenders(s.th, t, v, timeout, s.flag, s.prio)), Blocked)
    else (Put(s, v), Done(EOK))
  }

  function TryRecv(s: Mb, t: Tid, timeout: int): (Mb, Outcome)
    requires s.box.entry != 0 ==> s.box.outOff < |s.box.pool|
  {
    if s.box.entry == 0 then
      if timeout == 0 then (s, Done(ETIMEOUT))
      else (s.(th := JoinReceivers(s.th, t, timeout, s.flag, s.prio)), Blocked)
    else (Take(s), Done(EOK))
  }

  /** RT_IPC_CMD_RESET. */
  function Reset(s: Mb): Mb {
    s.(th := Flushed(s.th), box := s.box.(entry := 0, inOff := 0, outOff := 0), sent := [], got := [])
  }

  /** One step of the system. */
  datatype Event =
    | Send(t: Tid, v: int, timeout: int)
    | SendRun(t: Tid, elapsed: nat)
    | Recv(t: Tid, timeout: int)
    | RecvRun(t: Tid, elapsed: nat)
    | FailRun(t: Tid)
    | Timeout(t: Tid)
    | ResetAll

  predicate Enabled(h: Threads, e: Event) {
    match e
    case Send(t, _, _) => Idle(h, t)
    case SendRun(t, _) => t in h.wokenS && t in h.mails && t in h.waits
    case Recv(t, _) => Idle(h, t)
    case RecvRun(t, _) => t in h.wokenR && t in h.waits
    case FailRun(t) => t in h.failed
    case Timeout(t) => (t in h.recvQ || t in h.sendQ) && t in h.waits && h.waits[t] > 0
    case ResetAll => true
  }

  /** A resumed thread runs again: it is no longer among the woken. */
  function Running(s: Mb, t: Tid): Mb {
    s.(th := s.th.(wokenR := s.th.wokenR - {t}, wokenS := s.th.wokenS - {t}))
  }

  function Step(s: Mb, e: Event): Mb
    requires Ringed(s.box) && Enabled(s.th, e)
  {
    match e
    case Send(t, v, timeout) => TrySend(s, t, v, timeout).0
    case SendRun(t, d) => TrySend(Running(s, t), t, s.th.mails[t], Remaining(s.th.waits[t], d)).0
    case Recv(t, timeout) => TryRecv(s, t, timeout).0
    case RecvRun(t, d) => TryRecv(Running(s, t), t, Remaining(s.th.waits[t], d)).0
    case FailRun(t) => s.(th := s.th.(failed := s.th.failed - {t}))
    case Timeout(t) => s.(th := Expired(s.th, t))
    case ResetAll => Reset(s)
  }

  // ----- the invariant -----

  /** No lost wakeup: while a receiver is still queued, every mail in the box has
      a woken receiver on its way; while a sender is still queued, every free
      place has a woken sender on its way. The slack is for a thread that has
      just been taken off the woken ones to run. */
  ghost predicate Awake(s: Mb, slackR: nat, slackS: nat) {
    && (s.th.recvQ != [] ==> s.box.entry <= |s.th.wokenR| + slackR)
    && (s.th.sendQ != [] ==> s.box.size - s.box.entry <= |s.th.wokenS| + slackS)
  }

  ghost predicate Sound(s: Mb) {
    && Ringed(s.box) && Placed(s.th) && Ordered(s.th, s.flag, s.prio)
    && s.sent == s.got + Contents(s.box)
  }

  ghost predicate Inv(s: Mb) {
    Sound(s) && Awake(s, 0, 0)
  }

  lemma InitInv(pool: seq<int>, size: nat, flag: Flag, prio: Priorities)
    requires size % 0x1_0000 <= |pool|
    ensures Inv(Init(pool, size, flag, prio))
  {
  }

  lemma TrySendInv(s: Mb, t: Tid, v: int, timeout: int)
    requires Sound(s) && Awake(s, 0, 1) && Idle(s.th, t)
    ensures Inv(TrySend(s, t, v, timeout).0)
  {
    if s.box.entry != s.box.size {
      StoredContents(s.box, v);
      WakeReceiverPlaced(s.th, s.flag, s.prio);
    } else if timeout != 0 {
      JoinSendersPlaced(s.th, t, v, timeout, s.flag, s.prio);
    }
    hide Contents, Ringed, Placed, Ordered;
  }

  lemma TryRecvInv(s: Mb, t: Tid, timeout: int)
    requires Sound(s) && Awake(s, 1, 0) && Idle(s.th, t)
    ensures Inv(TryRecv(s, t, timeout).0)
  {
    if s.box.entry != 0 {
      FetchedContents(s.box);
      WakeSenderPlaced(s.th, s.flag, s.prio);
    } else if timeout != 0 {
      JoinReceiversPlaced(s.th, t, timeout, s.flag, s.prio);
    }
    hide Contents, Ringed, Placed, Ordered;
  }

  lemma SoundRing(s: Mb)
    requires Sound(s)
    ensures Ringed(s.box)
  {
  }

  lemma RunningSound(s: Mb, t: Tid)
    requires Inv(s)
    ensures Sound(Running(s, t)) && Awake(Running(s, t), if t in s.th.wokenR then 1 else 0, if t in s.th.wokenS then 1 else 0)
    ensures t in s.th.wokenR || t in s.th.wokenS ==> Idle(Running(s, t).th, t)
    ensures t in s.th.wokenR ==> t !in s.th.wokenS
  {
    if t !in s.th.wokenR { assert s.th.wokenR - {t} == s.th.wokenR; }
    if t !in s.th.wokenS { assert s.th.wokenS - {t} == s.th.wokenS; }
  }

  /** Every step keeps the invariant. */
  lemma StepInv(s: Mb, e: Event)
    requires Inv(s) && Enabled(s.th, e)
    ensures Inv(Step(s, e))
  {
    match e
    case Send(t, v, timeout) => TrySendInv(s, t, v, timeout);
    case SendRun(t, d) =>
      RunningSound(s, t);
      TrySendInv(Running(s, t), t, s.th.mails[t], Remaining(s.th.waits[t], d));
    case Recv(t, timeout) => TryRecvInv(s, t, timeout);
    case RecvRun(t, d) =>
      RunningSound(s, t);
      TryRecvInv(Running(s, t), t, Remaining(s.th.waits[t], d));
    case FailRun(t) =>
    case Timeout(t) => ExpiredPlaced(s.th, t, s.flag, s.prio);
    case ResetAll => FlushedPlaced(s.th);
  }

  /** A run: any finite interleaving of enabled steps. */
  ghost predicate Reaches(s: Mb, es: seq<Event>, r: Mb)
    decreases es
  {
    if es == [] then r == s
    else Ringed(s.box) && Enabled(s.th, es[0]) && Reaches(Step(s, es[0]), es[1..], r)
  }

  /** In every state that any interleaving reaches: no wakeup is lost, the mails
      fetched are exactly the oldest mails stored, in order; and once no woken
      thread is pending, a receiver waits only at an empty box and a sender only
      at a full one. */
  lemma {:induction false} RunsSafe(s: Mb, es: seq<Event>, r: Mb)
    requires Inv(s) && Reaches(s, es, r)
    ensures Inv(r)
    ensures r.got + Contents(r.box) == r.sent
    ensures r.th.recvQ != [] && r.th.wokenR == {} ==> r.box.entry == 0
    ensures r.th.sendQ != [] && r.th.wokenS == {} ==> r.box.entry == r.box.size
    decreases es
  {
    if es != [] {
      StepInv(s, es[0]);
      RunsSafe(Step(s, es[0]), es[1..], r);
    }
  }

  /** A sender on its way: queued or woken, with its mail on its stack. */
  predicate Sending(h: Threads, t: Tid, v: int) {
    (t in h.sendQ || t in h.wokenS) && t in h.mails && h.mails[t] == v
  }

  /** A blocked send keeps its mail until it ends, and it ends only by storing that
      mail, by giving up when it runs again with the box full, or with an error. */
  lemma SendEnds(s: Mb, e: Event, t: Tid, v: int)
    requires Inv(s) && Enabled(s.th, e) && Sending(s.th, t, v)
    ensures var r := Step(s, e);
      || Sending(r.th, t, v)
      || (e.SendRun? && e.t == t && s.box.entry != s.box.size && r.sent == s.sent + [v])
      || (e.SendRun? && e.t == t && s.box.entry == s.box.size && Remaining(s.th.waits[t], e.elapsed) == 0 && r.sent == s.sent)
      || (e == Timeout(t) && t in r.th.failed && r.th.failed[t] == ETIMEOUT)
      || (e == ResetAll && t in r.th.failed && r.th.failed[t] == ERROR)
  {
    hide Contents, Ordered, Sorted;
    match e
    case Send(u, w, timeout) => JoinedIn(s.th.sendQ, u, s.flag, s.prio);
    case SendRun(u, d) => JoinedIn(s.th.sendQ, u, s.flag, s.prio);
    case Recv(u, timeout) =>
      if s.th.sendQ != [] { assert s.th.sendQ == [s.th.sendQ[0]] + s.th.sendQ[1..]; }
    case RecvRun(u, d) =>
      if s.th.sendQ != [] { assert s.th.sendQ == [s.th.sendQ[0]] + s.th.sendQ[1..]; }
    case FailRun(u) =>
    case Timeout(u) => LeftIn(s.th.sendQ, u);
    case ResetAll => FlushedPlaced(s.th);
  }

  // ----- the object -----

  /** struct rt_mailbox, with what its blocked callers hold in `th`. Each method
      is one interrupt-disabled region. */
  class MailboxObject {
    const pool: array<int>
    const size: nat
    const flag: Flag
    const prio: Priorities
    var entry: nat
    var inOff: nat
    var outOff: nat
    var th: Threads
    ghost var sent: seq<int>
    ghost var got: seq<int>

    ghost function Now(): Mb
      reads this, pool
    {
      Mb(Box(size, pool[..], entry, inOff, outOff), flag, prio, th, sent, got)
    }

    constructor (pool: array<int>, size: nat, flag: Flag, prio: Priorities)
      requires size % 0x1_0000 <= pool.Length
      ensures Now() == Init(pool[..], size, flag, prio) && Inv(Now())
    {
      this.pool, this.size, this.flag, this.prio := pool, size % 0x1_0000, flag, prio;
      entry, inOff, outOff := 0, 0, 0;
      th := Threads([], [], {}, {}, map[], map[], map[]);
      sent, got := [], [];
    }

    /** rt_mb_send_wait up to its return or its call of the scheduler. */
    method SendWait(t: Tid, v: int, timeout: int) returns (o: Outcome)
      requires Sound(Now()) && Awake(Now(), 0, 1) && Idle(th, t)
      modifies this, pool
      ensures (Now(), o) == TrySend(old(Now()), t, v, timeout) && Inv(Now())
      ensures o == if old(entry) != size then Done(EOK) else if timeout == 0 then Done(EFULL) else Blocked
      ensures o == Done(EOK) ==> Contents(Now().box) == old(Contents(Now().box)) + [v]
      ensures o == Done(EOK) && old(th.recvQ) != [] ==>
        th.recvQ == old(th.recvQ[1..]) && th.wokenR == old(th.wokenR) + {old(th.recvQ[0])}
      ensures o == Blocked ==> t in th.sendQ && t in th.mails && th.mails[t] == v && t in th.waits && th.waits[t] == timeout
    {
      hide Sound, Awake, Inv, Idle, Contents, Joined;
      JoinedIn(th.sendQ, t, flag, prio);
      TrySendInv(Now(), t, v, timeout);
      SoundRing(Now());
      if entry == size {
        if timeout == 0 { return Done(EFULL); }
        var q := Suspend(th.sendQ, t, flag, prio);
        th := th.(sendQ := q, mails := th.mails[t := v], waits := th.waits[t := timeout]);
        return Blocked;
      }
      StoredContents(Now().box, v);
      pool[inOff] := v;
      inOff := inOff + 1;
      if inOff >= size { inOff := 0; }
      entry := entry + 1;
      sent := sent + [v];
      if th.recvQ != [] {
        th := th.(recvQ := th.recvQ[1..], wokenR := th.wokenR + {th.recvQ[0]});
      }
      o := Done(EOK);
    }

    /** rt_mb_recv up to its return or its call of the scheduler. */
    method Receive(t: Tid, timeout: int) returns (o: Outcome, v: int)
      requires Sound(Now()) && Awake(Now(), 1, 0) && Idle(th, t)
      modifies this
      ensures (Now(), o) == TryRecv(old(Now()), t, timeout) && Inv(Now())
      ensures o == if old(entry) != 0 then Done(EOK) else if timeout == 0 then Done(ETIMEOUT) else Blocked
      ensures o == Done(EOK) ==> old(Contents(Now().box)) == [v] + Contents(Now().box)
      ensures o == Done(EOK) && old(th.sendQ) != [] ==>
        th.sendQ == old(th.sendQ[1..]) && th.wokenS == old(th.wokenS) + {old(th.sendQ[0])}
      ensures o == Blocked ==> t in th.recvQ && t in th.waits && th.waits[t] == timeout
    {
      hide Sound, Awake, Inv, Idle, Contents, Joined;
      JoinedIn(th.recvQ, t, flag, prio);
      TryRecvInv(Now(), t, timeout);
      SoundRing(Now());
      v := 0;
      if entry == 0 {
        if timeout == 0 { return Done(ETIMEOUT), v; }
        var q := Suspend(th.recvQ, t, flag, prio);
        th := th.(recvQ := q, waits := th.waits[t := timeout]);
        return Blocked, v;
      }
      FetchedContents(Now().box);
      v := pool[outOff];
      outOff := outOff + 1;
      if outOff >= size { outOff := 0; }
      entry := entry - 1;
      got := got + [v];
      if th.sendQ != [] {
        th := th.(sendQ := th.sendQ[1..], wokenS := th.wokenS + {th.sendQ[0]});
      }
      o := Done(EOK);
    }

    /** A sender comes back from the scheduler with no error. */
    method SendAgain(t: Tid, elapsed: nat) returns (o: Outcome)
      requires Inv(Now()) && Enabled(th, SendRun(t, elapsed))
      modifies this, pool
      ensures Now() == Step(old(Now()), SendRun(t, elapsed)) && Inv(Now())
      ensures o == if old(entry) != size then Done(EOK) else if Remaining(old(th.waits[t]), elapsed) == 0 then Done(EFULL) else Blocked
      ensures o == Done(EOK) ==> Contents(Now().box) == old(Contents(Now().box)) + [old(th.mails[t])]
    {
      hide Sound, Awake, TrySend, Idle, Contents;
      SoundRing(Now());
      RunningSound(Now(), t);
      var timeout, v := th.waits[t], th.mails[t];
      if timeout > 0 {
        timeout := timeout - elapsed;
        if timeout < 0 { timeout := 0; }
      }
      th := th.(wokenR := th.wokenR - {t}, wokenS := th.wokenS - {t});
      o := SendWait(t, v, timeout);
    }

    method ReceiveAgain(t: Tid, elapsed: nat) returns (o: Outcome, v: int)
      requires Inv(Now()) && Enabled(th, RecvRun(t, elapsed))
      modifies this
      ensures Now() == Step(old(Now()), RecvRun(t, elapsed)) && Inv(Now())
      ensures o == if old(entry) != 0 then Done(EOK) else if Remaining(old(th.waits[t]), elapsed) == 0 then Done(ETIMEOUT) else Blocked
      ensures o == Done(EOK) ==> old(Contents(Now().box)) == [v] + Contents(Now().box)
    {
      hide Sound, Awake, TryRecv, Idle, Contents;
      SoundRing(Now());
      RunningSound(Now(), t);
      var timeout := th.waits[t];
      if timeout > 0 {
        timeout := timeout - elapsed;
        if timeout < 0 { timeout := 0; }
      }
      th := th.(wokenR := th.wokenR - {t}, wokenS := th.wokenS - {t});
      o, v := Receive(t, timeout);
    }

    /** rt_mb_control with RT_IPC_CMD_RESET: resumes all waiting threads with an
        error, then empties the box. */
    method ResetBox()
      requires Inv(Now())
      modifies this
      ensures Now() == Reset(old(Now())) && Inv(Now())
    {
      StepInv(Now(), ResetAll);
      ghost var h := th;
      while th.recvQ != []
        invariant th == h.(recvQ := th.recvQ, failed := th.failed)
        invariant FailAll(th.failed, th.recvQ) == FailAll(h.failed, h.recvQ)
        invariant Now() == old(Now()).(th := th)
        decreases |th.recvQ|
      {
        th := th.(failed := th.failed[th.recvQ[0] := ERROR], recvQ := th.recvQ[1..]);
      }
      ghost var f := th.failed;
      while th.sendQ != []
        invariant th == h.(recvQ := [], sendQ := th.sendQ, failed := th.failed)
        invariant FailAll(th.failed, th.sendQ) == FailAll(f, h.sendQ)
        invariant Now() == old(Now()).(th := th)
        decreases |th.sendQ|
      {
        th := th.(failed := th.failed[th.sendQ[0] := ERROR], sendQ := th.sendQ[1..]);
      }
      entry, inOff, outOff := 0, 0, 0;
      sent, got := [], [];
    }
  }
}
