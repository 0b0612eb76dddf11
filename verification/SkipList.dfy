/** The timer skip list: rows of timers ordered by deadline, the last row holding
    every started timer and each other row some timers of the row below. Timers
    are named by Tid, and `dead` gives their deadlines as unbounded ticks. */
module SkipList {
  import opened Words
  import opened IpcQueue

  const TICKS: nat := 0x1_0000_0000
  const HALF: nat := 0x7FFF_FFFF

  /** a is a subsequence of b. */
  ghost predicate Sub(a: seq<Tid>, b: seq<Tid>)
    decreases b
  {
    if a == [] then true
    else b != [] && if a[0] == b[0] then Sub(a[1..], b[1..]) else Sub(a, b[1..])
  }

  lemma {:induction false} SubIn(a: seq<Tid>, b: seq<Tid>)
    requires Sub(a, b)
    ensures forall x :: x in a ==> x in b
    decreases b
  {
    if a != [] {
      assert a == [a[0]] + a[1..];
      if a[0] == b[0] { SubIn(a[1..], b[1..]); } else { SubIn(a, b[1..]); }
    }
  }

  lemma {:induction false} SubMore(a: seq<Tid>, b: seq<Tid>, x: Tid)
    requires Sub(a, b) && x !in a
    ensures Sub(a, [x] + b)
  {
    assert ([x] + b)[1..] == b;
  }

  /** Leaving all rows keeps each a subsequence of the next. */
  lemma {:induction false} SubLeft(a: seq<Tid>, b: seq<Tid>, t: Tid)
    requires Sub(a, b) && NoDup(b)
    ensures Sub(Left(a, t), Left(b, t))
    decreases b
  {
    if a != [] {
      assert NoDup(b[1..]);
      if a[0] == b[0] {
        SubLeft(a[1..], b[1..], t);
        if a[0] != t { assert Left(a, t)[1..] == Left(a[1..], t) && Left(b, t)[1..] == Left(b[1..], t); }
      } else {
        SubLeft(a, b[1..], t);
        SubIn(a, b[1..]);
        assert b[0] !in b[1..];
        if b[0] == t {
          LeftAbsent(a, t);
          LeftAbsent(b[1..], t);
        } else {
          LeftSub(a, t);
          SubMore(Left(a, t), Left(b[1..], t), b[0]);
        }
      }
    }
  }

  lemma {:induction false} LeftAbsent(q: seq<Tid>, t: Tid)
    requires t !in q
    ensures Left(q, t) == q
    decreases q
  {
    if q != [] { LeftAbsent(q[1..], t); }
  }

  lemma {:induction false} LeftSub(q: seq<Tid>, t: Tid)
    ensures forall x :: x in Left(q, t) ==> x in q
    decreases q
  {
    if q != [] { LeftSub(q[1..], t); }
  }

  /** How the stable linear scan by deadline unfolds. */
  lemma JoinedStep(q: seq<Tid>, t: Tid, dead: Priorities)
    ensures q == [] ==> Joined(q, t, PRIO, dead) == [t]
    ensures q != [] && Prio(dead, t) < Prio(dead, q[0]) ==> Joined(q, t, PRIO, dead) == [t] + q
    ensures q != [] && Prio(dead, t) >= Prio(dead, q[0])
      ==> Joined(q, t, PRIO, dead) == [q[0]] + Joined(q[1..], t, PRIO, dead)
  {
    if q != [] && Prio(dead, t) >= Prio(dead, q[0]) {
      var k := Place(q[1..], t, PRIO, dead);
      assert Place(q, t, PRIO, dead) == k + 1;
      assert q[..k + 1] == [q[0]] + q[1..][..k] && q[k + 1..] == q[1..][k..];
    }
  }

  lemma SubTail(a: seq<Tid>, b: seq<Tid>)
    requires b != [] && Sub(a, b) && (a == [] || a[0] != b[0])
    ensures Sub(a, b[1..])
  {
  }

  lemma SubCons(a: seq<Tid>, b: seq<Tid>, x: Tid)
    requires Sub(a, b)
    ensures Sub([x] + a, [x] + b)
  {
    assert ([x] + a)[1..] == a && ([x] + b)[1..] == b;
  }

  /** A new timer may join the row below only, or both rows. */
  lemma {:induction false} SubJoined(a: seq<Tid>, b: seq<Tid>, t: Tid, dead: Priorities)
    requires Sub(a, b) && NoDup(b) && Sorted(b, dead) && t !in b
    ensures Sub(a, Joined(b, t, PRIO, dead))
    ensures Sub(Joined(a, t, PRIO, dead), Joined(b, t, PRIO, dead))
    decreases b
  {
    JoinedStep(a, t, dead);
    JoinedStep(b, t, dead);
    SubIn(a, b);
    if b == [] {
      assert a == [];
      assert Sub([t], [t]) by { SubCons([], [], t); }
    } else {
      HeadSorted(b, dead);
      if Prio(dead, t) < Prio(dead, b[0]) {
        SubMore(a, b, t);
        if a != [] { assert Prio(dead, t) < Prio(dead, a[0]); }
        SubCons(a, b, t);
        assert [t] + [] == [t];
      } else {
        var lower := Joined(b[1..], t, PRIO, dead);
        if a != [] && a[0] == b[0] {
          SubJoined(a[1..], b[1..], t, dead);
          SubCons(a[1..], lower, a[0]);
          assert [a[0]] + a[1..] == a;
          SubCons(Joined(a[1..], t, PRIO, dead), lower, a[0]);
        } else {
          SubTail(a, b);
          SubJoined(a, b[1..], t, dead);
          SubIn(a, b[1..]);
          SubMore(a, lower, b[0]);
          JoinedIn(a, t, PRIO, dead);
          SubMore(Joined(a, t, PRIO, dead), lower, b[0]);
        }
      }
    }
  }

  lemma HeadSorted(b: seq<Tid>, dead: Priorities)
    requires b != [] && NoDup(b) && Sorted(b, dead)
    ensures NoDup(b[1..]) && Sorted(b[1..], dead) && b[0] !in b[1..]
    ensures forall x :: x in b ==> Prio(dead, b[0]) <= Prio(dead, x)
  {
  }

  // ----- the search -----

  /** Position of x in a row. */
  function IndexOf(row: seq<Tid>, x: Tid): (i: nat)
    requires x in row
    ensures i < |row| && row[i] == x
  {
    if row[0] == x then 0 else 1 + IndexOf(row[1..], x)
  }

  /** Difference of two 32-bit ticks. */
  function Minus(a: nat, b: nat): (d: nat)
    ensures d < TICKS
  {
    (a - b) % TICKS
  }

  /** How the wrapped difference sees two deadlines less than the range apart:
      equal, or later by less than half the range, or so much earlier that it
      looks later. */
  lemma WrapCompare(d1: nat, d2: nat)
    requires d2 < d1 + TICKS && d1 < d2 + TICKS
    ensures Minus(d1 % TICKS, d2 % TICKS) == 0 <==> d1 == d2
    ensures 0 < Minus(d1 % TICKS, d2 % TICKS) < HALF <==> 0 < d1 - d2 < HALF || d2 - d1 > TICKS - HALF
  {
    assert (d1 % TICKS - d2 % TICKS) % TICKS == (d1 - d2) % TICKS;
    if d1 >= d2 { assert (d1 - d2) % TICKS == d1 - d2; } else { assert (d1 - d2) % TICKS == d1 - d2 + TICKS; }
  }

  /** Deadlines in q are less than the tick range from that of t. */
  ghost predicate Spread(q: seq<Tid>, t: Tid, dead: Priorities) {
    forall x :: x in q ==> Prio(dead, x) < Prio(dead, t) + TICKS && Prio(dead, t) < Prio(dead, x) + TICKS
  }

  /** Where the inner loop stops in a row, from position k on: it compares 32-bit
      ticks only. */
  function Scan(row: seq<Tid>, k: nat, t: Tid, dead: Priorities): (r: nat)
    requires k <= |row|
    ensures k <= r <= |row|
    decreases |row| - k
  {
    if k == |row| then k
    else
      var d := Minus(Prio(dead, row[k]) % TICKS, Prio(dead, t) % TICKS);
      if 0 < d < HALF then k else Scan(row, k + 1, t, dead)
  }

  /** The first timer scanned is not too early, and the first later one not too
      late, for the wrapped difference with t. */
  predicate SeesFrom(row: seq<Tid>, k: nat, t: Tid, dead: Priorities) {
    var p := Place(row, t, PRIO, dead);
    && (k < p ==> Prio(dead, t) - Prio(dead, row[k]) <= TICKS - HALF)
    && (p < |row| ==> Prio(dead, row[p]) - Prio(dead, t) < HALF)
  }

  /** Too early for the wrapped difference, so that it looks later. */
  predicate TooEarly(x: Tid, t: Tid, dead: Priorities) {
    Prio(dead, t) - Prio(dead, x) > TICKS - HALF
  }

  /** The scan stops at the place of a linear scan by unbounded deadlines exactly
      when it sees; otherwise it stops at once, or walks past the place. */
  lemma {:induction false} ScanExact(row: seq<Tid>, k: nat, t: Tid, dead: Priorities)
    requires Sorted(row, dead) && k <= Place(row, t, PRIO, dead) && Spread(row, t, dead)
    ensures var p := Place(row, t, PRIO, dead);
      && (Scan(row, k, t, dead) == p <==> SeesFrom(row, k, t, dead))
      && (Scan(row, k, t, dead) < p ==> Scan(row, k, t, dead) == k && TooEarly(row[k], t, dead))
      && (k < p && TooEarly(row[k], t, dead) ==> Scan(row, k, t, dead) == k)
    decreases |row| - k
  {
    PlaceMeaning(row, t, dead);
    var p := Place(row, t, PRIO, dead);
    if k < |row| {
      assert row[k] in row;
      WrapCompare(Prio(dead, row[k]), Prio(dead, t));
      if k < p && !TooEarly(row[k], t, dead) { ScanExact(row, k + 1, t, dead); }
    }
  }

  ghost predicate Rows(rows: seq<seq<Tid>>, dead: Priorities) {
    && |rows| > 0
    && (forall i :: 0 <= i < |rows| ==> NoDup(rows[i]) && Sorted(rows[i], dead))
    && (forall i :: 0 <= i < |rows| - 1 ==> Below(rows, i))
  }

  ghost predicate Below(rows: seq<seq<Tid>>, i: int)
    requires 0 <= i < |rows| - 1
  {
    Sub(rows[i], rows[i + 1])
  }

  function Bottom(rows: seq<seq<Tid>>): seq<Tid>
    requires |rows| > 0
  {
    rows[|rows| - 1]
  }

  lemma {:induction false} RowIn(rows: seq<seq<Tid>>, dead: Priorities, i: nat)
    requires Rows(rows, dead) && i < |rows|
    ensures forall x :: x in rows[i] ==> x in Bottom(rows)
    decreases |rows| - i
  {
    if i < |rows| - 1 {
      assert Below(rows, i);
      SubIn(rows[i], rows[i + 1]);
      RowIn(rows, dead, i + 1);
    }
  }

  /** Where the search goes on in row b after stopping at position k of row a. */
  function Next(a: seq<Tid>, k: nat, b: seq<Tid>): (r: nat)
    requires k <= |a|
    ensures r <= |b|
  {
    if k == 0 || a[k - 1] !in b then 0 else IndexOf(b, a[k - 1]) + 1
  }

  /** Where the search stops in row i. */
  function Head(rows: seq<seq<Tid>>, i: nat, t: Tid, dead: Priorities): (r: nat)
    requires i < |rows|
    ensures r <= |rows[i]|
  {
    Scan(rows[i], if i == 0 then 0 else Next(rows[i - 1], Head(rows, i - 1, t, dead), rows[i]), t, dead)
  }

  /** Where it begins in row i if it was right in the row before. */
  function From(rows: seq<seq<Tid>>, i: nat, t: Tid, dead: Priorities): nat
    requires i < |rows|
  {
    if i == 0 then 0 else Next(rows[i - 1], Place(rows[i - 1], t, PRIO, dead), rows[i])
  }

  predicate SeesRow(rows: seq<seq<Tid>>, i: nat, t: Tid, dead: Priorities)
    requires i < |rows|
  {
    SeesFrom(rows[i], From(rows, i, t, dead), t, dead)
  }

  /** The wrapped comparisons tell the truth in every row. */
  ghost predicate Sees(rows: seq<seq<Tid>>, t: Tid, dead: Priorities) {
    forall i :: 0 <= i < |rows| ==> SeesRow(rows, i, t, dead)
  }

  /** The search goes on at or before the place in the next row, if it was at or
      before it; and behind it if it was behind. */
  lemma Descend(a: seq<Tid>, b: seq<Tid>, k: nat, t: Tid, dead: Priorities)
    requires Sub(a, b) && Sorted(a, dead) && Sorted(b, dead) && k <= |a|
    ensures k <= Place(a, t, PRIO, dead) ==> Next(a, k, b) <= Place(b, t, PRIO, dead)
    ensures k > Place(a, t, PRIO, dead) ==> Next(a, k, b) > Place(b, t, PRIO, dead)
  {
    SubIn(a, b);
    PlaceMeaning(a, t, dead);
    PlaceMeaning(b, t, dead);
    if k > 0 {
      assert a[k - 1] in a;
      assert b[IndexOf(b, a[k - 1])] == a[k - 1];
    }
  }

  /** Stopping in front of x in one row, the search goes on no later than x in the
      next row. */
  lemma DescendBefore(a: seq<Tid>, b: seq<Tid>, k: nat, t: Tid, dead: Priorities)
    requires Sub(a, b) && NoDup(a) && NoDup(b) && Sorted(a, dead) && Sorted(b, dead) && k < Place(a, t, PRIO, dead)
    ensures k < |a| && Next(a, k, b) < Place(b, t, PRIO, dead)
    ensures Prio(dead, b[Next(a, k, b)]) <= Prio(dead, a[k])
  {
    SubIn(a, b);
    PlaceMeaning(a, t, dead);
    PlaceMeaning(b, t, dead);
    assert a[k] in a;
    var j := IndexOf(b, a[k]);
    if k > 0 {
      assert a[k - 1] in a;
      SubOrder(a, b, k);
    }
    assert Next(a, k, b) <= j;
  }

  /** Neighbours of a subsequence keep their order. */
  lemma {:induction false} SubOrder(a: seq<Tid>, b: seq<Tid>, k: nat)
    requires Sub(a, b) && NoDup(a) && NoDup(b) && 0 < k < |a|
    ensures a[k - 1] in b && a[k] in b && IndexOf(b, a[k - 1]) < IndexOf(b, a[k])
    decreases b
  {
    SubIn(a, b);
    assert a[k - 1] in a && a[k] in a;
    if a[0] == b[0] {
      if k == 1 {
        assert a[1] != b[0];
      } else {
        assert a[1..][k - 2] == a[k - 1] && a[1..][k - 1] == a[k];
        SubOrder(a[1..], b[1..], k - 1);
        assert b[0] != a[k - 1] && b[0] != a[k];
      }
    } else {
      SubOrder(a, b[1..], k);
      SubIn(a, b[1..]);
      assert b[0] !in b[1..];
    }
  }

  /** While it sees, the search is right in every row. */
  lemma {:induction false} HeadRight(rows: seq<seq<Tid>>, i: nat, t: Tid, dead: Priorities)
    requires Rows(rows, dead) && i < |rows| && Spread(Bottom(rows), t, dead)
    requires forall j :: 0 <= j <= i ==> SeesRow(rows, j, t, dead)
    ensures Head(rows, i, t, dead) == Place(rows[i], t, PRIO, dead)
  {
    RowIn(rows, dead, i);
    assert SeesRow(rows, i, t, dead);
    if i > 0 {
      HeadRight(rows, i - 1, t, dead);
      assert Below(rows, i - 1);
      Descend(rows[i - 1], rows[i], Head(rows, i - 1, t, dead), t, dead);
    }
    ScanExact(rows[i], From(rows, i, t, dead), t, dead);
  }

  /** How a search can be wrong in a row: past the place, or before it at a timer
      that is too early. */
  ghost predicate Wrong(rows: seq<seq<Tid>>, i: nat, t: Tid, dead: Priorities)
    requires i < |rows|
  {
    var k, p := Head(rows, i, t, dead), Place(rows[i], t, PRIO, dead);
    k > p || (k < p && TooEarly(rows[i][k], t, dead))
  }

  /** Wrong in one row, it is wrong in all rows below. */
  lemma WrongStays(rows: seq<seq<Tid>>, i: nat, t: Tid, dead: Priorities)
    requires Rows(rows, dead) && i + 1 < |rows| && Spread(Bottom(rows), t, dead) && Wrong(rows, i, t, dead)
    ensures Wrong(rows, i + 1, t, dead)
  {
    RowIn(rows, dead, i + 1);
    assert Below(rows, i);
    var a, b, k := rows[i], rows[i + 1], Head(rows, i, t, dead);
    assert NoDup(a) && NoDup(b) && Sorted(a, dead) && Sorted(b, dead);
    Descend(a, b, k, t, dead);
    if k < Place(a, t, PRIO, dead) {
      DescendBefore(a, b, k, t, dead);
      ScanExact(b, Next(a, k, b), t, dead);
    }
  }

  lemma {:induction false} WrongBelow(rows: seq<seq<Tid>>, i: nat, t: Tid, dead: Priorities)
    requires Rows(rows, dead) && i < |rows| && Spread(Bottom(rows), t, dead) && Wrong(rows, i, t, dead)
    ensures Wrong(rows, |rows| - 1, t, dead)
    decreases |rows| - i
  {
    hide Rows, Spread, Wrong;
    if i + 1 < |rows| {
      WrongStays(rows, i, t, dead);
      WrongBelow(rows, i + 1, t, dead);
    }
  }

  /** The first row in which it does not see goes wrong. */
  lemma GoesWrong(rows: seq<seq<Tid>>, i: nat, t: Tid, dead: Priorities)
    requires Rows(rows, dead) && i < |rows| && Spread(Bottom(rows), t, dead) && !SeesRow(rows, i, t, dead)
    requires forall j :: 0 <= j < i ==> SeesRow(rows, j, t, dead)
    ensures Wrong(rows, i, t, dead)
  {
    RowIn(rows, dead, i);
    if i > 0 {
      HeadRight(rows, i - 1, t, dead);
      assert Below(rows, i - 1);
      Descend(rows[i - 1], rows[i], Head(rows, i - 1, t, dead), t, dead);
    }
    ScanExact(rows[i], From(rows, i, t, dead), t, dead);
    hide Place, Scan;
  }

  lemma {:induction false} WrongFirst(rows: seq<seq<Tid>>, i: nat, t: Tid, dead: Priorities)
    requires Rows(rows, dead) && i < |rows| && Spread(Bottom(rows), t, dead) && !SeesRow(rows, i, t, dead)
    ensures Wrong(rows, |rows| - 1, t, dead)
    decreases i
  {
    hide Rows, Spread, SeesRow, Wrong;
    if j :| 0 <= j < i && !SeesRow(rows, j, t, dead) {
      WrongFirst(rows, j, t, dead);
    } else {
      GoesWrong(rows, i, t, dead);
      WrongBelow(rows, i, t, dead);
    }
  }

  /** The skip-list search on 32-bit ticks finds the place of a linear scan by
      unbounded deadlines in the bottom row, and then in every row, exactly when
      it sees in every row. */
  lemma SearchExact(rows: seq<seq<Tid>>, t: Tid, dead: Priorities)
    requires Rows(rows, dead) && Spread(Bottom(rows), t, dead)
    ensures Sees(rows, t, dead) <==> Head(rows, |rows| - 1, t, dead) == Place(Bottom(rows), t, PRIO, dead)
    ensures Sees(rows, t, dead) ==> forall i :: 0 <= i < |rows| ==> Head(rows, i, t, dead) == Place(rows[i], t, PRIO, dead)
  {
    hide Spread, SeesRow;
    if Sees(rows, t, dead) {
      forall i | 0 <= i < |rows| ensures Head(rows, i, t, dead) == Place(rows[i], t, PRIO, dead) {
        HeadRight(rows, i, t, dead);
      }
    } else {
      var i :| 0 <= i < |rows| && !SeesRow(rows, i, t, dead);
      WrongFirst(rows, i, t, dead);
    }
  }

  /** The 32-bit timeout_tick of a timer is its deadline modulo the range. */
  ghost predicate Ticking(q: seq<Tid>, ticks: map<Tid, nat>, dead: Priorities) {
    forall x :: x in q ==> x in ticks && ticks[x] == Prio(dead, x) % TICKS
  }

  /** The inner loop: walk one row from position `from`. */
  method WalkRow(row: seq<Tid>, from: nat, tick: nat, ticks: map<Tid, nat>, ghost t: Tid, ghost dead: Priorities)
    returns (k: nat)
    requires Ticking(row, ticks, dead) && tick == Prio(dead, t) % TICKS && from <= |row|
    ensures k == Scan(row, from, t, dead)
  {
    k := from;
    while k != |row|
      invariant from <= k <= |row| && Scan(row, k, t, dead) == Scan(row, from, t, dead)
      decreases |row| - k
    {
      assert row[k] in row;
      var d := Minus(ticks[row[k]], tick);
      if d == 0 {
      } else if d < HALF {
        break;
      }
      k := k + 1;
    }
  }

  lemma RowReady(rows: seq<seq<Tid>>, i: nat, ticks: map<Tid, nat>, dead: Priorities)
    requires Rows(rows, dead) && Ticking(Bottom(rows), ticks, dead) && i < |rows|
    ensures Ticking(rows[i], ticks, dead) && (i + 1 < |rows| ==> forall x :: x in rows[i] ==> x in rows[i + 1])
  {
    RowIn(rows, dead, i);
    if i + 1 < |rows| {
      assert Below(rows, i);
      SubIn(rows[i], rows[i + 1]);
    }
  }

  lemma HeadStep(rows: seq<seq<Tid>>, i: nat, t: Tid, dead: Priorities)
    requires i < |rows|
    ensures Head(rows, i, t, dead)
      == Scan(rows[i], if i == 0 then 0 else Next(rows[i - 1], Head(rows, i - 1, t, dead), rows[i]), t, dead)
  {
  }

  /** The outer loop: through the rows from the top, each from where the row above
      was left. */
  method Search(rows: seq<seq<Tid>>, tick: nat, ticks: map<Tid, nat>, ghost t: Tid, ghost dead: Priorities)
    returns (heads: seq<nat>)
    requires Rows(rows, dead) && Ticking(Bottom(rows), ticks, dead) && tick == Prio(dead, t) % TICKS
    ensures |heads| == |rows| && forall i :: 0 <= i < |rows| ==> heads[i] == Head(rows, i, t, dead)
  {
    hide Rows, Bottom, Head, Scan;
    heads := [];
    var from: nat := 0;
    var lvl := 0;
    while lvl < |rows|
      invariant 0 <= lvl <= |rows| && |heads| == lvl
      invariant forall i :: 0 <= i < lvl ==> heads[i] == Head(rows, i, t, dead)
      invariant lvl < |rows| ==>
        from == if lvl == 0 then 0 else Next(rows[lvl - 1], Head(rows, lvl - 1, t, dead), rows[lvl])
    {
      RowReady(rows, lvl, ticks, dead);
      HeadStep(rows, lvl, t, dead);
      var k := WalkRow(rows[lvl], from, tick, ticks, t, dead);
      heads := heads + [k];
      if lvl != |rows| - 1 {
        from := 0;
        if k > 0 {
          assert rows[lvl][k - 1] in rows[lvl];
          from := IndexOf(rows[lvl + 1], rows[lvl][k - 1]) + 1;
        }
      }
      lvl := lvl + 1;
    }
  }

  // ----- the rows after start and stop -----

  /** Number of rows the new timer joins, counted from the bottom: two bits of
      the counter per row. */
  function Height(tst: nat, levels: nat): (h: nat)
    requires levels > 0
    ensures 1 <= h <= levels
  {
    if levels == 1 || tst % 4 != 0 then 1 else 1 + Height(tst / 4, levels - 1)
  }

  /** All rows without t. */
  function Unlinked(rows: seq<seq<Tid>>, t: Tid): (r: seq<seq<Tid>>)
    ensures |r| == |rows|
  {
    seq(|rows|, i requires 0 <= i < |rows| => Left(rows[i], t))
  }

  /** t joined to the lowest h rows by the stable linear scan. */
  function Linked(rows: seq<seq<Tid>>, t: Tid, h: nat, dead: Priorities): (r: seq<seq<Tid>>)
    ensures |r| == |rows|
  {
    seq(|rows|, i requires 0 <= i < |rows| => if i >= |rows| - h then Joined(rows[i], t, PRIO, dead) else rows[i])
  }

  /** t linked into the lowest h rows at the given positions. */
  function LinkedAt(rows: seq<seq<Tid>>, t: Tid, h: nat, heads: seq<nat>): (r: seq<seq<Tid>>)
    requires |heads| == |rows| && forall i :: 0 <= i < |rows| ==> heads[i] <= |rows[i]|
    ensures |r| == |rows|
  {
    seq(|rows|, i requires 0 <= i < |rows| =>
      if i >= |rows| - h then rows[i][..heads[i]] + [t] + rows[i][heads[i]..] else rows[i])
  }

  function Heads(rows: seq<seq<Tid>>, t: Tid, dead: Priorities): (r: seq<nat>)
    ensures |r| == |rows| && forall i :: 0 <= i < |rows| ==> r[i] == Head(rows, i, t, dead) <= |rows[i]|
  {
    seq(|rows|, i requires 0 <= i < |rows| => Head(rows, i, t, dead))
  }

  /** A new timer inserted at two positions gives the same row only if they are
      the same. */
  lemma InsertUnique(row: seq<Tid>, t: Tid, k: nat, p: nat)
    requires t !in row && k <= |row| && p <= |row|
    ensures row[..k] + [t] + row[k..] == row[..p] + [t] + row[p..] <==> k == p
  {
    var a, b := row[..k] + [t] + row[k..], row[..p] + [t] + row[p..];
    assert a[k] == t;
    if k < p { assert b[k] == row[k] && row[k] in row; }
    if p < k { assert b[k] == row[k - 1] && row[k - 1] in row; }
  }

  /** Linking by ticks is linking by unbounded deadlines exactly when the search
      sees. */
  lemma LinkExact(rows: seq<seq<Tid>>, t: Tid, h: nat, dead: Priorities)
    requires Rows(rows, dead) && Spread(Bottom(rows), t, dead) && t !in Bottom(rows) && 1 <= h <= |rows|
    ensures LinkedAt(rows, t, h, Heads(rows, t, dead)) == Linked(rows, t, h, dead) <==> Sees(rows, t, dead)
  {
    hide Rows, Spread, Sees, Head, Place;
    SearchExact(rows, t, dead);
    var a, b := LinkedAt(rows, t, h, Heads(rows, t, dead)), Linked(rows, t, h, dead);
    var n := |rows| - 1;
    if a == b {
      assert a[n] == b[n];
      InsertUnique(rows[n], t, Head(rows, n, t, dead), Place(rows[n], t, PRIO, dead));
    }
    if Sees(rows, t, dead) {
      forall i | 0 <= i < |rows| ensures a[i] == b[i] {}
    }
  }

  lemma UnlinkedRows(rows: seq<seq<Tid>>, t: Tid, dead: Priorities)
    requires Rows(rows, dead)
    ensures Rows(Unlinked(rows, t), dead)
    ensures Bottom(Unlinked(rows, t)) == Left(Bottom(rows), t)
    ensures forall x :: x in Bottom(Unlinked(rows, t)) <==> x in Bottom(rows) && x != t
  {
    var r := Unlinked(rows, t);
    forall i | 0 <= i < |rows| ensures NoDup(r[i]) && Sorted(r[i], dead) {
      LeftIn(rows[i], t);
      LeftSorted(rows[i], t, dead);
    }
    forall i | 0 <= i < |rows| - 1 ensures Below(r, i) {
      assert Below(rows, i);
      SubLeft(rows[i], rows[i + 1], t);
    }
    LeftIn(Bottom(rows), t);
  }

  /** Deadlines of timers outside the rows do not matter. */
  lemma RowsFrame(rows: seq<seq<Tid>>, dead: Priorities, t: Tid, d: nat)
    requires Rows(rows, dead) && t !in Bottom(rows)
    ensures Rows(rows, dead[t := d])
  {
    forall i | 0 <= i < |rows| ensures Sorted(rows[i], dead[t := d]) {
      RowIn(rows, dead, i);
      hide NoDup;
    }
  }

  lemma LinkedRows(rows: seq<seq<Tid>>, t: Tid, h: nat, dead: Priorities)
    requires Rows(rows, dead) && t !in Bottom(rows) && 1 <= h <= |rows|
    ensures Rows(Linked(rows, t, h, dead), dead)
    ensures Bottom(Linked(rows, t, h, dead)) == Joined(Bottom(rows), t, PRIO, dead)
  {
    var r := Linked(rows, t, h, dead);
    forall i | 0 <= i < |rows| ensures NoDup(r[i]) && Sorted(r[i], dead) {
      RowIn(rows, dead, i);
      JoinedIn(rows[i], t, PRIO, dead);
      JoinedSorted(rows[i], t, dead);
    }
    forall i | 0 <= i < |rows| - 1 ensures Below(r, i) {
      assert Below(rows, i);
      RowIn(rows, dead, i + 1);
      SubJoined(rows[i], rows[i + 1], t, dead);
    }
  }
}
