/** The page allocator's free list as a sequence of runs of pages. */
module PageRuns {

  /** n pages from page `at` on. */
  datatype Run = Run(at: int, n: int)

  /** Runs in order, none empty, none touching the next; all beyond page lo. */
  predicate Canon(s: seq<Run>, lo: int) {
    s == [] || (s[0].n > 0 && s[0].at > lo && Canon(s[1..], s[0].at + s[0].n))
  }

  /** Page x is free. */
  predicate Free(s: seq<Run>, x: int) {
    s != [] && (s[0].at <= x < s[0].at + s[0].n || Free(s[1..], x))
  }

  lemma {:induction false} FreeAbove(s: seq<Run>, lo: int, x: int)
    requires Canon(s, lo) && Free(s, x)
    ensures x > lo
    decreases |s|
  {
    if !(s[0].at <= x < s[0].at + s[0].n) { FreeAbove(s[1..], s[0].at + s[0].n, x); }
  }

  /** The list is determined by the set of free pages. */
  lemma {:induction false} Canonical(s: seq<Run>, t: seq<Run>, lo: int)
    requires Canon(s, lo) && Canon(t, lo) && forall x :: Free(s, x) <==> Free(t, x)
    ensures s == t
    decreases |s|
  {
    if s == [] {
      if t != [] { assert Free(t, t[0].at); }
    } else {
      FirstSame(s, t, lo);
      var e := s[0].at + s[0].n;
      forall x ensures Free(s[1..], x) <==> Free(t[1..], x) {
        assert Free(s, x) <==> Free(t, x);
        if Free(s[1..], x) { FreeAbove(s[1..], e, x); }
        if Free(t[1..], x) { FreeAbove(t[1..], e, x); }
      }
      Canonical(s[1..], t[1..], e);
    }
  }

  lemma FirstSame(s: seq<Run>, t: seq<Run>, lo: int)
    requires Canon(s, lo) && Canon(t, lo) && s != [] && forall x :: Free(s, x) <==> Free(t, x)
    ensures t != [] && t[0] == s[0]
  {
    assert Free(s, s[0].at);
    var a, b := s[0], t[0];
    assert Free(t, b.at);
    if a.at < b.at {
      if Free(t[1..], a.at) { FreeAbove(t[1..], b.at + b.n, a.at); }
    } else if b.at < a.at {
      if Free(s[1..], b.at) { FreeAbove(s[1..], a.at + a.n, b.at); }
    } else {
      EndNotFree(s);
      EndNotFree(t);
      assert Free(s, a.at + a.n) <==> Free(t, a.at + a.n);
      assert Free(s, b.at + b.n) <==> Free(t, b.at + b.n);
    }
  }

  /** The page behind the first run is not free. */
  lemma EndNotFree(s: seq<Run>)
    requires s != [] && Canon(s[1..], s[0].at + s[0].n)
    ensures !Free(s, s[0].at + s[0].n)
  {
    var e := s[0].at + s[0].n;
    if Free(s[1..], e) { FreeAbove(s[1..], e, e); }
  }

  // ----- freeing -----

  /** rt_page_free: join the run before, the run behind, both or none. */
  function Freed(s: seq<Run>, at: int, n: int): seq<Run>
    decreases |s|
  {
    if s == [] then [Run(at, n)]
    else
      var b := s[0];
      if b.at + b.n == at then
        if |s| > 1 && s[1].at == at + n then [Run(b.at, b.n + n + s[1].n)] + s[2..]
        else [Run(b.at, b.n + n)] + s[1..]
      else if b.at == at + n then [Run(at, n + b.n)] + s[1..]
      else if b.at > at + n then [Run(at, n)] + s
      else [b] + Freed(s[1..], at, n)
  }

  /** None of the n pages from `at` is free. */
  ghost predicate Apart(s: seq<Run>, at: int, n: int) {
    forall x :: at <= x < at + n ==> !Free(s, x)
  }

  lemma ConsFree(b: Run, s: seq<Run>, x: int)
    ensures Free([b] + s, x) <==> b.at <= x < b.at + b.n || Free(s, x)
  {
    assert ([b] + s)[1..] == s;
  }

  lemma ConsCanon(b: Run, s: seq<Run>, lo: int)
    ensures Canon([b] + s, lo) <==> b.n > 0 && b.at > lo && Canon(s, b.at + b.n)
  {
    assert ([b] + s)[1..] == s;
  }

  lemma ApartFirst(s: seq<Run>, lo: int, at: int, n: int)
    requires Canon(s, lo) && s != [] && n > 0 && Apart(s, at, n)
    ensures s[0].at + s[0].n <= at || at + n <= s[0].at
    ensures Apart(s[1..], at, n)
  {
    var b := s[0];
    if b.at + b.n > at && at + n > b.at {
      var x := if b.at > at then b.at else at;
      assert Free(s, x);
    }
    forall x | at <= x < at + n ensures !Free(s[1..], x) { assert !Free(s, x); }
  }

  /** Freeing keeps the list canonical and frees exactly those pages. */
  lemma {:induction false} FreedMeaning(s: seq<Run>, lo: int, at: int, n: int)
    requires Canon(s, lo) && n > 0 && Apart(s, at, n) && at > lo
    ensures Canon(Freed(s, at, n), lo)
    ensures forall x :: Free(Freed(s, at, n), x) <==> Free(s, x) || at <= x < at + n
    decreases |s|
  {
    if s == [] {
      forall x ensures Free([Run(at, n)], x) <==> at <= x < at + n { ConsFree(Run(at, n), [], x); }
      ConsCanon(Run(at, n), [], lo);
    } else {
      var b, r := s[0], s[1..];
      ApartFirst(s, lo, at, n);
      if b.at + b.n == at {
        JoinBefore(s, lo, at, n);
      } else if b.at == at + n {
        ConsCanon(Run(at, n + b.n), r, lo);
        forall x ensures Free(Freed(s, at, n), x) <==> Free(s, x) || at <= x < at + n { ConsFree(Run(at, n + b.n), r, x); }
      } else if b.at > at + n {
        ConsCanon(Run(at, n), s, lo);
        CanonFrom(s, lo, at + n);
        forall x ensures Free(Freed(s, at, n), x) <==> Free(s, x) || at <= x < at + n { ConsFree(Run(at, n), s, x); }
      } else {
        FreedMeaning(r, b.at + b.n, at, n);
        ConsCanon(b, Freed(r, at, n), lo);
        forall x ensures Free(Freed(s, at, n), x) <==> Free(s, x) || at <= x < at + n { ConsFree(b, Freed(r, at, n), x); }
      }
    }
  }

  lemma CanonFrom(s: seq<Run>, lo: int, to: int)
    requires Canon(s, lo) && (s == [] || s[0].at > to)
    ensures Canon(s, to)
  {
  }

  lemma JoinBefore(s: seq<Run>, lo: int, at: int, n: int)
    requires Canon(s, lo) && s != [] && s[0].at + s[0].n == at && n > 0 && Apart(s, at, n)
    ensures Canon(Freed(s, at, n), lo)
    ensures forall x :: Free(Freed(s, at, n), x) <==> Free(s, x) || at <= x < at + n
  {
    var b, r := s[0], s[1..];
    ApartFirst(s, lo, at, n);
    if |s| > 1 && s[1].at == at + n {
      var m, z := Run(b.at, b.n + n + s[1].n), s[2..];
      assert r[1..] == z && r[0] == s[1];
      ConsCanon(m, z, lo);
      forall x ensures Free(Freed(s, at, n), x) <==> Free(s, x) || at <= x < at + n { ConsFree(m, z, x); }
    } else {
      var m := Run(b.at, b.n + n);
      ConsCanon(m, r, lo);
      if r != [] { ApartFirst(r, at, at, n); }
      CanonFrom(r, at, at + n);
      forall x ensures Free(Freed(s, at, n), x) <==> Free(s, x) || at <= x < at + n { ConsFree(m, r, x); }
    }
  }

  function FreedAll(s: seq<Run>, rs: seq<Run>): seq<Run>
    decreases |rs|
  {
    if rs == [] then s else FreedAll(Freed(s, rs[0].at, rs[0].n), rs[1..])
  }

  /** Each run of rs is allocated when its turn to be freed comes. */
  ghost predicate Legal(s: seq<Run>, rs: seq<Run>)
    decreases |rs|
  {
    rs == [] || (rs[0].n > 0 && rs[0].at >= 0 && Apart(s, rs[0].at, rs[0].n)
                 && Legal(Freed(s, rs[0].at, rs[0].n), rs[1..]))
  }

  lemma {:induction false} FreedAllMeaning(s: seq<Run>, rs: seq<Run>)
    requires Canon(s, -1) && Legal(s, rs)
    ensures Canon(FreedAll(s, rs), -1)
    ensures forall x :: Free(FreedAll(s, rs), x) <==> Free(s, x) || Free(rs, x)
    decreases |rs|
  {
    if rs != [] {
      FreedMeaning(s, -1, rs[0].at, rs[0].n);
      FreedAllMeaning(Freed(s, rs[0].at, rs[0].n), rs[1..]);
    }
  }

  /** Any two orders, and even any two ways of cutting up the same pages, lead to
      the same list. */
  lemma OrderIrrelevant(s: seq<Run>, rs: seq<Run>, ts: seq<Run>)
    requires Canon(s, -1) && Legal(s, rs) && Legal(s, ts) && forall x :: Free(rs, x) <==> Free(ts, x)
    ensures FreedAll(s, rs) == FreedAll(s, ts)
  {
    FreedAllMeaning(s, rs);
    FreedAllMeaning(s, ts);
    Canonical(FreedAll(s, rs), FreedAll(s, ts), -1);
  }

  // ----- allocating -----

  /** Index of the first run with at least n pages, or the length. */
  function FirstFit(s: seq<Run>, n: int): (i: nat)
    ensures i <= |s| && (i < |s| ==> s[i].n >= n) && forall j :: 0 <= j < i ==> s[j].n < n
  {
    if s == [] || s[0].n >= n then 0 else 1 + FirstFit(s[1..], n)
  }

  /** rt_page_alloc takes the front of that run. */
  function Taken(s: seq<Run>, i: nat, n: int): seq<Run>
    requires i < |s|
  {
    s[..i] + (if s[i].n > n then [Run(s[i].at + n, s[i].n - n)] else []) + s[i + 1..]
  }

  lemma TakenCons(s: seq<Run>, i: nat, n: int)
    requires 0 < i < |s|
    ensures Taken(s, i, n) == [s[0]] + Taken(s[1..], i - 1, n)
  {
    assert s[..i] == [s[0]] + s[1..][..i - 1] && s[1..][i..] == s[i + 1..];
  }

  lemma {:induction false} TakenMeaning(s: seq<Run>, lo: int, i: nat, n: int)
    requires Canon(s, lo) && i < |s| && 0 < n <= s[i].n
    ensures Canon(Taken(s, i, n), lo) && s[i].at > lo
    ensures forall x :: Free(Taken(s, i, n), x) <==> Free(s, x) && !(s[i].at <= x < s[i].at + n)
    ensures forall x :: s[i].at <= x < s[i].at + n ==> Free(s, x)
    decreases i
  {
    var b, r := s[0], s[1..];
    var e := b.at + b.n;
    forall x | Free(r, x) ensures x > e { FreeAbove(r, e, x); }
    if i == 0 {
      if b.n > n {
        var m := Run(b.at + n, b.n - n);
        assert Taken(s, 0, n) == [m] + r;
        ConsCanon(m, r, lo);
        forall x ensures Free([m] + r, x) <==> Free(s, x) && !(b.at <= x < b.at + n) { ConsFree(m, r, x); }
      } else {
        assert Taken(s, 0, n) == r;
        CanonFrom(r, e, lo);
      }
    } else {
      TakenCons(s, i, n);
      TakenMeaning(r, e, i - 1, n);
      ConsCanon(b, Taken(r, i - 1, n), lo);
      forall x ensures Free(Taken(s, i, n), x) <==> Free(s, x) && !(s[i].at <= x < s[i].at + n) {
        ConsFree(b, Taken(r, i - 1, n), x);
      }
    }
  }

  /** Freeing what was just allocated restores the list exactly. */
  lemma FreeUndoesAlloc(s: seq<Run>, i: nat, n: int)
    requires Canon(s, -1) && i < |s| && 0 < n <= s[i].n
    ensures Freed(Taken(s, i, n), s[i].at, n) == s
  {
    TakenMeaning(s, -1, i, n);
    FreedMeaning(Taken(s, i, n), -1, s[i].at, n);
    Canonical(Freed(Taken(s, i, n), s[i].at, n), s, -1);
  }
}
