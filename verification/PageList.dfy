/** rt_page_alloc and rt_page_free on the linked list of page heads. Pages are
    numbered; a head lies in the first page of its run. */
module PageList {
  import opened PageRuns

  datatype Link = Null | At(page: int)

  /** struct rt_page_head. */
  datatype Head = Head(next: Link, n: int)

  /** The link through which a loop came: rt_page_list or some next field. */
  datatype Place = ListHead | NextOf(page: int)

  // ----- list segments -----

  /** From link l the heads describe s and lead to link e. */
  predicate Seg(mem: map<int, Head>, l: Link, s: seq<Run>, e: Link)
    decreases |s|
  {
    if s == [] then l == e
    else l == At(s[0].at) && s[0].at in mem && mem[s[0].at].n == s[0].n && Seg(mem, mem[s[0].at].next, s[1..], e)
  }

  function First(s: seq<Run>, e: Link): Link {
    if s == [] then e else At(s[0].at)
  }

  lemma {:induction false} SegConcat(mem: map<int, Head>, l: Link, a: seq<Run>, b: seq<Run>, e: Link)
    ensures Seg(mem, l, a + b, e) <==> Seg(mem, l, a, First(b, e)) && Seg(mem, First(b, e), b, e)
    decreases |a|
  {
    if a == [] {
      assert a + b == b;
    } else {
      assert (a + b)[1..] == a[1..] + b;
      if l == At(a[0].at) && a[0].at in mem { SegConcat(mem, mem[a[0].at].next, a[1..], b, e); }
    }
  }

  /** No run of s starts at page x. */
  predicate Clear(s: seq<Run>, x: int) {
    s == [] || (s[0].at != x && Clear(s[1..], x))
  }

  lemma {:induction false} SegFrame(mem: map<int, Head>, l: Link, s: seq<Run>, e: Link, x: int, h: Head)
    requires Seg(mem, l, s, e) && Clear(s, x)
    ensures Seg(mem[x := h], l, s, e)
    decreases |s|
  {
    if s != [] { SegFrame(mem, mem[s[0].at].next, s[1..], e, x, h); }
  }

  lemma {:induction false} CanonClear(s: seq<Run>, lo: int, x: int)
    requires Canon(s, lo) && x <= lo
    ensures Clear(s, x)
    decreases |s|
  {
    if s != [] { CanonClear(s[1..], s[0].at + s[0].n, x); }
  }

  lemma {:induction false} CanonConcat(a: seq<Run>, b: seq<Run>, lo: int)
    ensures Canon(a + b, lo) ==> Canon(a, lo) && Canon(b, End(a, lo)) && End(a, lo) >= lo
    decreases |a|
  {
    if a == [] {
      assert a + b == b;
    } else {
      assert (a + b)[1..] == a[1..] + b;
      CanonConcat(a[1..], b, a[0].at + a[0].n);
    }
  }

  function End(a: seq<Run>, lo: int): int {
    if a == [] then lo else a[|a| - 1].at + a[|a| - 1].n
  }

  lemma {:induction false} ClearBelow(a: seq<Run>, lo: int, x: int)
    requires Canon(a, lo) && x >= End(a, lo)
    ensures Clear(a, x)
    decreases |a|
  {
    if a != [] {
      CanonConcat([a[0]], a[1..], lo);
      assert [a[0]] + a[1..] == a;
      EndGrows(a[1..], a[0].at + a[0].n);
      ClearBelow(a[1..], a[0].at + a[0].n, x);
    }
  }

  lemma {:induction false} EndGrows(a: seq<Run>, lo: int)
    requires Canon(a, lo)
    ensures End(a, lo) >= lo
    decreases |a|
  {
    if a != [] { EndGrows(a[1..], a[0].at + a[0].n); }
  }

  /** Writing the next field of the last head of a redirects the segment. */
  lemma {:induction false} SegRelink(mem: map<int, Head>, l: Link, a: seq<Run>, lo: int, e: Link, e2: Link)
    requires Seg(mem, l, a, e) && Canon(a, lo) && a != []
    ensures var last := a[|a| - 1].at;
      last in mem && Seg(mem[last := mem[last].(next := e2)], l, a, e2)
    decreases |a|
  {
    if |a| > 1 {
      SegRelink(mem, mem[a[0].at].next, a[1..], a[0].at + a[0].n, e, e2);
      LastBeyond(a, lo);
    } else {
      assert a[1..] == [];
    }
  }

  lemma {:induction false} LastBeyond(a: seq<Run>, lo: int)
    requires Canon(a, lo) && a != []
    ensures a[|a| - 1].at > lo && (|a| > 1 ==> a[|a| - 1].at > a[0].at)
    decreases |a|
  {
    if |a| > 1 { LastBeyond(a[1..], a[0].at + a[0].n); }
  }

  class PageList {
    var list: Link
    var mem: map<int, Head>
    ghost var runs: seq<Run>

    /** The list describes the runs, which are in canonical form. */
    ghost predicate Valid()
      reads this
    {
      Canon(runs, -1) && Seg(mem, list, runs, Null)
    }

    /** rt_page_init. */
    constructor (at: int, n: int)
      requires at >= 0 && n > 0
      ensures Valid() && runs == [Run(at, n)]
    {
      list, mem, runs := At(at), map[at := Head(Null, n)], [Run(at, n)];
    }

    /** What a loop knows at position k: `prev` is the link that leads there. */
    ghost predicate Reading(prev: Place, k: int)
      reads this
    {
      && 0 <= k <= |runs|
      && prev == (if k == 0 then ListHead else NextOf(runs[k - 1].at))
      && (prev.NextOf? ==> prev.page in mem)
      && (if prev.ListHead? then list else mem[prev.page].next) == First(runs[k..], Null)
      && Seg(mem, First(runs[k..], Null), runs[k..], Null)
    }

    function Deref(prev: Place): Link
      requires prev.NextOf? ==> prev.page in mem
      reads this
    {
      if prev.ListHead? then list else mem[prev.page].next
    }

    /** Stores through `prev`: the runs before k are followed by z from now on. */
    method Store(prev: Place, l: Link, ghost k: nat, ghost z: seq<Run>)
      requires Canon(runs, -1) && k <= |runs| && Seg(mem, list, runs[..k], First(runs[k..], Null))
      requires prev == (if k == 0 then ListHead else NextOf(runs[k - 1].at)) && (k > 0 ==> runs[k - 1].at in mem)
      requires l == First(z, Null) && Seg(mem, l, z, Null) && Canon(z, End(runs[..k], -1))
      modifies this`list, this`mem
      ensures Seg(mem, list, runs[..k] + z, Null) && runs == old(runs)
    {
      ghost var a := runs[..k];
      assert a + runs[k..] == runs;
      CanonConcat(a, runs[k..], -1);
      if prev.ListHead? {
        list := l;
        assert a == [];
        SegConcat(mem, list, a, z, Null);
      } else {
        assert a[|a| - 1] == runs[k - 1];
        SegRelink(mem, list, a, -1, First(runs[k..], Null), l);
        LastBelow(a, -1, z);
        SegFrame(mem, l, z, Null, prev.page, mem[prev.page].(next := l));
        mem := mem[prev.page := mem[prev.page].(next := l)];
        SegConcat(mem, list, a, z, Null);
      }
    }

    /** rt_page_alloc: the first page of the first run that is long enough. */
    method Alloc(n: nat) returns (r: Link)
      requires Valid()
      modifies this
      ensures Valid()
      ensures r == Null <==> n == 0 || FirstFit(old(runs), n) == |old(runs)|
      ensures r.At? ==> var i := FirstFit(old(runs), n);
        i < |old(runs)| && r.page == old(runs)[i].at && runs == Taken(old(runs), i, n)
      ensures r == Null ==> runs == old(runs)
    {
      hide Canon, Seg, Taken;
      if n == 0 { return Null; }
      var prev;
      ghost var k;
      prev, k := Scan(n);
      var b := Deref(prev);
      if b == Null { return Null; }
      Cut(prev, b.page, n, k);
      r := b;
    }

    /** Takes n pages from the front of run k, whose head is at page b. */
    method Cut(prev: Place, b: int, n: nat, ghost k: nat)
      requires Valid() && Reading(prev, k) && k < |runs| && b == runs[k].at && 0 < n <= runs[k].n
      modifies this
      ensures Valid() && runs == Taken(old(runs), k, n)
    {
      hide Canon, Seg, Free;
      ghost var a, x, z := runs[..k], runs[k], runs[k + 1..];
      Prefix(k);
      HeadOf(k);
      TakenMeaning(runs, -1, k, n);
      ghost var t := Taken(runs, k, n);
      if mem[b].n > n {
        var m := b + n;
        ghost var y := Run(m, x.n - n);
        assert t == a + ([y] + z);
        CanonConcat(a, [y] + z, -1);
        ConsCanon(y, z, End(a, -1));
        ClearBelow(a, -1, m);
        CanonClear(z, m + y.n, m);
        SegFrame(mem, list, a, First(runs[k..], Null), m, Head(mem[b].next, y.n));
        SegFrame(mem, mem[b].next, z, Null, m, Head(mem[b].next, y.n));
        mem := mem[m := Head(mem[b].next, mem[b].n - n)];
        SegCons(mem, y, z, Null);
        Store(prev, At(m), k, [y] + z);
      } else {
        assert t == a + z;
        CanonConcat(a, z, -1);
        SegFirst(mem, mem[b].next, z, Null);
        Store(prev, mem[b].next, k, z);
      }
      runs := t;
    }

    lemma HeadOf(k: nat)
      requires Valid() && k < |runs|
      ensures runs[k].at in mem && mem[runs[k].at].n == runs[k].n && Seg(mem, mem[runs[k].at].next, runs[k + 1..], Null)
      ensures First(runs[k..], Null) == At(runs[k].at)
    {
      Prefix(k);
      assert runs[k..][0] == runs[k] && runs[k..][1..] == runs[k + 1..];
    }

    /** The search loop: stops at the first run of at least n pages, or the end. */
    method Scan(n: nat) returns (prev: Place, ghost k: nat)
      requires Valid()
      ensures Reading(prev, k) && k == FirstFit(runs, n)
    {
      prev, k := ListHead, 0;
      assert runs[0..] == runs;
      SegFirst(mem, list, runs, Null);
      while Deref(prev) != Null && mem[Deref(prev).page].n < n
        invariant Reading(prev, k) && forall j :: 0 <= j < k ==> runs[j].n < n
        decreases |runs| - k
      {
        Forward(prev, k);
        prev := NextOf(Deref(prev).page);
        k := k + 1;
      }
      if k < |runs| { assert runs[k..][0] == runs[k]; }
    }

    lemma Forward(prev: Place, k: nat)
      requires Reading(prev, k) && k < |runs|
      ensures Deref(prev) == At(runs[k].at) && runs[k].at in mem && mem[runs[k].at].n == runs[k].n
      ensures Reading(NextOf(runs[k].at), k + 1)
    {
      assert runs[k..][0] == runs[k] && runs[k..][1..] == runs[k + 1..];
      SegFirst(mem, mem[runs[k].at].next, runs[k + 1..], Null);
    }

    /** rt_page_free of n allocated pages from page `at` on. */
    method Release(at: int, n: int)
      requires Valid() && at >= 0 && n > 0 && Apart(runs, at, n)
      modifies this
      ensures Valid() && runs == Freed(old(runs), at, n)
    {
      hide Canon, Seg, Free, Apart, Freed;
      var prev;
      ghost var k;
      prev, k := Seek(at, n);
      if k < |runs| { HeadOf(k); }
      var b := Deref(prev);
      if b.At? && b.page + mem[b.page].n == at {
        JoinBehind(b.page, at, n, k);
      } else {
        LinkIn(prev, b, at, n, k);
      }
    }

    /** The freed pages lengthen run k, and may close the gap to the next. */
    method JoinBehind(b: int, at: int, n: int, ghost k: nat)
      requires Valid() && n > 0 && at >= 0 && Apart(runs, at, n) && k < |runs| && b == runs[k].at && b + runs[k].n == at
      requires Freed(runs, at, n) == runs[..k] + Freed(runs[k..], at, n)
      modifies this
      ensures Valid() && runs == Freed(old(runs), at, n)
    {
      hide Canon, Seg, Free, Apart, Freed;
      FreedMeaning(runs, -1, at, n);
      FreedJoins(runs, k, at, n);
      ghost var t := Freed(runs, at, n);
      ghost var a, x, z := runs[..k], runs[k], runs[k + 1..];
      assert runs == a + runs[k..] && runs[k..][0] == x && runs[k..][1..] == z;
      Prefix(k);
      HeadOf(k);
      CanonConcat(a, runs[k..], -1);
      CanonSplit(runs[k..], End(a, -1));
      ClearBelow(a, -1, b);
      SegFirst(mem, mem[b].next, z, Null);
      ghost var y: Run, z1;
      var len := mem[b].n + n;
      if mem[b].next == At(b + len) {
        HeadOf(k + 1);
        y, z1 := Run(b, x.n + n + runs[k + 1].n), runs[k + 2..];
        assert z[0] == runs[k + 1] && z[1..] == z1;
        CanonSplit(z, at);
        CanonClear(z1, z[0].at + z[0].n, b);
        SegFrame(mem, mem[b + len].next, z1, Null, b, Head(mem[b + len].next, y.n));
        SegFrame(mem, list, a, At(b), b, Head(mem[b + len].next, y.n));
        mem := mem[b := Head(mem[b + len].next, len + mem[b + len].n)];
      } else {
        y, z1 := Run(b, x.n + n), z;
        CanonClear(z, at, b);
        SegFrame(mem, mem[b].next, z, Null, b, Head(mem[b].next, y.n));
        SegFrame(mem, list, a, At(b), b, Head(mem[b].next, y.n));
        mem := mem[b := Head(mem[b].next, len)];
      }
      assert t == a + ([y] + z1);
      SegCons(mem, y, z1, Null);
      SegConcat(mem, list, a, [y] + z1, Null);
      runs := t;
    }

    /** The freed pages become the head of a run in front of run k, joined to it
        when they touch. */
    method LinkIn(prev: Place, b: Link, at: int, n: int, ghost k: nat)
      requires Valid() && Reading(prev, k) && b == First(runs[k..], Null) && n > 0 && at >= 0 && Apart(runs, at, n)
      requires k < |runs| ==> runs[k].at >= at + n
      requires Freed(runs, at, n) == runs[..k] + Freed(runs[k..], at, n)
      modifies this
      ensures Valid() && runs == Freed(old(runs), at, n)
    {
      hide Canon, Seg, Free, Apart;
      FreedMeaning(runs, -1, at, n);
      ghost var t := Freed(runs, at, n);
      ghost var a, z := runs[..k], runs[k..];
      Prefix(k);
      assert runs == a + z;
      CanonConcat(a, z, -1);
      ghost var y: Run, z1;
      var h;
      if b == At(at + n) {
        HeadOf(k);
        assert z[0] == runs[k] && z[1..] == runs[k + 1..];
        y, z1 := Run(at, n + z[0].n), z[1..];
        h := Head(mem[b.page].next, mem[b.page].n + n);
        CanonSplit(z, End(a, -1));
        SegFirst(mem, mem[b.page].next, z1, Null);
      } else {
        y, z1 := Run(at, n), z;
        h := Head(b, n);
      }
      assert t == a + ([y] + z1) by { if k < |runs| { PositiveRun(k); assert z[0] == runs[k]; } }
      CanonConcat(a, [y] + z1, -1);
      ConsCanon(y, z1, End(a, -1));
      ClearBelow(a, -1, at);
      CanonClear(z1, at + y.n, at);
      SegFrame(mem, list, a, First(z, Null), at, h);
      SegFrame(mem, h.next, z1, Null, at, h);
      mem := mem[at := h];
      SegCons(mem, y, z1, Null);
      Store(prev, At(at), k, [y] + z1);
      runs := t;
    }

    lemma PositiveRun(k: nat)
      requires Valid() && k < |runs|
      ensures runs[k].n > 0
    {
      assert runs == runs[..k] + runs[k..];
      CanonConcat(runs[..k], runs[k..], -1);
    }

    /** The search of rt_page_free: past every run that ends before `at`. */
    method Seek(at: int, n: int) returns (prev: Place, ghost k: nat)
      requires Valid()
      ensures Reading(prev, k) && Freed(runs, at, n) == runs[..k] + Freed(runs[k..], at, n)
      ensures k == |runs| || runs[k].at + runs[k].n == at || runs[k].at >= at + n
    {
      hide Freed, Canon;
      prev, k := ListHead, 0;
      assert runs[0..] == runs && runs[..0] == [];
      SegFirst(mem, list, runs, Null);
      while Deref(prev) != Null && mem[Deref(prev).page].n + Deref(prev).page != at && Deref(prev).page < at + n
        invariant Reading(prev, k) && Freed(runs, at, n) == runs[..k] + Freed(runs[k..], at, n)
        decreases |runs| - k
      {
        Forward(prev, k);
        FreedSkip(runs, k, at, n);
        prev := NextOf(Deref(prev).page);
        k := k + 1;
      }
      if k < |runs| { Forward(prev, k); }
    }

    lemma Prefix(k: nat)
      requires Valid() && k <= |runs|
      ensures Seg(mem, list, runs[..k], First(runs[k..], Null)) && Seg(mem, First(runs[k..], Null), runs[k..], Null)
      ensures k > 0 ==> runs[k - 1].at in mem
    {
      assert runs == runs[..k] + runs[k..];
      SegConcat(mem, list, runs[..k], runs[k..], Null);
      if k > 0 {
        assert runs == runs[..k - 1] + runs[k - 1..];
        SegConcat(mem, list, runs[..k - 1], runs[k - 1..], Null);
        assert runs[k - 1..][0] == runs[k - 1];
      }
    }
  }

  lemma SegFirst(mem: map<int, Head>, l: Link, s: seq<Run>, e: Link)
    requires Seg(mem, l, s, e)
    ensures l == First(s, e)
  {
  }

  /** The search passes a run that ends before `at` and does not touch it. */
  lemma FreedSkip(s: seq<Run>, k: nat, at: int, n: int)
    requires k < |s| && Freed(s, at, n) == s[..k] + Freed(s[k..], at, n)
    requires s[k].at + s[k].n != at && s[k].at < at + n
    ensures Freed(s, at, n) == s[..k + 1] + Freed(s[k + 1..], at, n)
  {
    assert s[k..][0] == s[k] && s[k..][1..] == s[k + 1..];
    assert s[..k + 1] == s[..k] + [s[k]];
  }

  /** The case that lengthens run k. */
  lemma FreedJoins(s: seq<Run>, k: nat, at: int, n: int)
    requires k < |s| && Freed(s, at, n) == s[..k] + Freed(s[k..], at, n) && s[k].at + s[k].n == at
    ensures k + 1 < |s| && s[k + 1].at == at + n ==>
      Freed(s, at, n) == s[..k] + ([Run(s[k].at, s[k].n + n + s[k + 1].n)] + s[k + 2..])
    ensures !(k + 1 < |s| && s[k + 1].at == at + n) ==>
      Freed(s, at, n) == s[..k] + ([Run(s[k].at, s[k].n + n)] + s[k + 1..])
  {
    assert s[k..][0] == s[k] && s[k..][1..] == s[k + 1..];
    if k + 1 < |s| { assert s[k..][1] == s[k + 1] && s[k..][2..] == s[k + 2..]; }
  }

  lemma CanonSplit(s: seq<Run>, lo: int)
    requires Canon(s, lo) && s != []
    ensures s[0].n > 0 && s[0].at > lo && Canon(s[1..], s[0].at + s[0].n)
  {
  }

  lemma SegCons(mem: map<int, Head>, y: Run, z: seq<Run>, e: Link)
    ensures Seg(mem, At(y.at), [y] + z, e) <==> y.at in mem && mem[y.at].n == y.n && Seg(mem, mem[y.at].next, z, e)
  {
    assert ([y] + z)[1..] == z;
  }

  lemma LastBelow(a: seq<Run>, lo: int, z: seq<Run>)
    requires Canon(a, lo) && a != [] && Canon(z, End(a, lo))
    ensures Clear(z, a[|a| - 1].at)
  {
    LastPositive(a, lo);
    CanonClear(z, End(a, lo), a[|a| - 1].at);
  }

  lemma {:induction false} LastPositive(a: seq<Run>, lo: int)
    requires Canon(a, lo) && a != []
    ensures a[|a| - 1].n > 0
    decreases |a|
  {
    if |a| > 1 { LastPositive(a[1..], a[0].at + a[0].n); }
  }
}
