/** The run queues and the bitmap over them: one level of 32 priorities, or two
    levels of 256 (a group word over 32 bytes). */
module ReadyQueue {
  import opened IpcQueue
  import opened Words
  import opened Bits

  datatype Ready = Ready(two: bool, queues: seq<seq<Tid>>, group: nat, table: seq<nat>)

  /** The attributes a thread caches with its priority: the exponents of
      number_mask and high_mask. */
  datatype Mask = Mask(number: nat, high: nat)

  function MaskOf(two: bool, p: nat): Mask {
    if two then Mask(p / 8, p % 8) else Mask(p, 0)
  }

  function Levels(two: bool): nat {
    if two then 256 else 32
  }

  function Init(two: bool): Ready {
    Ready(two, seq(Levels(two), _ => []), 0, seq(32, _ => 0))
  }

  ghost predicate Sized(r: Ready) {
    |r.queues| == Levels(r.two) && |r.table| == 32
  }

  /** The bit of priority p says whether its queue has threads. */
  ghost predicate BitAt(r: Ready, p: nat)
    requires Sized(r) && p < Levels(r.two)
  {
    (if r.two then Bit(r.table[p / 8], p % 8) else Bit(r.group, p)) <==> r.queues[p] != []
  }

  ghost predicate GroupAt(r: Ready, n: nat)
    requires Sized(r) && n < 32
  {
    r.table[n] < 256 && (r.two ==> (Bit(r.group, n) <==> r.table[n] != 0))
  }

  ghost predicate Agree(r: Ready) {
    && Sized(r) && r.group < 0x1_0000_0000
    && (forall p :: 0 <= p < Levels(r.two) ==> BitAt(r, p))
    && (forall n :: 0 <= n < 32 ==> GroupAt(r, n))
  }

  /** rt_schedule_insert_thread. */
  function Insert(r: Ready, t: Tid, p: nat, m: Mask): Ready
    requires p < |r.queues| && m.number < |r.table|
  {
    r.(queues := r.queues[p := r.queues[p] + [t]],
       table := if r.two then r.table[m.number := SetBit(r.table[m.number], m.high)] else r.table,
       group := SetBit(r.group, m.number))
  }

  /** rt_schedule_remove_thread. */
  function Remove(r: Ready, t: Tid, p: nat, m: Mask): Ready
    requires p < |r.queues| && m.number < |r.table|
  {
    var q := Left(r.queues[p], t);
    var r1 := r.(queues := r.queues[p := q]);
    if q != [] then r1
    else if r.two then
      var b := ClearBit(r.table[m.number], m.high);
      r1.(table := r.table[m.number := b], group := if b == 0 then ClearBit(r.group, m.number) else r.group)
    else r1.(group := ClearBit(r.group, m.number))
  }

  lemma SameByte(p: nat, x: nat)
    requires p / 8 == x / 8 && p % 8 == x % 8
    ensures p == x
  {
  }

  /** Insertion keeps bitmap and queues in agreement. */
  lemma InsertAgree(r: Ready, t: Tid, p: nat)
    requires Agree(r) && p < Levels(r.two)
    ensures Agree(Insert(r, t, p, MaskOf(r.two, p)))
  {
    var m := MaskOf(r.two, p);
    var r1 := Insert(r, t, p, m);
    Powers();
    BitBounds(r.group, m.number, 32);
    assert GroupAt(r, m.number) && BitAt(r, p);
    BitBounds(r.table[m.number], m.high, 8);
    forall x | 0 <= x < Levels(r.two) ensures BitAt(r1, x) {
      assert BitAt(r, x);
      if r.two {
        SetBitMeaning(r.table[m.number], m.high, x % 8);
        if x / 8 == m.number && x % 8 == m.high { SameByte(p, x); }
      } else {
        SetBitMeaning(r.group, p, x);
      }
    }
    forall n | 0 <= n < 32 ensures GroupAt(r1, n) {
      assert GroupAt(r, n);
      SetBitMeaning(r.group, m.number, n);
    }
  }

  lemma RemoveBits(r: Ready, t: Tid, p: nat, x: nat)
    requires Agree(r) && p < Levels(r.two) && x < Levels(r.two)
    ensures var r1 := Remove(r, t, p, MaskOf(r.two, p)); Sized(r1) && BitAt(r1, x)
  {
    var m := MaskOf(r.two, p);
    assert BitAt(r, x);
    if r.two {
      ClearBitMeaning(r.table[m.number], m.high, x % 8);
      if x / 8 == m.number && x % 8 == m.high { SameByte(p, x); }
    } else {
      ClearBitMeaning(r.group, p, x);
    }
    if x == p && Left(r.queues[p], t) != [] { assert r.queues[p] != []; }
  }

  lemma RemoveGroup(r: Ready, t: Tid, p: nat, n: nat)
    requires Agree(r) && p < Levels(r.two) && n < 32
    ensures var r1 := Remove(r, t, p, MaskOf(r.two, p)); Sized(r1) && GroupAt(r1, n)
  {
    var m := MaskOf(r.two, p);
    assert GroupAt(r, n) && GroupAt(r, m.number);
    Powers();
    BitBounds(r.table[m.number], m.high, 8);
    ClearBitMeaning(r.group, m.number, n);
    if r.two && Left(r.queues[p], t) == [] && n == m.number {
      var b := ClearBit(r.table[n], m.high);
      if b != 0 {
        LowBound(b, 8);
        LowMeaning(b);
        ClearBitMeaning(r.table[n], m.high, Low(b));
        BitNonzero(r.table[n], Low(b));
      }
    }
  }

  lemma RemoveAgree(r: Ready, t: Tid, p: nat)
    requires Agree(r) && p < Levels(r.two)
    ensures Agree(Remove(r, t, p, MaskOf(r.two, p)))
  {
    var r1 := Remove(r, t, p, MaskOf(r.two, p));
    assert r1.group < 0x1_0000_0000 by {
      Powers();
      BitBounds(r.group, MaskOf(r.two, p).number, 32);
    }
    forall x | 0 <= x < Levels(r.two) ensures Sized(r1) && BitAt(r1, x) { RemoveBits(r, t, p, x); }
    forall n | 0 <= n < 32 ensures Sized(r1) && GroupAt(r1, n) { RemoveGroup(r, t, p, n); }
  }

  ghost predicate SomeReady(r: Ready) {
    exists p :: 0 <= p < |r.queues| && r.queues[p] != []
  }

  /** The priority that rt_schedule computes from the bitmap. */
  function Highest(r: Ready): int
    requires r.group < 0x1_0000_0000
    requires r.two ==> 0 <= Ffs(r.group) - 1 < |r.table| && r.table[Ffs(r.group) - 1] < 256
  {
    if r.two then
      var number := Ffs(r.group) - 1;
      number * 8 + Ffs(r.table[number]) - 1
    else Ffs(r.group) - 1
  }

  lemma FindGroup(r: Ready, q: nat)
    requires Agree(r) && r.two && q < 256 && r.queues[q] != []
    ensures r.group > 0 && Bit(r.group, q / 8) && r.table[q / 8] > 0 && Low(r.group) < 32 && Low(r.group) <= q / 8
  {
    assert BitAt(r, q);
    BitNonzero(r.table[q / 8], q % 8);
    assert GroupAt(r, q / 8);
    BitNonzero(r.group, q / 8);
    LowMeaning(r.group);
    Powers();
    LowBound(r.group, 32);
  }

  /** The bitmap finds the most urgent priority that has a thread. */
  lemma HighestOne(r: Ready, q: nat)
    requires Agree(r) && !r.two && q < 32 && r.queues[q] != []
    ensures 0 <= Highest(r) <= q && r.queues[Highest(r)] != []
  {
    assert BitAt(r, q);
    BitNonzero(r.group, q);
    FfsCorrect(r.group);
    LowMeaning(r.group);
    Powers();
    LowBound(r.group, 32);
    assert BitAt(r, Low(r.group));
  }

  lemma FfsByte(b: nat)
    requires 0 < b < 256
    ensures Ffs(b) == Low(b) + 1 && Low(b) < 8 && Bit(b, Low(b)) && forall j :: 0 <= j < Low(b) ==> !Bit(b, j)
  {
    FfsCorrect(b);
    Powers();
    LowBound(b, 8);
  }

  lemma HighestTwo(r: Ready, q: nat)
    requires Agree(r) && r.two && q < 256 && r.queues[q] != []
    ensures 0 <= Ffs(r.group) - 1 < 32 && r.table[Ffs(r.group) - 1] < 256
    ensures 0 <= Highest(r) <= q && r.queues[Highest(r)] != []
  {
    hide Ffs, Low, Bit;
    FindGroup(r, q);
    FfsCorrect(r.group);
    LowMeaning(r.group);
    var n := Low(r.group);
    assert GroupAt(r, n);
    var b := r.table[n];
    FfsByte(b);
    var p := n * 8 + Low(b);
    assert p / 8 == n && p % 8 == Low(b);
    assert BitAt(r, p) && BitAt(r, q);
    if q / 8 == n { assert !(q % 8 < Low(b)); }
  }

  /** Whenever some thread is ready, the priority rt_schedule computes has one,
      and every more urgent queue is empty. */
  lemma HighestCorrect(r: Ready)
    requires Agree(r) && SomeReady(r)
    ensures r.two ==> 0 <= Ffs(r.group) - 1 < 32 && r.table[Ffs(r.group) - 1] < 256
    ensures 0 <= Highest(r) < |r.queues| && r.queues[Highest(r)] != []
    ensures forall q :: 0 <= q < Highest(r) ==> r.queues[q] == []
  {
    var q0 :| 0 <= q0 < |r.queues| && r.queues[q0] != [];
    if r.two { HighestTwo(r, q0); } else { HighestOne(r, q0); }
    forall q | 0 <= q < Highest(r) ensures r.queues[q] == [] {
      if r.queues[q] != [] {
        if r.two { HighestTwo(r, q); } else { HighestOne(r, q); }
      }
    }
  }

  lemma {:induction false} ZeroBits(i: nat)
    ensures !Bit(0, i)
  {
    if i > 0 { ZeroBits(i - 1); }
  }

  lemma InitAgree(two: bool)
    ensures Agree(Init(two))
  {
    forall p | 0 <= p < Levels(two) ensures BitAt(Init(two), p) {
      ZeroBits(p);
      ZeroBits(p % 8);
    }
    forall n | 0 <= n < 32 ensures GroupAt(Init(two), n) { ZeroBits(n); }
  }
}
