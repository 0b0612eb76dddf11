/** Single bits of unsigned words, and __rt_ffs with its table. */
module Bits {
  import opened Words

  predicate Bit(w: nat, i: nat) {
    if i == 0 then w % 2 == 1 else Bit(w / 2, i - 1)
  }

  /** w | (1 << i) */
  function SetBit(w: nat, i: nat): nat {
    if i == 0 then w / 2 * 2 + 1 else SetBit(w / 2, i - 1) * 2 + w % 2
  }

  /** w & ~(1 << i) */
  function ClearBit(w: nat, i: nat): nat {
    if i == 0 then w / 2 * 2 else ClearBit(w / 2, i - 1) * 2 + w % 2
  }

  lemma {:induction false} SetBitMeaning(w: nat, i: nat, j: nat)
    ensures Bit(SetBit(w, i), j) <==> j == i || Bit(w, j)
  {
    if i > 0 && j > 0 { SetBitMeaning(w / 2, i - 1, j - 1); }
  }

  lemma {:induction false} ClearBitMeaning(w: nat, i: nat, j: nat)
    ensures Bit(ClearBit(w, i), j) <==> j != i && Bit(w, j)
  {
    if i > 0 && j > 0 { ClearBitMeaning(w / 2, i - 1, j - 1); }
  }

  lemma {:induction false} BitBounds(w: nat, i: nat, k: nat)
    requires i < k && w < Pow2(k)
    ensures 0 < SetBit(w, i) < Pow2(k) && ClearBit(w, i) < Pow2(k)
  {
    if i > 0 { BitBounds(w / 2, i - 1, k - 1); }
  }

  lemma {:induction false} BitNonzero(w: nat, i: nat)
    requires Bit(w, i)
    ensures w != 0
  {
    if i > 0 { BitNonzero(w / 2, i - 1); }
  }

  // ----- bit by bit -----

  datatype Gate = AND | OR | XOR

  predicate Gated(g: Gate, x: bool, y: bool) {
    match g
    case AND => x && y
    case OR => x || y
    case XOR => x != y
  }

  /** The lowest n bits of a and b through a gate. */
  function Bitwise(g: Gate, a: nat, b: nat, n: nat): (r: nat)
    ensures r < Pow2(n)
  {
    if n == 0 then 0
    else 2 * Bitwise(g, a / 2, b / 2, n - 1) + if Gated(g, a % 2 == 1, b % 2 == 1) then 1 else 0
  }

  lemma {:induction false} BitwiseMeaning(g: Gate, a: nat, b: nat, n: nat, i: nat)
    requires i < n
    ensures Bit(Bitwise(g, a, b, n), i) <==> Gated(g, Bit(a, i), Bit(b, i))
  {
    hide Pow2, Gated;
    var r, x := Bitwise(g, a, b, n), Bitwise(g, a / 2, b / 2, n - 1);
    assert r / 2 == x && (r % 2 == 1 <==> Gated(g, a % 2 == 1, b % 2 == 1));
    if i > 0 { BitwiseMeaning(g, a / 2, b / 2, n - 1, i - 1); }
  }

  /** A bit on top. */
  lemma {:induction false} BitOnTop(v: nat, n: nat, i: nat)
    requires v < Pow2(n) && i <= n
    ensures Bit(v + Pow2(n), i) <==> i == n || Bit(v, i)
  {
    if n > 0 {
      assert (v + Pow2(n)) / 2 == v / 2 + Pow2(n - 1) && (v + Pow2(n)) % 2 == v % 2;
      if i > 0 { BitOnTop(v / 2, n - 1, i - 1); }
    }
  }

  lemma {:induction false} NoBitAbove(v: nat, n: nat, i: nat)
    requires v < Pow2(n) && n <= i
    ensures !Bit(v, i)
    decreases i
  {
    if i > 0 {
      if n > 0 { NoBitAbove(v / 2, n - 1, i - 1); } else { NoBitAbove(0, 0, i - 1); }
    }
  }

  /** Dropping the bits from n on. */
  lemma {:induction false} BitBelow(v: nat, n: nat, i: nat)
    requires i < n
    ensures Pow2(n) > 0 && (Bit(v % Pow2(n), i) <==> Bit(v, i))
  {
    hide Pow2;
    HalfMod(v, n);
    if i > 0 { BitBelow(v / 2, n - 1, i - 1); }
  }

  /** Multiplying by a power of two moves the bits up. */
  lemma {:induction false} BitShifted(v: nat, n: nat, i: nat)
    ensures Bit(v * Pow2(n), i) <==> i >= n && Bit(v, i - n)
    decreases n
  {
    if n > 0 {
      var w := v * Pow2(n - 1);
      assert v * Pow2(n) == 2 * w;
      if i > 0 { BitShifted(v, n - 1, i - 1); }
    }
  }

  /** What is missing to all ones has the other bits. */
  lemma {:induction false} BitFlipped(v: nat, n: nat, i: nat)
    requires v < Pow2(n) && i < n
    ensures Bit(Pow2(n) - 1 - v, i) <==> !Bit(v, i)
  {
    assert (Pow2(n) - 1 - v) % 2 == 1 - v % 2 && (Pow2(n) - 1 - v) / 2 == Pow2(n - 1) - 1 - v / 2;
    if i > 0 { BitFlipped(v / 2, n - 1, i - 1); }
  }

  /** Number of the lowest bit that is set. */
  function Low(w: nat): nat
    requires w > 0
  {
    if w % 2 == 1 then 0 else 1 + Low(w / 2)
  }

  lemma {:induction false} LowMeaning(w: nat)
    requires w > 0
    ensures Bit(w, Low(w)) && forall j :: 0 <= j < Low(w) ==> !Bit(w, j)
  {
    if w % 2 == 0 {
      LowMeaning(w / 2);
      forall j | 0 <= j < Low(w) ensures !Bit(w, j) {
        assert j > 0 ==> !Bit(w / 2, j - 1);
      }
    }
  }

  lemma {:induction false} LowBound(w: nat, k: nat)
    requires 0 < w < Pow2(k)
    ensures Low(w) < k
  {
    if w % 2 == 0 { LowBound(w / 2, k - 1); }
  }

  // ----- __rt_ffs -----

  /** __lowest_bit_bitmap: its 16 rows differ in the first column only. */
  const FIRST_COLUMN: seq<nat> := [0, 4, 5, 4, 6, 4, 5, 4, 7, 4, 5, 4, 6, 4, 5, 4]
  const OTHER_COLUMNS: seq<nat> := [0, 0, 1, 0, 2, 0, 1, 0, 3, 0, 1, 0, 2, 0, 1, 0]

  function LowestBitmap(v: nat): nat
    requires v < 256
  {
    if v % 16 == 0 then FIRST_COLUMN[v / 16] else OTHER_COLUMNS[v % 16]
  }

  /** __rt_ffs on a 32-bit word. */
  function Ffs(value: nat): nat
    requires value < 0x1_0000_0000
  {
    if value == 0 then 0
    else if value % 0x100 != 0 then LowestBitmap(value % 0x100) + 1
    else if value / 0x100 % 0x100 != 0 then LowestBitmap(value / 0x100 % 0x100) + 9
    else if value / 0x1_0000 % 0x100 != 0 then LowestBitmap(value / 0x1_0000 % 0x100) + 17
    else LowestBitmap(value / 0x100_0000) + 25
  }

  lemma NibbleLow(v: nat)
    requires 0 < v < 16
    ensures Low(v) == OTHER_COLUMNS[v]
  {
    assert Low(1) == 0 && Low(2) == 1 && Low(4) == 1 + Low(2) && Low(8) == 1 + Low(4);
    assert v % 4 == 2 ==> Low(v) == 1 + Low(v / 2);
    assert v == 12 ==> Low(v) == 1 + Low(6) == 2 + Low(3);
  }

  lemma LowDouble(m: nat)
    ensures m > 0 ==> Low(2 * m) == 1 + Low(m)
    ensures Low(2 * m + 1) == 0
  {
    assert (2 * m + 1) % 2 == 1;
  }

  /** The lowest bit lies in the low part unless that is zero. */
  lemma {:induction false} LowSplit(v: nat, k: nat)
    requires v > 0
    ensures Pow2(k) > 0
    ensures v % Pow2(k) != 0 ==> Low(v) == Low(v % Pow2(k))
    ensures v % Pow2(k) == 0 ==> v / Pow2(k) > 0 && Low(v) == k + Low(v / Pow2(k))
    decreases k, 1
  {
    if k == 0 {
      assert Pow2(0) == 1;
    } else {
      LowSplitStep(v, k);
    }
  }

  lemma LowSplitStep(v: nat, k: nat)
    requires v > 0 && k > 0
    ensures Pow2(k) > 0
    ensures v % Pow2(k) != 0 ==> Low(v) == Low(v % Pow2(k))
    ensures v % Pow2(k) == 0 ==> v / Pow2(k) > 0 && Low(v) == k + Low(v / Pow2(k))
    decreases k, 0
  {
    hide Low, Pow2;
    HalfMod(v, k);
    var h, m := v / 2, v / 2 % Pow2(k - 1);
    LowDouble(h);
    LowDouble(m);
    if v % 2 == 0 { LowSplit(h, k - 1); }
  }

  lemma Powers()
    ensures Pow2(8) == 256 && Pow2(31) == 0x8000_0000 && Pow2(32) == 0x1_0000_0000
  {
    assert Pow2(4) == 16 by { assert Pow2(2) == 4; }
    assert Pow2(8) == 256 by { assert Pow2(6) == 64; }
    assert Pow2(12) == 4096 by { assert Pow2(10) == 1024; }
    assert Pow2(16) == 65536 by { assert Pow2(14) == 16384; }
    assert Pow2(20) == 0x10_0000 by { assert Pow2(18) == 0x4_0000; }
    assert Pow2(24) == 0x100_0000 by { assert Pow2(22) == 0x40_0000; }
    assert Pow2(28) == 0x1000_0000 by { assert Pow2(26) == 0x400_0000; }
    assert Pow2(30) == 0x4000_0000;
  }

  lemma {:induction false} Pow2Positive(k: nat)
    ensures Pow2(k) > 0
  {
    if k > 0 { Pow2Positive(k - 1); }
  }

  lemma HalfMod(v: nat, k: nat)
    requires k > 0
    ensures Pow2(k) > 0 && Pow2(k - 1) > 0
    ensures v % Pow2(k) == 2 * (v / 2 % Pow2(k - 1)) + v % 2
    ensures v / Pow2(k) == v / 2 / Pow2(k - 1)
  {
    Pow2Positive(k - 1);
    Halve(v, Pow2(k - 1));
  }

  lemma Halve(v: nat, h: nat)
    requires h > 0
    ensures v % (2 * h) == 2 * (v / 2 % h) + v % 2 && v / (2 * h) == v / 2 / h
  {
    var u, q, r := v / 2, v / 2 / h, v / 2 % h;
    assert u == q * h + r;
    TwiceProduct(q, h);
    DivModUnique(v, 2 * h, q, 2 * r + v % 2);
  }

  lemma TwiceProduct(q: nat, h: nat)
    ensures q * (2 * h) == 2 * (q * h)
  {
  }

  lemma {:induction false} NextMultiple(a: nat, q: nat, d: nat)
    requires a < q
    ensures a * d + d <= q * d
    decreases q
  {
    assert q * d == (q - 1) * d + d;
    if a < q - 1 { NextMultiple(a, q - 1, d); }
  }

  lemma Apart(q: nat, r: nat, a: nat, b: nat, d: nat)
    requires q * d + r == a * d + b && r < d && b < d
    ensures q == a && r == b
  {
    if a < q { NextMultiple(a, q, d); }
    if q < a { NextMultiple(q, a, d); }
  }

  lemma DivModUnique(v: nat, d: nat, q: nat, r: nat)
    requires d > 0 && v == q * d + r && r < d
    ensures v / d == q && v % d == r
  {
    var a, b := v / d, v % d;
    assert v == a * d + b && 0 <= b < d;
    Apart(q, r, a, b, d);
  }

  lemma BitmapLow(v: nat)
    requires 0 < v < 256
    ensures LowestBitmap(v) == Low(v)
  {
    assert Pow2(4) == 16 by { assert Pow2(2) == 4; }
    LowSplit(v, 4);
    if v % 16 != 0 {
      NibbleLow(v % 16);
    } else {
      NibbleLow(v / 16);
    }
  }

  /** __rt_ffs numbers the lowest set bit of every word from 1, and is 0 for 0. */
  lemma FfsCorrect(value: nat)
    requires value < 0x1_0000_0000
    ensures value == 0 ==> Ffs(value) == 0
    ensures value > 0 ==> Ffs(value) == Low(value) + 1 && Bit(value, Ffs(value) - 1)
    ensures forall j :: 0 <= j < Ffs(value) - 1 ==> !Bit(value, j)
  {
    if value > 0 {
      LowMeaning(value);
      assert Pow2(8) == 256 by { assert Pow2(4) == 16 by { assert Pow2(2) == 4; } assert Pow2(6) == 64; }
      LowSplit(value, 8);
      if value % 256 != 0 {
        BitmapLow(value % 256);
      } else {
        var v1 := value / 256;
        LowSplit(v1, 8);
        if v1 % 256 != 0 {
          BitmapLow(v1 % 256);
        } else {
          var v2 := v1 / 256;
          assert v2 == value / 0x1_0000;
          LowSplit(v2, 8);
          if v2 % 256 != 0 {
            BitmapLow(v2 % 256);
          } else {
            assert v2 / 256 == value / 0x100_0000;
            BitmapLow(v2 / 256);
          }
        }
      }
    }
  }
}
