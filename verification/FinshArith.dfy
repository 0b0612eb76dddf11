/** What the operators of the finsh double-word fragment compute, in terms of
    signed numbers and of single bits. The machine and direct evaluation share
    these operators, so their meaning is stated here on its own. */
module FinshArith {
  import opened Words
  import opened Bits
  import opened FinshLang

  // ----- numbers -----

  predicate Congruent(x: int, y: int) {
    (x - y) % TWO32 == 0
  }

  lemma CongruentSum(x: int, y: int, k: int)
    requires x == y + k * TWO32
    ensures Congruent(x, y)
  {
  }

  /** The signed reading differs from the word by a multiple of the range, and is
      the only such number of 32 bits. */
  lemma SignedMeaning(w: Word)
    ensures Congruent(Signed(w), w) && -0x8000_0000 <= Signed(w) < 0x8000_0000
    ensures forall x :: -0x8000_0000 <= x < 0x8000_0000 && Congruent(x, w) ==> x == Signed(w)
  {
  }

  /** A number of 32 bits is read back from its word. */
  lemma SignedWrap(x: int)
    requires -0x8000_0000 <= x < 0x8000_0000
    ensures Signed(Wrap(x)) == x
  {
    if x < 0 { assert x % TWO32 == x + TWO32; } else { assert x % TWO32 == x; }
  }

  /** Sums, differences and products are those of the signed numbers, up to a
      multiple of 2^32; and a difference undoes a sum. */
  lemma ArithMeaning(a: Word, b: Word)
    ensures Apply(Add, a, b).Some? && Congruent(Signed(Apply(Add, a, b).value), Signed(a) + Signed(b))
    ensures Apply(Sub, a, b).Some? && Congruent(Signed(Apply(Sub, a, b).value), Signed(a) - Signed(b))
    ensures Apply(Mul, a, b).Some? && Congruent(Signed(Apply(Mul, a, b).value), Signed(a) * Signed(b))
    ensures Apply(Sub, Apply(Add, a, b).value, b) == Some(a)
  {
    hide Signed, Congruent;
    SumMeaning(a, b);
    DifferenceMeaning(a, b);
    ProductMeaning(a, b);
    UndoSum(a, b);
  }

  lemma UndoSum(a: Word, b: Word)
    ensures Wrap(Wrap(a + b) - b) == a
  {
    if a + b < TWO32 { assert Wrap(a + b) == a + b; } else { assert Wrap(a + b) == a + b - TWO32; }
  }

  lemma SumMeaning(a: Word, b: Word)
    ensures Congruent(Signed(Wrap(a + b)), Signed(a) + Signed(b))
  {
    var w := Wrap(a + b);
    var k := if a + b < TWO32 then 0 else 1;
    assert w == a + b - k * TWO32;
    SignedSteps(a, b, w, a + b, k);
    CongruentSum(Signed(w), Signed(a) + Signed(b), High(a) + High(b) - k - High(w));
  }

  lemma DifferenceMeaning(a: Word, b: Word)
    ensures Congruent(Signed(Wrap(a - b)), Signed(a) - Signed(b))
  {
    var w := Wrap(a - b);
    var k := if a >= b then 0 else -1;
    assert w == a - b - k * TWO32;
    SignedSteps(a, b, w, a - b, k);
    CongruentSum(Signed(w), Signed(a) - Signed(b), High(a) - High(b) - k - High(w));
  }

  /** How many times the range the signed reading is below the word. */
  function High(w: Word): int {
    if w < 0x8000_0000 then 0 else 1
  }

  lemma SignedSteps(a: Word, b: Word, w: Word, x: int, k: int)
    requires w == x - k * TWO32
    ensures Signed(a) == a - High(a) * TWO32 && Signed(b) == b - High(b) * TWO32 && Signed(w) == w - High(w) * TWO32
  {
  }

  lemma ProductMeaning(a: Word, b: Word)
    ensures Congruent(Signed(Wrap(a * b)), Signed(a) * Signed(b))
  {
    var w, k := Wrap(a * b), a * b / TWO32;
    assert a * b == k * TWO32 + w;
    SignedSteps(a, b, w, a * b, k);
    Expand(a, b, High(a), High(b), TWO32);
    CongruentSum(Signed(w), Signed(a) * Signed(b), a * High(b) + High(a) * b - High(a) * High(b) * TWO32 - k - High(w));
  }

  lemma Expand(a: int, b: int, p: int, q: int, t: int)
    ensures (a - p * t) * (b - q * t) == a * b - (a * q + p * b - p * q * t) * t
  {
  }

  /** Quotient and remainder of C: the dividend is put together again, the
      remainder is smaller than the divisor and has the sign of the dividend.
      The one quotient that does not fit is -2^31 / -1, which wraps. */
  lemma DivMeaning(a: Word, b: Word)
    ensures Apply(Div, a, b).None? <==> Signed(b) == 0
    ensures Apply(Mod, a, b).None? <==> Signed(b) == 0
    ensures Signed(b) != 0 && !(Signed(a) == -0x8000_0000 && Signed(b) == -1) ==>
      var x, y, q, r := Signed(a), Signed(b), Signed(Apply(Div, a, b).value), Signed(Apply(Mod, a, b).value);
      x == q * y + r && Abs(r) < Abs(y) && (r > 0 ==> x > 0) && (r < 0 ==> x < 0)
    ensures Signed(a) == -0x8000_0000 && Signed(b) == -1 ==>
      Signed(Apply(Div, a, b).value) == -0x8000_0000 && Signed(Apply(Mod, a, b).value) == 0
  {
    var x, y := Signed(a), Signed(b);
    if y != 0 {
      TruncBounds(x, y);
      var q := TruncDiv(x, y);
      if x == -0x8000_0000 && y == -1 {
        assert q == 0x8000_0000;
      } else {
        SignedWrap(q);
        SignedWrap(x - q * y);
      }
    }
  }

  lemma TruncBounds(x: int, y: int)
    requires y != 0
    ensures var q := TruncDiv(x, y); var r := x - q * y;
      && Abs(r) < Abs(y) && (r > 0 ==> x > 0) && (r < 0 ==> x < 0) && Abs(r) <= Abs(x) && Abs(q) <= Abs(x)
      && (y != -1 && y != 1 ==> 2 * Abs(q) <= Abs(x)) && (y == -1 ==> q == -x) && (y == 1 ==> q == x)
  {
    Quotient(Abs(x), Abs(y));
    TruncProduct(x, y);
    var d := Abs(x) / Abs(y);
    LinearBounds(x, y, TruncDiv(x, y), TruncDiv(x, y) * y, d, d * Abs(y));
  }

  lemma TruncProduct(x: int, y: int)
    requires y != 0
    ensures var d := Abs(x) / Abs(y);
      && TruncDiv(x, y) == (if (x < 0) == (y < 0) then d else -d)
      && TruncDiv(x, y) * y == (if x < 0 then -(d * Abs(y)) else d * Abs(y))
  {
    Signs(Abs(x) / Abs(y), Abs(y));
  }

  /** The same with the products given. */
  lemma LinearBounds(x: int, y: int, q: int, qy: int, d: int, dn: int)
    requires y != 0 && 0 <= Abs(x) - dn < Abs(y) && 0 <= d <= Abs(x) && 0 <= dn
    requires (Abs(y) > 1 ==> 2 * d <= Abs(x)) && (Abs(y) == 1 ==> d == Abs(x))
    requires q == (if (x < 0) == (y < 0) then d else -d) && qy == (if x < 0 then -dn else dn)
    ensures var r := x - qy;
      && Abs(r) < Abs(y) && (r > 0 ==> x > 0) && (r < 0 ==> x < 0) && Abs(r) <= Abs(x) && Abs(q) <= Abs(x)
      && (y != -1 && y != 1 ==> 2 * Abs(q) <= Abs(x)) && (y == -1 ==> q == -x) && (y == 1 ==> q == x)
  {
  }

  lemma Signs(d: int, n: int)
    ensures (-d) * n == -(d * n) && d * (-n) == -(d * n) && (-d) * (-n) == d * n
  {
  }

  lemma Quotient(m: nat, n: nat)
    requires n > 0
    ensures var d := m / n;
      0 <= m - d * n < n && 0 <= d <= m && 0 <= d * n && (n > 1 ==> 2 * d <= m) && (n == 1 ==> d == m)
  {
    var d := m / n;
    assert m == d * n + m % n;
    Factor(d, n);
  }

  lemma Positive(e: int, n: nat)
    requires e * n > 0
    ensures e > 0
  {
  }

  lemma Factor(d: int, n: nat)
    requires n > 0 && d * n + n > 0
    ensures d >= 0 && d * n >= d && (n > 1 ==> d * n >= 2 * d) && (n == 1 ==> d * n == d)
  {
    assert d * n + n == (d + 1) * n;
    Positive(d + 1, n);
    assert d * n - d == d * (n - 1);
    if n > 1 { assert d * n - 2 * d == d * (n - 2); }
  }

  // ----- bits -----

  /** The logical operators bit by bit. */
  lemma LogicMeaning(a: Word, b: Word, i: nat)
    requires i < 32
    ensures Apply(And, a, b).Some? && (Bit(Apply(And, a, b).value, i) <==> Bit(a, i) && Bit(b, i))
    ensures Apply(Or, a, b).Some? && (Bit(Apply(Or, a, b).value, i) <==> Bit(a, i) || Bit(b, i))
    ensures Apply(Xor, a, b).Some? && (Bit(Apply(Xor, a, b).value, i) <==> Bit(a, i) != Bit(b, i))
    ensures Bit(Complement(a), i) <==> !Bit(a, i)
  {
    BitwiseMeaning(AND, a, b, 32, i);
    BitwiseMeaning(OR, a, b, 32, i);
    BitwiseMeaning(XOR, a, b, 32, i);
    Powers();
    BitFlipped(a, 32, i);
    hide Bit, Bitwise, Pow2;
  }

  /** A left shift moves the bits up and fills with zeros; a right shift moves
      them down and fills with the sign bit. */
  lemma ShiftMeaning(a: Word, b: Word, i: nat)
    requires i < 32
    ensures Apply(Shl, a, b).None? <==> b >= 32
    ensures Apply(Shr, a, b).None? <==> b >= 32
    ensures b < 32 ==> (Bit(Apply(Shl, a, b).value, i) <==> i >= b && Bit(a, i - b))
    ensures b < 32 ==> (Bit(Apply(Shr, a, b).value, i) <==> Bit(a, if i + b < 32 then i + b else 31))
  {
    hide Bit, Pow2, FloorDiv;
    if b < 32 {
      Powers();
      BitBelow(a * Pow2(b), 32, i);
      BitShifted(a, b, i);
      SignedWord(a);
      FloorBits(Signed(a), b, i);
    }
  }

  lemma SignedWord(a: Word)
    ensures Wrap(Signed(a)) == a && -0x8000_0000 <= Signed(a) < 0x8000_0000
  {
  }

  /** Halving a signed number moves the bits of its word down by one and keeps
      the sign bit. */
  lemma HalfBits(x: int, i: nat)
    requires -0x8000_0000 <= x < 0x8000_0000 && i < 32
    ensures Bit(Wrap(x / 2), i) <==> Bit(Wrap(x), if i + 1 < 32 then i + 1 else 31)
  {
    Powers();
    var w := Wrap(x);
    HalfWord(x);
    if x < 0 {
      BitOnTop(w / 2, 31, i);
      BitOnTop(w - 0x8000_0000, 31, 31);
    } else {
      NoBitAbove(w, 31, 31);
      NoBitAbove(w / 2, 31, 31);
    }
    hide Pow2;
    assert i < 31 ==> Bit(w, i + 1) == Bit(w / 2, i);
  }

  lemma HalfWord(x: int)
    requires -0x8000_0000 <= x < 0x8000_0000
    ensures Wrap(x) / 2 < 0x8000_0000 && Wrap(x / 2) == Wrap(x) / 2 + (if x < 0 then 0x8000_0000 else 0)
    ensures if x < 0 then Wrap(x) >= 0x8000_0000 else Wrap(x) < 0x8000_0000
  {
    if x < 0 { assert x % TWO32 == x + TWO32; } else { assert x % TWO32 == x; }
  }

  lemma {:induction false} FloorBits(x: int, n: nat, i: nat)
    requires -0x8000_0000 <= x < 0x8000_0000 && n < 32 && i < 32
    ensures Bit(Wrap(FloorDiv(x, n)), i) <==> Bit(Wrap(x), if i + n < 32 then i + n else 31)
    decreases n
  {
    hide Bit;
    if n > 0 {
      FloorBits(x / 2, n - 1, i);
      HalfBits(x, if i + n - 1 < 32 then i + n - 1 else 31);
    }
  }

  // ----- bytes -----

  /** The operand bytes are the bits of the word, lowest byte first. */
  lemma BytesMeaning(w: Word, k: nat, i: nat)
    requires k < 4 && i < 8
    ensures Bit(Set32(w)[k], i) <==> Bit(w, 8 * k + i)
  {
    ByteDown(w, i);
    ByteDown(w / 0x100, i);
    ByteDown(w / 0x100 / 0x100, i);
    ByteDown(w, 8 + i);
    ByteDown(w, 16 + i);
    ByteDown(w / 0x100, 8 + i);
    ByteDown(w, 24 + i);
    ByteDown(w / 0x100, 16 + i);
    ByteDown(w / 0x100 / 0x100, 8 + i);
    hide Bit;
    assert w / 0x100 / 0x100 == w / 0x1_0000 && w / 0x100 / 0x100 / 0x100 == w / 0x100_0000;
  }

  /** One byte down: the low byte, and the rest. */
  lemma ByteDown(w: nat, i: nat)
    ensures i < 8 ==> (Bit(w % 0x100, i) <==> Bit(w, i))
    ensures i >= 8 ==> (Bit(w, i) <==> Bit(w / 0x100, i - 8))
  {
    hide Bit, Pow2;
    Powers();
    if i < 8 {
      BitBelow(w, 8, i);
    } else {
      NibbleDown(w, i);
      NibbleDown(w / 16, i - 4);
      assert w / 16 / 16 == w / 0x100;
    }
  }

  lemma NibbleDown(w: nat, i: nat)
    requires i >= 4
    ensures Bit(w, i) <==> Bit(w / 16, i - 4)
  {
    hide Bit;
    PairDown(w, i);
    PairDown(w / 4, i - 2);
    assert w / 4 / 4 == w / 16;
  }

  lemma PairDown(w: nat, i: nat)
    requires i >= 2
    ensures Bit(w, i) <==> Bit(w / 4, i - 2)
  {
    assert w / 2 / 2 == w / 4;
  }

  /** A store writes four bytes and nothing else. */
  lemma StoreFrame(m: Memory, a: Word, w: Word)
    requires Store(m, a, w).Some?
    ensures var m1 := Store(m, a, w).value;
      && (forall x :: x in m1 <==> x in m)
      && (forall x :: x in m && !(a <= x < a + 4) ==> m1[x] == m[x])
      && (forall k :: 0 <= k < 4 ==> a + k in m1 && m1[a + k] == Set32(w)[k])
  {
  }
}
