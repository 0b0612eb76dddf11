/** Shared by the other modules: 32-bit words, alignment, and sequences without
    duplicates. */
module Words {

  const TWO32 := 0x1_0000_0000

  function Max(a: int, b: int): int { if a < b then b else a }

  function Min(a: int, b: int): int { if a < b then a else b }

  function Pow2(k: nat): nat {
    if k == 0 then 1 else 2 * Pow2(k - 1)
  }

  /** RT_ALIGN to four bytes in 32-bit arithmetic. */
  function Align(n: nat): (r: nat)
    ensures r % 4 == 0 && r < TWO32
  {
    var a := (n + 3) % TWO32; a - a % 4
  }

  /** A size is rounded up, and not wrapped to a small one, exactly when it leaves
      room for the alignment. */
  lemma AlignExact(n: nat)
    requires n < TWO32
    ensures n <= Align(n) < n + 4 <==> n <= TWO32 - 4
  {
  }

  ghost predicate NoDup<T>(s: seq<T>) {
    forall i, j :: 0 <= i < j < |s| ==> s[i] != s[j]
  }

  /** The same for addresses and numbers, where the element type matters to the
      solver. */
  ghost predicate NoDupInts(s: seq<int>) {
    forall i, j :: 0 <= i < j < |s| ==> s[i] != s[j]
  }
}
