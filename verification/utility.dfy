/**
 * `Utility::CalcAlignment<Alignment>` (source/utility/Utility.hpp): rounds a
 * size up to a multiple of a power-of-two alignment with
 * `(x + Alignment - 1) & ~(Alignment - 1)`.
 *
 * Sizes are `size_t` (unsigned, 64 bits): the addition wraps modulo 2^64.
 * For a power of two `A`, `& ~(A - 1)` clears the low log2(A) bits, which
 * is `y - y % A` on the unsigned value `y`.
 */
module Utility {

  /** 2^64: the modulus of `size_t` arithmetic. */
  const Word: nat := 0x1_0000_0000_0000_0000

  /** Default template argument of `CalcAlignment`. */
  const DefaultAlignment: nat := 4

  predicate IsPowerOfTwo(a: nat) {
    a == 1 || (a >= 2 && a % 2 == 0 && IsPowerOfTwo(a / 2))
  }

  /** `x + a - 1` does not wrap around 2^64. */
  predicate NoOverflow(x: nat, a: nat) {
    x + a - 1 < Word
  }

  /** Keeps only the bits of `y` above the low bits selected by `a - 1`. */
  function ClearLowBits(y: nat, a: nat): nat
    requires a > 0
  {
    y - y % a
  }

  function CalcAlignment(x: nat, alignment: nat := DefaultAlignment): (r: nat)
    requires IsPowerOfTwo(alignment) && alignment < Word && x < Word
    ensures r < Word
    ensures r % alignment == 0
    ensures NoOverflow(x, alignment) ==> x <= r < x + alignment
    ensures x % alignment == 0 ==> r == x
  {
    var y := (x + alignment - 1) % Word;
    RoundUpFacts(x, alignment, y);
    ClearLowBits(y, alignment)
  }

  /** Rounding up twice is rounding up once. */
  lemma CalcAlignmentIdempotent(x: nat, a: nat)
    requires IsPowerOfTwo(a) && a < Word && x < Word
    ensures CalcAlignment(CalcAlignment(x, a), a) == CalcAlignment(x, a)
  {
  }

  /**
   * Reference definition: when nothing wraps, the result is the least
   * multiple of `a` that is at least `x`.
   */
  lemma {:induction false} CalcAlignmentIsLeastMultiple(x: nat, a: nat, m: nat)
    requires IsPowerOfTwo(a) && a < Word && x < Word && NoOverflow(x, a)
    requires m % a == 0 && x <= m
    ensures CalcAlignment(x, a) <= m
  {
    MultipleAbove(x, a, m, CalcAlignment(x, a));
  }

  /** Of two multiples of `a` at least `x`, the one less than `x + a` is the smaller. */
  lemma MultipleAbove(x: nat, a: nat, m: nat, r: nat)
    requires a > 0 && m % a == 0 && r % a == 0
    requires x <= m && x <= r < x + a
    ensures r <= m
  {
    if m < r {
      var qm, qr := m / a, r / a;
      assert m == a * qm && r == a * qr;
      MultipleGap(a, qm, qr);
    }
  }

  lemma RoundUpFacts(x: nat, a: nat, y: nat)
    requires IsPowerOfTwo(a) && a < Word && x < Word
    requires y == (x + a - 1) % Word
    ensures ClearLowBits(y, a) < Word
    ensures ClearLowBits(y, a) % a == 0
    ensures NoOverflow(x, a) ==> x <= ClearLowBits(y, a) < x + a
    ensures x % a == 0 ==> ClearLowBits(y, a) == x
  {
    RoundUpBounds(x, a, y);
    if x % a == 0 {
      AlignedRoundsToItself(x, a, y);
    }
  }

  /** Clearing the low bits of the wrapped sum gives a multiple of `a` within `a` above `x`, when nothing wraps. */
  lemma RoundUpBounds(x: nat, a: nat, y: nat)
    requires 0 < a < Word && x < Word
    requires y == (x + a - 1) % Word
    ensures ClearLowBits(y, a) < Word
    ensures ClearLowBits(y, a) % a == 0
    ensures NoOverflow(x, a) ==> x <= ClearLowBits(y, a) < x + a
  {
    AlignedIsMultiple(y, a);
    if NoOverflow(x, a) {
      DivModUnique(x + a - 1, Word, 0, x + a - 1);
      assert y == x + a - 1;
    }
  }

  /** An already aligned size is its own round-up. */
  lemma AlignedRoundsToItself(x: nat, a: nat, y: nat)
    requires IsPowerOfTwo(a) && a < Word && x < Word && x % a == 0
    requires y == (x + a - 1) % Word
    ensures ClearLowBits(y, a) == x
  {
    AlignedNeverOverflows(x, a);
    assert y == x + a - 1;
    var q := x / a;
    assert x == a * q;
    DivModUnique(y, a, q, a - 1);
  }

  lemma MultipleMod(a: nat, q: nat)
    requires a > 0
    ensures (a * q) % a == 0
  {
    DivModUnique(a * q, a, q, 0);
  }

  /** Euclid's quotient and remainder are unique. */
  lemma DivModUnique(p: nat, a: nat, q: nat, r: nat)
    requires a > 0 && r < a && p == a * q + r
    ensures p / a == q && p % a == r
  {
    var q', r' := p / a, p % a;
    assert a * q' + r' == a * q + r;
    if q' < q {
      MulMono(a, q' + 1, q);
    } else if q' > q {
      MulMono(a, q + 1, q');
    }
  }

  lemma MulMono(a: nat, x: nat, y: nat)
    requires x <= y
    ensures a * x <= a * y
  {
  }

  lemma AlignedIsMultiple(y: nat, a: nat)
    requires a > 0
    ensures ClearLowBits(y, a) % a == 0
  {
    assert ClearLowBits(y, a) == a * (y / a);
    MultipleMod(a, y / a);
  }

  /** A power of two no larger than another power of two divides it. */
  lemma {:induction false} PowerDivides(a: nat, w: nat)
    requires IsPowerOfTwo(a) && IsPowerOfTwo(w) && a <= w
    ensures w % a == 0
  {
    if a == 1 {
    } else {
      var b, v := a / 2, w / 2;
      PowerDivides(b, v);
      var q := v / b;
      assert v == b * q;
      assert w == a * q;
      MultipleMod(a, q);
    }
  }

  function Pow2(k: nat): nat
  {
    if k == 0 then 1 else 2 * Pow2(k - 1)
  }

  lemma {:induction false} Pow2IsPowerOfTwo(k: nat)
    ensures IsPowerOfTwo(Pow2(k))
  {
    if k > 0 {
      Pow2IsPowerOfTwo(k - 1);
    }
  }

  lemma {:induction false} Pow2Add(i: nat, j: nat)
    ensures Pow2(i + j) == Pow2(i) * Pow2(j)
  {
    if i > 0 {
      Pow2Add(i - 1, j);
    }
  }

  lemma WordIsPow2()
    ensures Word == Pow2(64)
  {
    assert Pow2(8) == 256;
    Pow2Add(8, 8);
    Pow2Add(16, 16);
    Pow2Add(32, 32);
  }

  /** A multiple of `a` below another multiple of `a` is at least `a` below it. */
  lemma MultipleGap(a: nat, q: nat, p: nat)
    requires a * q < a * p
    ensures a * q + a <= a * p
  {
    if q >= p {
      MulMono(a, p, q);
    }
    MulMono(a, q + 1, p);
  }

  /** An aligned size leaves room for `a - 1` more bytes below 2^64. */
  lemma AlignedNeverOverflows(x: nat, a: nat)
    requires IsPowerOfTwo(a) && a < Word && x < Word && x % a == 0
    ensures NoOverflow(x, a)
  {
    WordDivisible(a);
    var q, p := x / a, Word / a;
    assert x == a * q;
    assert Word == a * p;
    MultipleGap(a, q, p);
  }

  /** Every power of two below 2^64 divides 2^64. */
  lemma WordDivisible(a: nat)
    requires IsPowerOfTwo(a) && a < Word
    ensures Word % a == 0
  {
    WordIsPow2();
    Pow2IsPowerOfTwo(64);
    PowerDivides(a, Word);
  }

  /** `(a % m + b) % m == (a + b) % m` */
  lemma ModAddLeft(a: nat, b: nat, m: nat)
    requires m > 0
    ensures (a % m + b) % m == (a + b) % m
  {
    var qa, ra := a / m, a % m;
    var qx, rx := (ra + b) / m, (ra + b) % m;
    assert a + b == m * qa + m * qx + rx;
    assert m * qa + m * qx == m * (qa + qx);
    DivModUnique(a + b, m, qa + qx, rx);
  }

  /** `(a + b % m) % m == (a + b) % m` */
  lemma ModAddRight(a: nat, b: nat, m: nat)
    requires m > 0
    ensures (a + b % m) % m == (a + b) % m
  {
    ModAddLeft(b, a, m);
  }

  /** `(a % m + b % m) % m == (a + b) % m` */
  lemma ModAddBoth(a: nat, b: nat, m: nat)
    requires m > 0
    ensures (a % m + b % m) % m == (a + b) % m
  {
    ModAddLeft(a, b % m, m);
    ModAddRight(a, b, m);
  }
}
