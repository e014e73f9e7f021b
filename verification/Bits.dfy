/** Bitwise AND on naturals, as the index masks of the ring queue and the arena use it.
    A `std::size_t` is a natural below 2^64; `And` works bit by bit, and the lemmas say
    what the two mask idioms of the sources compute arithmetically. */
module Bits {

  function Pow2(k: nat): (p: nat)
    ensures p >= 1
  {
    if k == 0 then 1 else 2 * Pow2(k - 1)
  }

  const WORD_BITS: nat := 64

  /** 2^64, the number of values of `std::size_t` (see WordSize). */
  const WORD: nat := 0x1_0000_0000_0000_0000

  /** The i-th binary digit. */
  predicate Bit(x: nat, i: nat) {
    if i == 0 then x % 2 == 1 else Bit(x / 2, i - 1)
  }

  /** Bitwise AND, one binary digit at a time. */
  function And(a: nat, b: nat): nat
    decreases a
  {
    if a == 0 || b == 0 then 0
    else 2 * And(a / 2, b / 2) + (if a % 2 == 1 && b % 2 == 1 then 1 else 0)
  }

  /** The condition of the queue's static_assert, `(c & (c - 1)) == 0`, for a non-empty buffer. */
  predicate PassesPowerOfTwoCheck(c: nat) {
    c > 0 && And(c, c - 1) == 0
  }

  ghost predicate IsPowerOfTwo(c: nat) {
    exists k: nat :: c == Pow2(k)
  }

  /** `And` is the bitwise conjunction: digit by digit. */
  lemma {:induction false} AndBitwise(a: nat, b: nat, i: nat)
    ensures Bit(And(a, b), i) <==> Bit(a, i) && Bit(b, i)
  {
    if a == 0 || b == 0 {
      ZeroHasNoBits(i);
    } else if i > 0 {
      AndBitwise(a / 2, b / 2, i - 1);
      assert And(a, b) / 2 == And(a / 2, b / 2);
    }
  }

  lemma {:induction false} ZeroHasNoBits(i: nat)
    ensures !Bit(0, i)
  {
    if i > 0 { ZeroHasNoBits(i - 1); }
  }

  lemma {:induction false} Pow2Adds(a: nat, b: nat)
    ensures Pow2(a + b) == Pow2(a) * Pow2(b)
  {
    if a > 0 { Pow2Adds(a - 1, b); }
  }

  lemma WordSize()
    ensures Pow2(WORD_BITS) == WORD
  {
    assert Pow2(8) == 0x100;
    assert Pow2(16) == 0x1_0000 by { Pow2Adds(8, 8); }
    assert Pow2(32) == 0x1_0000_0000 by { Pow2Adds(16, 16); }
    Pow2Adds(32, 32);
  }

  lemma HalfMod(x: nat, m: nat)
    requires m > 0
    ensures x % (2 * m) == 2 * (x / 2 % m) + x % 2
  {
    var q := x / 2 / m;
    assert x / 2 == q * m + x / 2 % m;
    assert x == (2 * m) * q + (2 * (x / 2 % m) + x % 2);
    DivModUnique(x, 2 * m, q, 2 * (x / 2 % m) + x % 2);
  }

  lemma MulGrows(m: nat, d: int)
    ensures d >= 1 ==> m * d >= m
    ensures d <= -1 ==> m * d <= -(m as int)
  {
    if d >= 1 {
      assert m * d == m + m * (d - 1);
    } else if d <= -1 {
      assert m * d == -(m as int) + m * (d + 1);
    }
  }

  lemma DivModUnique(x: nat, m: nat, q: nat, r: nat)
    requires r < m && x == m * q + r
    ensures x / m == q && x % m == r
  {
    assert x == m * (x / m) + x % m;
    assert m * (x / m - q) == r - x % m;
    MulGrows(m, x / m - q);
  }

  /** One digit of an AND whose second operand is `2 * m + d`. */
  lemma AndDigit(x: nat, m: nat, d: nat)
    requires d <= 1
    ensures And(x, 2 * m + d) == 2 * And(x / 2, m) + (if x % 2 == 1 then d else 0)
  {
    assert (2 * m + d) / 2 == m && (2 * m + d) % 2 == d;
  }

  lemma MaskStep(x: nat, m: nat)
    requires And(x / 2, m) == x / 2 % (m + 1)
    ensures And(x, 2 * m + 1) == x % (2 * (m + 1))
  {
    AndDigit(x, m, 1);
    HalfMod(x, m + 1);
  }

  /** Masking with `2^k - 1` is reduction modulo `2^k`. */
  lemma {:induction false} MaskIsModulo(x: nat, k: nat)
    ensures And(x, Pow2(k) - 1) == x % Pow2(k)
  {
    if k == 0 {
      assert x % 1 == 0;
    } else {
      MaskIsModulo(x / 2, k - 1);
      MaskStep(x, Pow2(k - 1) - 1);
    }
  }

  /** The word whose low k bits are clear and whose remaining bits, up to w, are set:
      what `~(2^k - 1)` is in a w-bit word. */
  function HighMask(k: nat, w: nat): nat
    requires k <= w
  {
    Pow2Monotone(k, w);
    Pow2(w) - Pow2(k)
  }

  lemma ComplementStep(x: nat, p: nat, m: nat)
    requires p > 0 && And(x / 2, m) == x / 2 - x / 2 % p
    ensures And(x, 2 * m) == x - x % (2 * p)
  {
    AndDigit(x, m, 0);
    HalfMod(x, p);
  }

  /** In a w-bit word, masking with the complement of `2^k - 1` clears the low k bits:
      it rounds down to a multiple of `2^k`. */
  lemma {:induction false} ComplementMaskRoundsDown(x: nat, k: nat, w: nat)
    requires k <= w && x < Pow2(w)
    ensures And(x, HighMask(k, w)) == x - x % Pow2(k)
  {
    if k == 0 {
      MaskIsModulo(x, w);
      SmallMod(x, Pow2(w));
    } else {
      ComplementMaskRoundsDown(x / 2, k - 1, w - 1);
      assert HighMask(k, w) == 2 * HighMask(k - 1, w - 1);
      ComplementStep(x, Pow2(k - 1), HighMask(k - 1, w - 1));
    }
  }

  lemma SmallMod(x: nat, m: nat)
    requires x < m
    ensures x % m == x
  {
    DivModUnique(x, m, 0, x);
  }

  lemma {:induction false} Pow2Monotone(a: nat, b: nat)
    requires a <= b
    ensures Pow2(a) <= Pow2(b)
  {
    if a < b { Pow2Monotone(a, b - 1); }
  }

  /** The static_assert accepts exactly the powers of two. */
  lemma {:induction false} PowerOfTwoCheck(c: nat)
    ensures PassesPowerOfTwoCheck(c) <==> IsPowerOfTwo(c)
    decreases c
  {
    if c <= 1 {
      assert Pow2(0) == 1;
    } else if c % 2 == 1 {
      // Odd and above one: the check sees c / 2 twice and the top bit survives.
      AndSelf(c / 2);
      assert And(c, c - 1) == 2 * And(c / 2, c / 2);
      OddPowerIsOne(c);
    } else {
      PowerOfTwoCheck(c / 2);
      assert (c - 1) / 2 == c / 2 - 1;
      assert And(c, c - 1) == 2 * And(c / 2, c / 2 - 1);
      if IsPowerOfTwo(c) {
        var k: nat :| c == Pow2(k);
        assert k > 0 && c / 2 == Pow2(k - 1);
      }
      if IsPowerOfTwo(c / 2) {
        var k: nat :| c / 2 == Pow2(k);
        assert c == Pow2(k + 1);
      }
    }
  }

  lemma OddPowerIsOne(c: nat)
    ensures IsPowerOfTwo(c) && c % 2 == 1 ==> c == 1
  {
    if IsPowerOfTwo(c) {
      var k: nat :| c == Pow2(k);
      assert k > 0 ==> c == 2 * Pow2(k - 1);
    }
  }

  lemma {:induction false} AndSelf(x: nat)
    ensures And(x, x) == x
  {
    if x > 0 { AndSelf(x / 2); }
  }
}
