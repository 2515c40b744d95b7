/** Integer and bit-level helpers: the 32-bit word, powers of two, the floor
    logarithm that the predictor uses to size its index field, shifts, bitwise
    AND and XOR on non-negative integers, and the bit-field extractor.

    Shifts and masks are defined bit by bit (halving), so that the proofs that
    use them stay in linear arithmetic; the lemmas at the end of the module
    relate them to division and remainder by powers of two. */
module Bits {

  /** An unsigned 32-bit machine word (addresses, targets, tags). */
  type uint32 = x: int | 0 <= x < 0x1_0000_0000

  const WordModulus: nat := 0x1_0000_0000

  function Pow2(k: nat): (r: nat)
    ensures r >= 1
  {
    if k == 0 then 1 else 2 * Pow2(k - 1)
  }

  /** The integer part of log2(n) for a positive n: what the floating-point
      log2 of a table size becomes when it is passed on as an int. For a power
      of two it is the exact exponent. */
  function Log2(n: nat): (r: nat)
    requires n >= 1
    ensures Pow2(r) <= n < Pow2(r + 1)
  {
    if n == 1 then 0 else 1 + Log2(n / 2)
  }

  lemma {:induction false} Log2OfPow2(k: nat)
    ensures Log2(Pow2(k)) == k
  {
    if k > 0 {
      assert Pow2(k) / 2 == Pow2(k - 1);
      Log2OfPow2(k - 1);
    }
  }

  /** `n >> s` on an unsigned operand: s halvings. */
  function Shr(n: nat, s: nat): (r: nat)
    ensures r <= n
  {
    if s == 0 then n else Shr(n / 2, s - 1)
  }

  /** The k least significant bits of m, as a number below 2^k. */
  function LowBits(m: nat, k: nat): (r: nat)
    ensures r < Pow2(k)
  {
    if k == 0 then 0 else 2 * LowBits(m / 2, k - 1) + m % 2
  }

  /** Bitwise AND of two non-negative integers, bit by bit from the least
      significant one (C's `&` on unsigned operands). */
  function And(a: nat, b: nat): (r: nat)
    ensures r <= a && r <= b
  {
    if a == 0 || b == 0 then 0
    else 2 * And(a / 2, b / 2) + (if a % 2 == 1 && b % 2 == 1 then 1 else 0)
  }

  /** Bitwise exclusive OR of two non-negative integers (C's `^`). */
  function Xor(a: nat, b: nat): nat
    decreases a + b
  {
    if a == 0 && b == 0 then 0
    else 2 * Xor(a / 2, b / 2) + (if a % 2 == b % 2 then 0 else 1)
  }

  /** Masking with 2^k - 1 keeps the k low bits. */
  lemma {:induction false} AndLowMask(k: nat, m: nat)
    ensures And(Pow2(k) - 1, m) == LowBits(m, k)
  {
    if k > 0 {
      var mask := Pow2(k) - 1;
      assert mask / 2 == Pow2(k - 1) - 1 && mask % 2 == 1;
      AndLowMask(k - 1, m / 2);
    }
  }

  /** A number that already fits in k bits is its own k low bits. */
  lemma {:induction false} LowBitsOfSmall(m: nat, k: nat)
    requires m < Pow2(k)
    ensures LowBits(m, k) == m
  {
    if k > 0 {
      LowBitsOfSmall(m / 2, k - 1);
    }
  }

  /** Keeping at least one low bit keeps the lowest bit. */
  lemma LowestBitKept(m: nat, k: nat)
    requires 1 <= k
    ensures LowBits(m, k) % 2 == m % 2
  {
    var upper := LowBits(m / 2, k - 1);
    assert LowBits(m, k) == 2 * upper + m % 2;
  }

  /** Shifting by a and then by b is shifting by a + b. */
  lemma {:induction false} ShrAdd(n: nat, a: nat, b: nat)
    ensures Shr(Shr(n, a), b) == Shr(n, a + b)
  {
    if a > 0 {
      ShrAdd(n / 2, a - 1, b);
    }
  }

  /** The a + b low bits of m are its a low bits with, above them, the b low
      bits of m >> a. */
  lemma {:induction false} LowBitsSplit(m: nat, a: nat, b: nat)
    ensures LowBits(m, a + b) == LowBits(m, a) + Pow2(a) * LowBits(Shr(m, a), b)
  {
    if a > 0 {
      var x := LowBits(Shr(m, a), b);
      var half := Pow2(a - 1);
      LowBitsSplit(m / 2, a - 1, b);
      assert Shr(m, a) == Shr(m / 2, a - 1);
      ShiftInDigit(LowBits(m / 2, (a - 1) + b), LowBits(m / 2, a - 1), half, x, m % 2);
    }
  }

  /** Linear bookkeeping of one LowBitsSplit step, with the products kept
      as plain variables. */
  lemma ShiftInDigit(whole: int, low: int, half: int, x: int, bit: int)
    requires whole == low + half * x
    ensures 2 * whole + bit == (2 * low + bit) + (2 * half) * x
  {
  }

  /** A number written as lo + 2^a * hi with lo < 2^a determines lo and hi. */
  lemma SplitUnique(a: nat, lo1: nat, hi1: nat, lo2: nat, hi2: nat)
    requires lo1 < Pow2(a) && lo2 < Pow2(a)
    requires lo1 + Pow2(a) * hi1 == lo2 + Pow2(a) * hi2
    ensures lo1 == lo2 && hi1 == hi2
  {
    DivModUnique(lo1 + Pow2(a) * hi1, Pow2(a), hi1, lo1);
    DivModUnique(lo2 + Pow2(a) * hi2, Pow2(a), hi2, lo2);
  }

  /** The XOR of two k-bit numbers is a k-bit number. */
  lemma {:induction false} XorBound(a: nat, b: nat, k: nat)
    requires a < Pow2(k) && b < Pow2(k)
    ensures Xor(a, b) < Pow2(k)
    decreases k
  {
    if !(a == 0 && b == 0) {
      assert k > 0;
      XorBound(a / 2, b / 2, k - 1);
    }
  }

  /** XOR with a fixed value is injective: distinct operands give distinct
      results. */
  lemma {:induction false} XorInjective(h: nat, a: nat, b: nat)
    requires Xor(a, h) == Xor(b, h)
    ensures a == b
    decreases a + b + h
  {
    if a != b && a % 2 == b % 2 {
      XorInjective(h / 2, a / 2, b / 2);
    }
  }

  /** `bitExtracted(number, k, p)`: the k-bit field of `number` that starts at
      the 1-based bit position p, computed as the mask (1 << k) - 1 applied to
      number >> (p - 1). The predictor's configuration keeps k and p where
      these shifts are defined in C (see BtbSpec.ConfigOk). */
  function BitExtracted(number: nat, k: nat, p: nat): (r: nat)
    requires 1 <= p
    ensures r == LowBits(Shr(number, p - 1), k)
    ensures r < Pow2(k)
  {
    AndLowMask(k, Shr(number, p - 1));
    And(Pow2(k) - 1, Shr(number, p - 1))
  }

  // ---------------------------------------------------------------------
  // The bit-level definitions in terms of division and remainder.

  /** Division and remainder are determined by any decomposition
      m == d * q + r with 0 <= r < d. */
  lemma DivModUnique(m: int, d: int, q: int, r: int)
    requires d > 0 && 0 <= r < d && m == d * q + r
    ensures m / d == q && m % d == r
  {
    var q', r' := m / d, m % d;
    assert m == d * q' + r';
    assert d * (q - q') == r' - r;
    MulAwayFromZero(d, q - q');
  }

  lemma MulAwayFromZero(d: int, k: int)
    requires d > 0
    ensures k >= 1 ==> d * k >= d
    ensures k <= -1 ==> d * k <= -d
  {
  }

  /** Dividing by 2 and then by p is dividing by 2p; the remainder modulo 2p
      is the lowest bit plus twice the remainder of the upper bits modulo p. */
  lemma DivModDouble(m: nat, p: nat)
    requires p >= 1
    ensures m / 2 / p == m / (2 * p)
    ensures m % (2 * p) == 2 * ((m / 2) % p) + m % 2
  {
    var x, y := (m / 2) / p, (m / 2) % p;
    assert m / 2 == p * x + y;
    assert m == (2 * p) * x + (2 * y + m % 2);
    DivModUnique(m, 2 * p, x, 2 * y + m % 2);
  }

  /** `n >> s` is division by 2^s. */
  lemma {:induction false} ShrIsDiv(n: nat, s: nat)
    ensures Shr(n, s) == n / Pow2(s)
  {
    if s > 0 {
      ShrIsDiv(n / 2, s - 1);
      DivModDouble(n, Pow2(s - 1));
    }
  }

  /** The k low bits are the remainder modulo 2^k. */
  lemma {:induction false} LowBitsIsMod(m: nat, k: nat)
    ensures LowBits(m, k) == m % Pow2(k)
  {
    if k > 0 {
      LowBitsIsMod(m / 2, k - 1);
      DivModDouble(m, Pow2(k - 1));
    }
  }

  /** The extracted field is (number >> (p - 1)) mod 2^k. */
  lemma BitExtractedIsField(number: nat, k: nat, p: nat)
    requires 1 <= p
    ensures BitExtracted(number, k, p) == (number / Pow2(p - 1)) % Pow2(k)
  {
    ShrIsDiv(number, p - 1);
    LowBitsIsMod(Shr(number, p - 1), k);
  }
}
