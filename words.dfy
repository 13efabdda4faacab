/**
 * C# 32-bit integer operations on bit patterns held as integers below 2^32.
 *
 * An `int` or `uint` of the source that goes through shifts, masks and XORs is a `Word`:
 * its two's-complement bit pattern as a number in [0, 2^32). Arithmetic wraps modulo
 * 2^32 as unchecked C# arithmetic does, shift counts are taken modulo 32, and `>>` on an
 * `int` copies the sign bit. Working on integers rather than `bv32` keeps bounds such as
 * "the index is below the table size" plain arithmetic facts.
 */
module Words {
  import opened Bits

  const WORD: nat := 0x1_0000_0000
  const SIGN: nat := 0x8000_0000

  /** A 32-bit pattern. */
  type Word = x: int | 0 <= x < WORD

  /** A C# `byte`. */
  type Byte = x: int | 0 <= x < 0x100

  lemma Pow2Word()
    ensures Pow2(31) == SIGN && Pow2(32) == WORD
  {
    Pow2Thirty();
    assert Pow2(31) == 2 * Pow2(30);
    assert Pow2(32) == 2 * Pow2(31);
  }

  lemma Pow2Sixteen()
    ensures Pow2(16) == 0x1_0000
  {
    assert Pow2(4) == 16;
    Pow2Add(4, 4);
    Pow2Add(8, 8);
  }

  /** Every count below 32 gives a power of two that is a pattern. */
  lemma Pow2BelowWord(n: nat)
    requires n < 32
    ensures Pow2(n) <= SIGN
  {
    Pow2Monotone(n, 31);
    Pow2Word();
  }

  /** The pattern of an unchecked C# result. */
  function Wrap(x: int): Word {
    x % WORD
  }

  /** The pattern of a `uint`. */
  function FromBits(x: bv32): Word {
    x as int
  }

  /** `(1 << n) - 1`: the count modulo 32 gives the number of low bits set. */
  function Mask(n: int): (m: Word)
    ensures m == Pow2(n % 32) - 1
  {
    Pow2BelowWord(n % 32);
    Pow2(n % 32) - 1
  }

  /** The lowest `n` bits of `x`, one bit at a time. */
  function LowBits(x: nat, n: nat): (r: nat)
    ensures r < Pow2(n)
  {
    if n == 0 then 0 else 2 * LowBits(x / 2, n - 1) + x % 2
  }

  /** `x & ((1 << n) - 1)`: the low `n % 32` bits of `x`. */
  function AndMask(x: Word, n: int): (r: Word)
    ensures r < Pow2(n % 32)
    ensures 0 <= n < 32 ==> r < Pow2(n)
  {
    assert 0 <= n < 32 ==> n % 32 == n;
    Pow2BelowWord(n % 32);
    LowBits(x, n % 32)
  }

  /** `x` shifted left by `k` bits, without losing any. */
  function Shl(x: nat, k: nat): nat {
    if k == 0 then x else 2 * Shl(x, k - 1)
  }

  /** `x << k`: the bits that leave the word are lost. */
  function ShiftLeft(x: Word, k: int): Word {
    Wrap(Shl(x, k % 32))
  }

  /** `x >> k` one bit at a time, each step copying the sign bit. */
  function Sar(x: Word, k: nat): (r: Word)
    ensures x < SIGN ==> r < SIGN
    decreases k
  {
    if k == 0 then x else Sar(x / 2 + (if x >= SIGN then SIGN else 0), k - 1)
  }

  /** `x >> k` on an `int`: the vacated high bits copy the sign bit. */
  function ShiftRight(x: Word, k: int): (r: Word)
    ensures x < SIGN ==> r < SIGN
  {
    Sar(x, k % 32)
  }

  lemma {:induction false} LowBitsZero(n: nat)
    ensures LowBits(0, n) == 0
  {
    if n > 0 {
      LowBitsZero(n - 1);
    }
  }

  lemma {:induction false} ShlZero(k: nat)
    ensures Shl(0, k) == 0
  {
    if k > 0 {
      ShlZero(k - 1);
    }
  }

  lemma {:induction false} SarZero(k: nat)
    ensures Sar(0, k) == 0
  {
    if k > 0 {
      SarZero(k - 1);
    }
  }

  /** `a | b` on non-negative numbers, one bit at a time from the lowest. */
  function Or(a: nat, b: nat): nat
    decreases a + b
  {
    if a == 0 && b == 0 then 0 else 2 * Or(a / 2, b / 2) + (if a % 2 == 1 || b % 2 == 1 then 1 else 0)
  }

  lemma {:induction false} OrBelowPow2(a: nat, b: nat, n: nat)
    requires a < Pow2(n) && b < Pow2(n)
    ensures Or(a, b) < Pow2(n)
  {
    if n > 0 && (a != 0 || b != 0) {
      OrBelowPow2(a / 2, b / 2, n - 1);
    }
  }

  /** `a | b` on patterns. */
  function WordOr(a: Word, b: Word): Word {
    Pow2Word();
    OrBelowPow2(a, b, 32);
    Or(a, b)
  }

  /** `a & b` on non-negative numbers, one bit at a time from the lowest. */
  function And(a: nat, b: nat): nat
    decreases a + b
  {
    if a == 0 || b == 0 then 0 else 2 * And(a / 2, b / 2) + (if a % 2 == 1 && b % 2 == 1 then 1 else 0)
  }

  /** AND never sets a bit that was clear. */
  lemma {:induction false} AndBelow(a: nat, b: nat)
    ensures And(a, b) <= a && And(a, b) <= b
    decreases a + b
  {
    if a != 0 && b != 0 {
      AndBelow(a / 2, b / 2);
    }
  }

  /** `a ^ b` on patterns. */
  function WordXor(a: Word, b: Word): Word {
    Pow2Word();
    XorBelowPow2(a, b, 32);
    Xor(a, b)
  }

  /** A bit set in an even number does not collide with a new lowest bit: OR is addition there. */
  lemma {:induction false} OrLowBit(a: nat, b: nat)
    requires a % 2 == 0 && b <= 1
    ensures Or(a, b) == a + b
  {
    if a != 0 || b != 0 {
      OrZero(a / 2);
    }
  }

  lemma {:induction false} OrZero(a: nat)
    ensures Or(a, 0) == a
    decreases a
  {
    if a != 0 {
      OrZero(a / 2);
    }
  }

  /** Shifting left without loss multiplies by a power of two. */
  lemma {:induction false} ShlIsMul(x: nat, k: nat)
    ensures Shl(x, k) == x * Pow2(k)
  {
    if k > 0 {
      ShlIsMul(x, k - 1);
    }
  }

  /** The lowest `n` bits are the remainder modulo 2^n. */
  lemma {:induction false} LowBitsIsMod(x: nat, n: nat)
    ensures LowBits(x, n) == x % Pow2(n)
  {
    if n > 0 {
      LowBitsIsMod(x / 2, n - 1);
      RemainderOfHalf(x, Pow2(n - 1));
    }
  }

  /** `x & ((1 << n) - 1)` is the remainder modulo 2^n, for n below 32. */
  lemma AndMaskIsMod(x: Word, n: nat)
    requires n < 32
    ensures AndMask(x, n) == x % Pow2(n)
  {
    assert n % 32 == n;
    LowBitsIsMod(x, n);
  }

  /** The remainder modulo `2 * p` from the remainder of the half modulo `p`. */
  lemma RemainderOfHalf(x: nat, p: nat)
    requires p > 0
    ensures x % (2 * p) == 2 * ((x / 2) % p) + x % 2
  {
    var h := x / 2;
    var q, r := h / p, h % p;
    assert h == q * p + r;
    assert x == q * (2 * p) + (2 * r + x % 2);
    DivModUnique(x, 2 * p, q, 2 * r + x % 2);
  }

  /** OR with a number below 2^n that fits under a multiple of 2^n is addition. */
  lemma {:induction false} OrDisjoint(a: nat, b: nat, n: nat)
    requires b < Pow2(n)
    ensures Or(a * Pow2(n), b) == a * Pow2(n) + b
  {
    if n == 0 {
      OrZero(a);
    } else {
      var p := Pow2(n - 1);
      assert a * Pow2(n) == 2 * (a * p);
      OrDisjoint(a, b / 2, n - 1);
      assert (a * Pow2(n)) / 2 == a * p && (a * Pow2(n)) % 2 == 0;
      if a * Pow2(n) != 0 || b != 0 {
        assert Or(a * Pow2(n), b) == 2 * Or(a * p, b / 2) + b % 2;
      }
    }
  }
}
