/**
 * Powers of two and the C# bit semantics the predictors rely on.
 *
 * A C# `int`/`uint` that goes through `&`, `^`, `<<` or `>>` is modelled as a `bv32`
 * bit pattern. Table sizes are `Pow2(n)` integers; `Pow2Bv` and `LtBridge` connect the
 * bit-vector bound `x < 1 << n` to the integer bound `x < Pow2(n)` used for indexing.
 */
module Bits {

  function Pow2(n: nat): (r: nat)
    ensures r >= 1
  {
    if n == 0 then 1 else 2 * Pow2(n - 1)
  }

  lemma {:induction false} Pow2Add(a: nat, b: nat)
    ensures Pow2(a + b) == Pow2(a) * Pow2(b)
  {
    if b > 0 {
      Pow2Add(a, b - 1);
    }
  }

  lemma {:induction false} Pow2Monotone(a: nat, b: nat)
    requires a <= b
    ensures Pow2(a) <= Pow2(b)
  {
    if a < b {
      Pow2Monotone(a, b - 1);
    }
  }

  /** `1 << n` as a 32-bit pattern is the integer 2^n, for n below 32. */
  lemma {:induction false} Pow2Bv(n: nat)
    requires n < 32
    ensures ((1 as bv32) << n) as int == Pow2(n)
  {
    if n > 0 {
      Pow2Bv(n - 1);
      Pow2Monotone(n - 1, 30);
      Pow2Thirty();
      ShiftSucc(n - 1);
      Double((1 as bv32) << (n - 1));
    }
  }

  lemma Pow2Thirty()
    ensures Pow2(30) == 0x4000_0000
  {
    assert Pow2(5) == 32;
    Pow2Add(5, 5);
    Pow2Add(10, 10);
    Pow2Add(20, 10);
  }

  lemma ShiftSucc(n: nat)
    requires n < 31
    ensures (1 as bv32) << (n + 1) == ((1 as bv32) << n) << 1
  {
  }

  lemma Double(x: bv32)
    requires x as int < 0x8000_0000
    ensures (x << 1) as int == 2 * x as int
  {
  }

  lemma LtBridge(x: bv32, n: nat)
    requires n < 32
    requires x < (1 as bv32) << n
    ensures x as int < Pow2(n)
  {
    Pow2Bv(n);
  }

  /**
   * C# `(1 << n) - 1` on `int`: the shift count is taken modulo 32, so the mask has
   * `n % 32` low bits set (`n % 32 == 0` gives the empty mask).
   */
  function CsMask(n: int): (m: bv32)
    ensures m < 0x8000_0000
  {
    ((1 as bv32) << (n % 32)) - 1
  }

  lemma MaskedBelow(x: bv32, n: nat)
    requires n < 32
    ensures x & CsMask(n) < (1 as bv32) << n
    ensures (x & CsMask(n)) as int < Pow2(n)
  {
    assert n % 32 == n;
    LtBridge(x & CsMask(n), n);
  }

  /** The low `n` bits of `x` (`x & ((1 << n) - 1)`) as a number below 2^n. */
  function Low(x: bv32, n: nat): (r: nat)
    requires n < 32
    ensures r < Pow2(n)
  {
    MaskedBelow(x, n);
    (x & CsMask(n)) as int
  }

  /** Placing `x` above `y` (`(x << h) + y` without overflow) stays below 2^(b+h). */
  lemma ConcatBelow(x: nat, y: nat, b: nat, h: nat)
    requires x < Pow2(b) && y < Pow2(h)
    ensures 0 <= x * Pow2(h) + y < Pow2(b + h)
  {
    var p := Pow2(h);
    Pow2Add(b, h);
    assert x * p + p == (x + 1) * p;
    MulLe(x + 1, Pow2(b), p);
  }

  /** Placing a number above a smaller one is one-to-one. */
  lemma ConcatInjective(x1: nat, y1: nat, x2: nat, y2: nat, p: nat)
    requires y1 < p && y2 < p
    ensures x1 * p + y1 == x2 * p + y2 <==> x1 == x2 && y1 == y2
  {
    if x1 < x2 {
      MulLe(x1 + 1, x2, p);
      assert x1 * p + p == (x1 + 1) * p;
    } else if x2 < x1 {
      MulLe(x2 + 1, x1, p);
      assert x2 * p + p == (x2 + 1) * p;
    }
  }

  lemma MulLe(a: nat, b: nat, c: nat)
    requires a <= b
    ensures a * c <= b * c
  {
    assert b * c == a * c + (b - a) * c;
  }

  // ---------------------------------------------------------------------------
  // XOR of non-negative numbers, for indices computed as integers.

  /** `a ^ b` on non-negative numbers, one bit at a time from the lowest. */
  function Xor(a: nat, b: nat): nat
    decreases a + b
  {
    if a == 0 && b == 0 then 0 else 2 * Xor(a / 2, b / 2) + (a + b) % 2
  }

  /** Two numbers below 2^n XOR to a number below 2^n. */
  lemma {:induction false} XorBelowPow2(a: nat, b: nat, n: nat)
    requires a < Pow2(n) && b < Pow2(n)
    ensures Xor(a, b) < Pow2(n)
  {
    if n > 0 && (a != 0 || b != 0) {
      XorBelowPow2(a / 2, b / 2, n - 1);
    }
  }

  /** XOR-ing twice with the same number gives back the original. */
  lemma {:induction false} XorInverse(a: nat, b: nat)
    ensures Xor(Xor(a, b), b) == a
    decreases a + b
  {
    if a != 0 || b != 0 {
      XorInverse(a / 2, b / 2);
      var c := Xor(a, b);
      var x := Xor(a / 2, b / 2);
      HalvesOf(x, (a + b) % 2);
      assert c == 2 * x + (a + b) % 2;
      assert c / 2 == x && c % 2 == (a + b) % 2;
      ParityCancels(a, b, c);
      XorStep(c, b);
    }
  }

  /** One step of `Xor`, which also holds when both arguments are 0. */
  lemma XorStep(a: nat, b: nat)
    ensures Xor(a, b) == 2 * Xor(a / 2, b / 2) + (a + b) % 2
  {
  }

  /** Adding `b` to a number of the parity of `a + b` gives the parity of `a`. */
  lemma ParityCancels(a: nat, b: nat, c: nat)
    requires c % 2 == (a + b) % 2
    ensures (c + b) % 2 == a % 2
  {
    var p, q, r := a / 2, b / 2, c / 2;
    assert a == 2 * p + a % 2 && b == 2 * q + b % 2 && c == 2 * r + c % 2;
  }

  lemma HalvesOf(x: nat, r: nat)
    requires r < 2
    ensures (2 * x + r) / 2 == x && (2 * x + r) % 2 == r
  {
  }

  lemma {:induction false} XorCommutes(a: nat, b: nat)
    ensures Xor(a, b) == Xor(b, a)
    decreases a + b
  {
    if a != 0 || b != 0 {
      XorCommutes(a / 2, b / 2);
    }
  }

  // ---------------------------------------------------------------------------
  // Division and remainder by positive numbers.

  /** A quotient and remainder that reassemble `x` are the quotient and remainder. */
  lemma DivModUnique(x: int, d: int, q: int, r: int)
    requires d > 0 && x == q * d + r && 0 <= r < d
    ensures x / d == q && x % d == r
  {
    var q', r' := x / d, x % d;
    assert x == q' * d + r';
    if q' < q {
      assert (q - q') * d == r' - r;
      MulLeInt(1, q - q', d);
    } else if q < q' {
      assert (q' - q) * d == r - r';
      MulLeInt(1, q' - q, d);
    }
  }

  lemma MulLeInt(a: int, b: int, c: int)
    requires a <= b && c >= 0
    ensures a * c <= b * c
  {
    assert b * c == a * c + (b - a) * c;
  }

  /** Multiplying by `p` carries the remainder modulo `r` to the remainder modulo `p * r`. */
  lemma ModOfMultiple(x: nat, p: nat, r: nat)
    requires p > 0 && r > 0
    ensures (x * p) % (p * r) == (x % r) * p
  {
    var q, m := x / r, x % r;
    assert x * p == q * (p * r) + m * p by {
      assert x == q * r + m;
    }
    MulLe(m + 1, r, p);
    DivModUnique(x * p, p * r, q, m * p);
  }

  /** A remainder modulo a multiple of `q` keeps the remainder modulo `q`. */
  lemma ModOfMod(x: nat, q: nat, m: nat)
    requires q > 0 && m > 0
    ensures (x % (q * m)) % q == x % q
  {
    var a, b := x / (q * m), x % (q * m);
    var c, d := b / q, b % q;
    assert x == (a * m + c) * q + d by {
      assert x == a * (q * m) + b && b == c * q + d;
    }
    DivModUnique(x, q, a * m + c, d);
  }

  /** Dividing by `a` and then by `b` is dividing by `a * b`. */
  lemma DivOfDiv(x: nat, a: nat, b: nat)
    requires a > 0 && b > 0
    ensures (x / a) / b == x / (a * b)
  {
    var q, r := x / a, x % a;
    var q2, r2 := q / b, q % b;
    MulLe(r2 + 1, b, a);
    assert x == q2 * (a * b) + (a * r2 + r) by {
      assert x == q * a + r && q == q2 * b + r2;
    }
    DivModUnique(x, a * b, q2, a * r2 + r);
  }
}
