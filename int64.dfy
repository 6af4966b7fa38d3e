/**
 * Go's `int64` arithmetic: values are mathematical integers restricted to the
 * 64-bit two's-complement range; `+`, `-`, `*` and unary `-` wrap around
 * (Go language specification, section "Integer overflow"), and `/` truncates
 * toward zero, so that `MIN / -1 == MIN`.
 */
module Int64 {
  const MIN: int := -0x8000_0000_0000_0000
  const MAX: int := 0x7fff_ffff_ffff_ffff
  const MODULUS: int := 0x1_0000_0000_0000_0000

  type Int64 = x: int | MIN <= x <= MAX

  /** Reduces an integer to the int64 value with the same bits (congruent modulo 2^64). */
  function Wrap(x: int): (r: Int64)
    ensures (x - r) % MODULUS == 0
    ensures MIN <= x <= MAX ==> r == x
  {
    var q := (x - MIN) / MODULUS;
    var r := (x - MIN) % MODULUS + MIN;
    assert x - r == q * MODULUS;
    r
  }

  function Abs(x: int): nat { if x < 0 then -x else x }

  /** Division truncated toward zero (Go, C, Java), not Dafny's Euclidean division. */
  function TruncDiv(a: int, b: int): (q: int)
    requires b != 0
    ensures Abs(a - q * b) < Abs(b)
    ensures a - q * b == 0 || (a - q * b > 0 <==> a > 0)
    ensures Abs(q) == Abs(a) / Abs(b)
  {
    var m := Abs(a) / Abs(b);
    var q := if (a < 0) == (b < 0) then m else -m;
    TruncRemainder(a, b, q);
    var r := Abs(a) % Abs(b);
    QuotientBounds(Abs(a), Abs(b));
    assert 0 <= r < Abs(b);
    var rem := a - q * b;
    assert rem == if a < 0 then -r else r;
    assert Abs(rem) == r;
    assert rem == 0 || (rem > 0 <==> a > 0);
    q
  }

  /** The remainder left by the truncated quotient is the Euclidean remainder of the magnitudes, with the sign of `a`. */
  lemma TruncRemainder(a: int, b: int, q: int)
    requires b != 0
    requires q == if (a < 0) == (b < 0) then Abs(a) / Abs(b) else -(Abs(a) / Abs(b))
    ensures a - q * b == if a < 0 then -(Abs(a) % Abs(b)) else Abs(a) % Abs(b)
  {
    var A: int, B: int := Abs(a), Abs(b);
    var q0: int, r0: int := A / B, A % B;
    assert A == q0 * B + r0;
    if a < 0 && b < 0 {
      assert q * b == -(q0 * B);
    } else if a < 0 {
      assert q * b == -(q0 * B);
    } else if b < 0 {
      assert q * b == q0 * B;
    } else {
      assert q * b == q0 * B;
    }
  }

  /** The quotient of magnitudes lies between zero and the dividend, and at most halves it for divisors of two or more. */
  lemma QuotientBounds(a: int, b: int)
    requires a >= 0 && b > 0
    ensures 0 <= a / b <= a
    ensures b >= 2 ==> a / b <= a / 2
  {
    var m, r := a / b, a % b;
    assert a == m * b + r && 0 <= r < b;
    if m < 0 {
      NonnegativeProduct(-m - 1, b);
      assert false;
    }
    NonnegativeProduct(m, b - 1);
    if b >= 2 {
      NonnegativeProduct(m, b - 2);
    }
  }

  lemma NonnegativeProduct(x: int, y: int)
    requires x >= 0 && y >= 0
    ensures x * y >= 0
  {
  }

  function Neg(a: Int64): Int64 { Wrap(-(a as int)) }
  function Add(a: Int64, b: Int64): Int64 { Wrap(a as int + b as int) }
  function Sub(a: Int64, b: Int64): Int64 { Wrap(a as int - b as int) }
  function Mul(a: Int64, b: Int64): Int64 { Wrap(a as int * b as int) }

  /** Go's `a / b` on int64; the caller must exclude `b == 0`, where Go panics. */
  function Quo(a: Int64, b: Int64): Int64
    requires b != 0
  {
    Wrap(TruncDiv(a, b))
  }

  /** The two operations that overflow on a single operand: negating, or dividing by -1, the most negative value. */
  lemma QuoOverflow()
    ensures Quo(MIN, -1) == MIN
    ensures Neg(MIN) == MIN
  {
    assert TruncDiv(MIN, -1) == -MIN;
  }

  /** Every other quotient is exact: no wrap-around occurs. */
  lemma QuoExact(a: Int64, b: Int64)
    requires b != 0 && !(a == MIN && b == -1)
    ensures Quo(a, b) == TruncDiv(a, b)
  {
    var q := TruncDiv(a, b);
    var A: int, B: int := Abs(a), Abs(b);
    QuotientBounds(A, B);
    if B == 1 {
      assert A / B == A;
    }
  }

  /** Integers that differ by a multiple of 2^64 wrap to the same int64 value. */
  lemma WrapCongruent(x: int, y: int, k: int)
    requires x - y == k * MODULUS
    ensures Wrap(x) == Wrap(y)
  {
    var rx, ry := Wrap(x), Wrap(y);
    var a, c := (x - rx) / MODULUS, (y - ry) / MODULUS;
    assert rx - ry == (k + c - a) * MODULUS;
  }

  /** Wrapping commutes with `+`. */
  lemma WrapAdd(x: int, y: int)
    ensures Add(Wrap(x), Wrap(y)) == Wrap(x + y)
  {
    var a, b := (x - Wrap(x)) / MODULUS, (y - Wrap(y)) / MODULUS;
    WrapCongruent(Wrap(x) as int + Wrap(y) as int, x + y, -a - b);
  }

  /** Wrapping commutes with `-`. */
  lemma WrapSub(x: int, y: int)
    ensures Sub(Wrap(x), Wrap(y)) == Wrap(x - y)
  {
    var a, b := (x - Wrap(x)) / MODULUS, (y - Wrap(y)) / MODULUS;
    WrapCongruent(Wrap(x) as int - Wrap(y) as int, x - y, b - a);
  }

  /** Wrapping commutes with unary `-`. */
  lemma WrapNeg(x: int)
    ensures Neg(Wrap(x)) == Wrap(-x)
  {
    var a := (x - Wrap(x)) / MODULUS;
    WrapCongruent(-(Wrap(x) as int), -x, a);
  }

  /** Wrapping commutes with `*`. */
  lemma WrapMul(x: int, y: int)
    ensures Mul(Wrap(x), Wrap(y)) == Wrap(x * y)
  {
    var wx, wy := Wrap(x) as int, Wrap(y) as int;
    var a, b := (x - wx) / MODULUS, (y - wy) / MODULUS;
    ProductShift(x, y, a, b, wx, wy);
    WrapCongruent(wx * wy, x * y, -a * y - b * x + a * b * MODULUS);
  }

  /** The algebra behind WrapMul: shifting both factors by multiples of m shifts the product by one. */
  lemma ProductShift(x: int, y: int, a: int, b: int, wx: int, wy: int)
    requires wx == x - a * MODULUS && wy == y - b * MODULUS
    ensures wx * wy - x * y == (-a * y - b * x + a * b * MODULUS) * MODULUS
  {
    calc {
      wx * wy;
      (x - a * MODULUS) * (y - b * MODULUS);
      x * y - a * MODULUS * y - x * b * MODULUS + a * MODULUS * b * MODULUS;
    }
  }

  /** Negation is an involution on int64, the most negative value included. */
  lemma NegInvolutive(a: Int64)
    ensures Neg(Neg(a)) == a
  {
    WrapNeg(-(a as int));
  }
}
