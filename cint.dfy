/**
 * Integer helpers shared by the fixed-point code: the ranges of the C
 * integer types, C's truncating division, the symmetric clamp and the
 * sign function of the firmware's integer-math module, and uint32
 * wrap-around subtraction.
 */
module CInt {

  const INT32_MAX: int := 0x7FFF_FFFF
  const INT32_MIN: int := -0x8000_0000
  const UINT32_MODULUS: int := 0x1_0000_0000

  predicate InInt32(x: int) {
    INT32_MIN <= x <= INT32_MAX
  }

  /** Values of a C `uint8_t`. */
  type Byte = x: int | 0 <= x < 256

  /** Values of a C `uint32_t`. */
  type U32 = x: int | 0 <= x < UINT32_MODULUS

  function Abs(x: int): nat {
    if x < 0 then -x else x
  }

  /**
   * C integer division: the quotient is truncated toward zero. Dafny's own
   * `/` is Euclidean, so the magnitudes are divided and the sign restored.
   */
  function CDiv(a: int, b: int): int
    requires b != 0
  {
    var x: int, y: int := Abs(a), Abs(b);
    if (a < 0) == (b < 0) then x / y else -(x / y)
  }

  /**
   * `CDiv` is C's truncating division: the magnitude of the quotient is
   * the floor of the magnitudes' quotient, and a nonzero quotient has the
   * sign of the operands' product.
   */
  lemma CDivIsTruncation(a: int, b: int)
    requires b != 0
    ensures var q := CDiv(a, b);
      && Abs(q) * Abs(b) <= Abs(a) < (Abs(q) + 1) * Abs(b)
      && (q > 0 ==> (a > 0 <==> b > 0))
      && (q < 0 ==> (a > 0 <==> b < 0))
      && (a == 0 ==> q == 0)
  {
    var x: int, y: int := Abs(a), Abs(b);
    var m: int := x / y;
    var q := CDiv(a, b);
    assert m * y <= x < (m + 1) * y && (m > 0 ==> x > 0) && m >= 0 by {
      DivBounds(x, y);
    }
    assert q == (if (a < 0) == (b < 0) then m else -m);
    assert Abs(q) == m;
  }

  /** Floor division of naturals brackets the dividend. */
  lemma DivBounds(a: int, b: int)
    requires a >= 0 && b > 0
    ensures (a / b) * b <= a < (a / b + 1) * b
    ensures a / b > 0 ==> a > 0
    ensures a / b >= 0
  {
    var q, r := a / b, a % b;
    assert a == q * b + r;
    assert (q + 1) * b == q * b + b;
  }

  /** Truncating division commutes with negating the dividend. */
  lemma CDivNegate(a: int, b: int)
    requires b != 0
    ensures CDiv(-a, b) == -CDiv(a, b)
  {
    var x: int, y: int := Abs(a), Abs(b);
    assert Abs(-a) == x;
    var m: int := x / y;
    assert a == 0 ==> m == 0 by {
      DivBounds(x, y);
    }
    assert CDiv(a, b) == if (a < 0) == (b < 0) then m else -m;
    assert CDiv(-a, b) == if (-a < 0) == (b < 0) then m else -m;
  }

  /** A truncated quotient by a divisor of magnitude at least one never grows. */
  lemma CDivShrinks(a: int, b: int)
    requires b != 0
    ensures Abs(CDiv(a, b)) <= Abs(a)
  {
    var q := CDiv(a, b);
    CDivIsTruncation(a, b);
    assert Abs(q) <= Abs(q) * Abs(b) by {
      MulAtLeastOne(Abs(q), Abs(b));
    }
  }

  lemma MulAtLeastOne(x: int, y: int)
    requires x >= 0 && y >= 1
    ensures x <= x * y
  {
    assert x * y == x + x * (y - 1);
  }

  /** Truncating division is monotone in the dividend for a positive divisor. */
  lemma CDivMonotone(a: int, a': int, b: int)
    requires b > 0 && a <= a'
    ensures CDiv(a, b) <= CDiv(a', b)
  {
    var q, q' := CDiv(a, b), CDiv(a', b);
    CDivIsTruncation(a, b);
    CDivIsTruncation(a', b);
    if q > q' {
      if a' >= 0 {
        // both non-negative: q * b <= a <= a' < (q' + 1) * b <= q * b
        assert q * b <= a;
        assert a' < (q' + 1) * b;
        MulMonotone(q' + 1, q, b);
      } else if a >= 0 {
        assert false;
      } else {
        // both negative: -q' <= ... mirror of the case above
        CDivNegate(a, b);
        CDivNegate(a', b);
        var n, n' := -a, -a';
        CDivIsTruncation(n, b);
        CDivIsTruncation(n', b);
        assert CDiv(n', b) == -q' && CDiv(n, b) == -q;
        assert -q' * b <= n';
        assert n < (-q + 1) * b;
        MulMonotone(-q + 1, -q', b);
      }
    }
  }

  lemma MulMonotone(x: int, y: int, b: int)
    requires x <= y && b >= 0
    ensures x * b <= y * b
  {
    assert y * b == x * b + (y - x) * b;
  }

  /**
   * The firmware's symmetric clamp: the value limited to [-max, max].
   */
  function Clamp(value: int, max: int): (r: int)
    requires max >= 0
    ensures -max <= r <= max
    ensures -max <= value <= max ==> r == value
    ensures value > max ==> r == max
    ensures value < -max ==> r == -max
  {
    if value > max then max else if value < -max then -max else value
  }

  /** Clamping commutes with negation. */
  lemma ClampNegate(value: int, max: int)
    requires max >= 0
    ensures Clamp(-value, max) == -Clamp(value, max)
  {
  }

  /** The sign of an integer: 1, -1, or 0 for zero. */
  function Sign(x: int): (r: int)
    ensures r * x == Abs(x)
    ensures x != 0 ==> r == 1 || r == -1
    ensures x == 0 ==> r == 0
  {
    if x > 0 then 1 else if x < 0 then -1 else 0
  }

  /** Congruence modulo 2^32. */
  predicate Congruent32(x: int, y: int) {
    (x - y) % UINT32_MODULUS == 0
  }

  /** Sums and differences of congruent values are congruent. */
  lemma CongruentSum(a: int, b: int, c: int, d: int)
    requires Congruent32(a, b) && Congruent32(c, d)
    ensures Congruent32(a + c, b + d) && Congruent32(a - c, b - d)
  {
    var p, q := (a - b) / UINT32_MODULUS, (c - d) / UINT32_MODULUS;
    assert a - b == p * UINT32_MODULUS;
    assert c - d == q * UINT32_MODULUS;
    assert (a + c) - (b + d) == (p + q) * UINT32_MODULUS;
    assert (a - c) - (b - d) == (p - q) * UINT32_MODULUS;
  }

  lemma CongruentTransitive(a: int, b: int, c: int)
    requires Congruent32(a, b) && Congruent32(b, c)
    ensures Congruent32(a, c)
  {
    CongruentSum(a, b, b, c);
    assert (a + b) - (b + c) == a - c;
  }

  /** Two congruent `int32_t` values are equal. */
  lemma CongruentInRange(x: int, y: int)
    requires Congruent32(x, y) && InInt32(x) && InInt32(y)
    ensures x == y
  {
  }

  /**
   * An `int32_t` result of C arithmetic. Signed overflow is undefined in
   * C; this is the two's-complement wrap modulo 2^32 that the hubs' GCC
   * build produces.
   */
  function Wrap32(x: int): (r: int)
    ensures InInt32(r) && Congruent32(r, x)
    ensures InInt32(x) ==> r == x
  {
    (x - INT32_MIN) % UINT32_MODULUS + INT32_MIN
  }

  /** C subtraction of two `uint32_t` values, which wraps modulo 2^32. */
  function U32Sub(a: U32, b: U32): (r: U32)
    ensures a >= b ==> r == a - b
    ensures a < b ==> r == a - b + UINT32_MODULUS
    ensures (b + r) % UINT32_MODULUS == a
  {
    (a - b) % UINT32_MODULUS
  }
}
