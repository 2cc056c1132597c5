/**
 * The few ECMAScript number operations the generators rely on, stated
 * exactly over Dafny's unbounded integers and exact reals.
 */
module JsNumeric {

  const TWO_31: int := 0x8000_0000
  const TWO_32: int := 0x1_0000_0000

  /** An integer in the range of a 32-bit two's-complement value. */
  predicate IsInt32(v: int) {
    -TWO_31 <= v < TWO_31
  }

  /** ECMAScript ToInt32 on an integral value: reduction modulo 2^32 into [-2^31, 2^31). */
  function ToInt32(v: int): (r: int)
    ensures IsInt32(r)
    ensures (v - r) % TWO_32 == 0
    ensures IsInt32(v) ==> r == v
  {
    (v + TWO_31) % TWO_32 - TWO_31
  }

  /** `a % m` in ECMAScript for integral operands and m > 0: the remainder takes the sign of the dividend. */
  function JsRem(a: int, m: int): (r: int)
    requires m > 0
    ensures a >= 0 ==> 0 <= r < m
    ensures a < 0 ==> -m < r <= 0
  {
    if a >= 0 then a % m else -((-a) % m)
  }

  /** The truncating remainder is zero exactly when the Euclidean one is, and the two agree on a nonnegative dividend. */
  lemma JsRemZero(a: int, m: int)
    requires m > 0
    ensures JsRem(a, m) == 0 <==> a % m == 0
    ensures a >= 0 ==> JsRem(a, m) == a % m
  {
    NegModZero(a, m);
  }

  lemma NegModZero(a: int, m: int)
    requires m > 0
    ensures (-a) % m == 0 <==> a % m == 0
  {
    ModOfMultiple(-(a / m), m);
    assert a % m == 0 ==> -a == -(a / m) * m;
    ModOfMultiple(-((-a) / m), m);
    assert (-a) % m == 0 ==> a == -((-a) / m) * m;
  }

  lemma ModOfMultiple(k: int, m: int)
    requires m > 0
    ensures (k * m) % m == 0
  {
    var q, r := (k * m) / m, (k * m) % m;
    assert (k - q) * m == k * m - q * m;
    MulBounds(k - q, m);
  }

  lemma MulBounds(d: int, m: int)
    requires m > 0
    ensures d >= 1 ==> d * m >= m
    ensures d <= -1 ==> d * m <= -m
  {
  }

  /** `Math.ceil` on an exact real. */
  function Ceil(x: real): (r: int)
    ensures (r - 1) as real < x <= r as real
  {
    -((-x).Floor)
  }

  /** `Math.round` on an exact real: the nearest integer, an exact half rounding towards +infinity. */
  function Round(x: real): (r: int)
    ensures x - 0.5 < r as real <= x + 0.5
  {
    (x + 0.5).Floor
  }

  /** `Math.abs` on an integer. */
  function Abs(v: int): (r: nat)
    ensures r == v || r == -v
  {
    if v < 0 then -v else v
  }

  function Max(a: int, b: int): (r: int)
    ensures r >= a && r >= b && (r == a || r == b)
  {
    if a >= b then a else b
  }

  function Min(a: int, b: int): (r: int)
    ensures r <= a && r <= b && (r == a || r == b)
  {
    if a <= b then a else b
  }
  /** A product with a positive factor has the sign of the other factor. */
  lemma FactorSign(a: real, b: real)
    requires b > 0.0
    ensures a * b > 0.0 ==> a > 0.0
    ensures a * b >= 0.0 ==> a >= 0.0
  {
  }


  /**
   * `Number.MAX_VALUE`, the largest finite double, (2^53 - 1) * 2^971, as an exact integer.
   * The generators only ever compare it with small ring radii.
   */
  const MAX_VALUE: int := 0xFFFFFFFFFFFFF800000000000000000000000000000000000000000000000000000000000000000000000000000000000000000000000000000000000000000000000000000000000000000000000000000000000000000000000000000000000000000000000000000000000000000000000000000000000000000000000000

  /**
   * `Math.sin`, `Math.sqrt` and `Math.exp`, taken as given functions on reals.
   * The only fact the model uses about any of them is that `Math.exp` is positive.
   */
  datatype MathLib = MathLib(sin: real -> real, sqrt: real -> real, exp: real -> real)

  ghost predicate ExpPositive(lib: MathLib) {
    forall t :: lib.exp(t) > 0.0
  }
}
