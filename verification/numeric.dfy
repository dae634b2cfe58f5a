/** Scalar helpers shared by every other module: the JavaScript number operations
    the application relies on, written out over Dafny's unbounded `real` and `int`.

    - `JsRem360` is JavaScript's `%` (the result takes the sign of the dividend), not
      Dafny's Euclidean `%`.
    - `JsRound` is `Math.round` (halves go towards +infinity).
    - `RoundHalfAway` is the rounding `Number.prototype.toFixed` performs on the
      magnitude of its argument (halves go away from zero).
    - `Num` adds JavaScript's NaN to the reals, for the few places where the
      application inspects it.
 */
module Numeric {

  datatype Option<+T> = None | Some(value: T)

  /** A point or a vector in the plane. */
  datatype Point = Point(x: real, y: real)

  /** A JavaScript number that may be NaN. */
  datatype Num = NaN | Val(v: real)

  function Abs(x: real): (r: real)
    ensures r >= 0.0
    ensures r == x || r == -x
  {
    if x < 0.0 then -x else x
  }

  function Min(a: real, b: real): (r: real)
    ensures r <= a && r <= b
    ensures r == a || r == b
  {
    if a <= b then a else b
  }

  function Max(a: real, b: real): (r: real)
    ensures r >= a && r >= b
    ensures r == a || r == b
  {
    if a >= b then a else b
  }

  function MinInt(a: int, b: int): (r: int)
    ensures r <= a && r <= b
    ensures r == a || r == b
  {
    if a <= b then a else b
  }

  function MaxInt(a: int, b: int): (r: int)
    ensures r >= a && r >= b
    ensures r == a || r == b
  {
    if a >= b then a else b
  }

  /** `x ** 2`. The second factor goes through `Id` so that the verifier's
      arithmetic treats a square like any other product of two terms. */
  function Sq(x: real): real {
    x * Id(x)
  }

  function Id(x: real): real {
    x
  }

  /** True of reals that are whole numbers. */
  predicate IsWhole(q: real) {
    q.Floor as real == q
  }

  /** Truncation towards zero, the integer part JavaScript keeps in `%`. */
  function Trunc(q: real): (r: int)
    ensures Abs(r as real) <= Abs(q) < Abs(r as real) + 1.0
    ensures q >= 0.0 ==> r >= 0
    ensures q <= 0.0 ==> r <= 0
  {
    if q >= 0.0 then q.Floor else -((-q).Floor)
  }

  /** JavaScript's `x % 360`: the remainder keeps the sign of `x`. */
  function JsRem360(x: real): (r: real)
    ensures x >= 0.0 ==> 0.0 <= r < 360.0
    ensures x < 0.0 ==> -360.0 < r <= 0.0
    ensures x - r == 360.0 * Trunc(x / 360.0) as real
  {
    x - 360.0 * Trunc(x / 360.0) as real
  }

  /** JavaScript's `%` on integers (truncating), for a positive modulus. */
  function JsRemInt(x: int, m: int): (r: int)
    requires m > 0
    ensures x >= 0 ==> 0 <= r < m
    ensures x < 0 ==> -m < r <= 0
  {
    if x >= 0 then x % m else -((-x) % m)
  }

  /** `Math.round`: the nearest integer, halves rounded towards +infinity. */
  function JsRound(q: real): (r: int)
    ensures q - 0.5 < r as real <= q + 0.5
  {
    (q + 0.5).Floor
  }

  /** `Math.floor` of a real known to be non-negative. */
  function FloorNat(q: real): (r: nat)
    requires q >= 0.0
    ensures r as real <= q < r as real + 1.0
  {
    q.Floor
  }

  /** The integer `toFixed` writes before scaling back: the nearest one to `q`,
      halves rounded away from zero. */
  function RoundHalfAway(q: real): (r: int)
    ensures Abs(r as real - q) <= 0.5
    ensures q >= 0.0 ==> r >= 0
    ensures q <= 0.0 ==> r <= 0
  {
    if q >= 0.0 then (q + 0.5).Floor else -((-q + 0.5).Floor)
  }

  /** `parseFloat(x.toFixed(3))` on an exact real: x rounded to thousandths. */
  function RoundThousandths(x: real): (r: real)
    ensures Abs(r - x) <= 0.0005
    ensures IsWhole(r * 1000.0)
  {
    var n := RoundHalfAway(x * 1000.0);
    assert (n as real / 1000.0) * 1000.0 == n as real;
    n as real / 1000.0
  }

  /** `parseFloat(x.toFixed(1))` on an exact real: x rounded to tenths. */
  function RoundTenths(x: real): (r: real)
    ensures Abs(r - x) <= 0.05
    ensures IsWhole(r * 10.0)
  {
    var n := RoundHalfAway(x * 10.0);
    assert (n as real / 10.0) * 10.0 == n as real;
    n as real / 10.0
  }

  // ---------------------------------------------------------------------------
  // Facts about products and squares

  /** Multiplying by a non-negative factor keeps an order; by a positive one, a
      strict order. */
  lemma MulMono(m: real, x: real, y: real)
    ensures m >= 0.0 && x <= y ==> m * x <= m * y
    ensures m > 0.0 && x < y ==> m * x < m * y
  {
    assert m * y - m * x == m * (y - x);
  }

  /** A positive number over a positive one is positive. */
  lemma QuotPositive(a: real, d: real)
    requires a > 0.0 && d > 0.0
    ensures a / d > 0.0
  {
    var q := a / d;
    assert q * d == a;
    if q <= 0.0 {
      MulMono(d, q, 0.0);
    }
  }

  lemma SqNonNegative(x: real)
    ensures Sq(x) >= 0.0
    ensures x != 0.0 ==> Sq(x) > 0.0
    ensures x == 0.0 ==> Sq(x) == 0.0
    ensures Sq(-x) == Sq(x)
  {
  }

  /** Squaring is monotone on the non-negative reals. */
  lemma SqLess(x: real, y: real)
    ensures 0.0 <= x < y ==> Sq(x) < Sq(y)
    ensures 0.0 <= x <= y ==> Sq(x) <= Sq(y)
  {
    MulMono(x, Id(x), y);
    MulMono(y, x, Id(y));
  }

  /** A square no larger than a² puts x within [-a, a]. */
  lemma SqBounded(x: real, a: real)
    requires a >= 0.0 && Sq(x) <= Sq(a)
    ensures -a <= x <= a
  {
    SqLess(a, x);
    SqLess(a, -x);
    SqNonNegative(x);
  }

  lemma SqExpand(a: real, b: real)
    ensures Sq(a - b) == Sq(a) - 2.0 * a * b + Sq(b)
    ensures Sq(a + b) == Sq(a) + 2.0 * a * b + Sq(b)
    ensures Sq(a * b) == Sq(a) * Sq(b)
  {
    assert Sq(a * b) == (a * b) * (a * b);
  }
}
