/**
 * Numeric helpers shared by the model: Python's float-to-int conversions,
 * floor modulo, and the transcendental functions the source takes from
 * `math` and `numpy`.
 */
module Numeric {

  /**
   * The square root, cosine, sine and pi the source takes from its math
   * libraries. They are not definable over Dafny's reals, so every member
   * that needs them receives them as a parameter that obeys `Lawful`.
   */
  datatype MathFns = MathFns(sqrt: real -> real, cos: real -> real, sin: real -> real, pi: real)

  /** The only facts the model relies on. */
  ghost predicate Lawful(m: MathFns) {
    && (forall x :: 0.0 <= x ==> 0.0 <= m.sqrt(x) && m.sqrt(x) * m.sqrt(x) == x)
    && (forall x :: 0.0 < x ==> 0.0 < m.sqrt(x))
    && m.sqrt(0.0) == 0.0
    && m.cos(0.0) == 1.0
    && m.sin(0.0) == 0.0
    && (forall x :: m.cos(x) * m.cos(x) + m.sin(x) * m.sin(x) == 1.0)
    && 0.0 < m.pi
  }

  function Abs(x: real): (r: real)
    ensures 0.0 <= r && (r == x || r == -x)
  {
    if x < 0.0 then -x else x
  }

  function Min(a: real, b: real): (r: real)
    ensures r <= a && r <= b && (r == a || r == b)
  {
    if a <= b then a else b
  }

  function Max(a: real, b: real): (r: real)
    ensures a <= r && b <= r && (r == a || r == b)
  {
    if a <= b then b else a
  }

  /** Python's `int(x)` on a float: truncation toward zero. */
  function Trunc(x: real): (r: int)
    ensures 0.0 <= x ==> 0 <= r && r as real <= x < r as real + 1.0
    ensures x < 0.0 ==> r <= 0 && r as real - 1.0 < x <= r as real
  {
    if 0.0 <= x then x.Floor else -((-x).Floor)
  }

  /** Python's `round(x)` on a float: nearest integer, ties to even. */
  function Round(x: real): (r: int)
    ensures x - 0.5 <= r as real <= x + 0.5
    ensures r as real == x - 0.5 || r as real == x + 0.5 ==> r % 2 == 0
  {
    var f := x.Floor;
    var d := x - f as real;
    if d < 0.5 then f
    else if 0.5 < d then f + 1
    else if f % 2 == 0 then f else f + 1
  }

  /** Python's `math.ceil(x)`: the least integer at or above x. */
  function Ceil(x: real): (r: int)
    ensures x <= r as real < x + 1.0
  {
    -((-x).Floor)
  }

  /** `range(ceil(x))` holds exactly the naturals below x. */
  lemma BelowCeil(i: nat, x: real)
    ensures i < Ceil(x) <==> (i as real) < x
  {
  }

  /** Python's `x % m` on floats for a positive modulus (the result has the sign of `m`). */
  function FloorMod(x: real, m: real): (r: real)
    requires 0.0 < m
    ensures 0.0 <= r < m
    ensures (x - r) / m == ((x - r) / m).Floor as real
  {
    FloorDivBounds(x, m);
    var q := (x / m).Floor as real;
    x - m * q
  }

  lemma FloorDivBounds(x: real, m: real)
    requires 0.0 < m
    ensures var q := (x / m).Floor as real; 0.0 <= x - m * q < m && (x - (x - m * q)) / m == q
  {
    var y := x / m;
    var q := y.Floor as real;
    DivCancel(x, m);
    QuotientBounds(x, m, y, q, y - q, 1.0 - (y - q));
    MulDivCancel(q, m);
    Cancel(x, m * q);
  }

  /**
   * For q between y = x / m and y - 1, x - m q lies in [0, m); e and f name
   * the fractional part and its complement so that the products stay atomic.
   */
  lemma QuotientBounds(x: real, m: real, y: real, q: real, e: real, f: real)
    requires 0.0 < m && m * y == x && q <= y < q + 1.0
    requires e == y - q && f == 1.0 - e
    ensures 0.0 <= x - m * q < m
  {
    MulNonnegative(m, e);
    MulPositive(m, f);
    Distribute(m, y, q, e);
    Distribute(m, 1.0, e, f);
  }

  lemma Cancel(x: real, p: real)
    ensures x - (x - p) == p
  {
  }

  lemma DivCancel(x: real, m: real)
    requires m != 0.0
    ensures m * (x / m) == x
  {
  }

  lemma MulDivCancel(q: real, m: real)
    requires m != 0.0
    ensures (m * q) / m == q
  {
  }

  lemma Distribute(m: real, a: real, b: real, d: real)
    requires d == a - b
    ensures m * d == m * a - m * b
  {
  }

  lemma MulNonnegative(a: real, b: real)
    requires 0.0 <= a && 0.0 <= b
    ensures 0.0 <= a * b
  {
  }

  lemma MulPositive(a: real, b: real)
    requires 0.0 < a && 0.0 < b
    ensures 0.0 < a * b
  {
  }

  /** A positive product with a positive factor has a positive other factor. */
  lemma PositiveFactor(a: real, k: real)
    requires 0.0 < k && 0.0 < a * k
    ensures 0.0 < a
  {
    if a <= 0.0 {
      MulNonnegative(-a, k);
    }
  }

  /** A non-negative product with a positive factor has a non-negative other factor. */
  lemma NonnegativeFactor(a: real, k: real)
    requires 0.0 < k && 0.0 <= a * k
    ensures 0.0 <= a
  {
    if a < 0.0 {
      MulPositive(-a, k);
    }
  }

  /** Squaring is strictly increasing on the non-negative reals. */
  lemma SquareGrows(k: real, r: real)
    requires 0.0 <= k < r
    ensures k * k < r * r
  {
    var d := r - k;
    MulNonnegative(k, d);
    MulPositive(d, r);
    assert r * r - k * k == k * d + d * r;
  }

  lemma SquareNonnegative(x: real)
    ensures 0.0 <= x * x
  {
    if x < 0.0 {
      MulNonnegative(-x, -x);
    } else {
      MulNonnegative(x, x);
    }
  }
}
