/**
 * functions.py: GLSL-style helpers on floats and float vectors. Vectors are
 * sequences of reals; `np.dot` of vectors of different lengths is refused
 * with a ValueError, as numpy refuses it.
 */
module ShaderFunctions {
  import opened Wrappers
  import opened Errors
  import opened Numeric

  /** `clamp(value, min_value, max_value)`: `max(min_value, min(value, max_value))`. */
  function Clamp(v: real, lo: real, hi: real): (r: real)
    ensures lo <= hi ==> lo <= r <= hi
    ensures lo <= v <= hi ==> r == v
    ensures v <= lo ==> r == lo
    ensures lo <= hi <= v ==> r == hi
    ensures hi < lo ==> r == lo
  {
    Max(lo, Min(v, hi))
  }

  /** `fract(value)`: `value - floor(value)`. */
  function Fract(v: real): (r: real)
    ensures 0.0 <= r < 1.0
    ensures v - r == (v - r).Floor as real
  {
    v - v.Floor as real
  }

  /** A fraction is its own fractional part. */
  lemma FractOfFraction(v: real)
    requires 0.0 <= v < 1.0
    ensures Fract(v) == v
  {
  }

  /** The fractional part repeats with period one. */
  lemma FractPeriodic(v: real, k: int)
    ensures Fract(v + k as real) == Fract(v)
  {
    var f := v.Floor;
    assert f as real <= v + k as real - k as real < f as real + 1.0;
    assert (v + k as real).Floor == f + k;
  }

  /** `mix(x, y, a)`: `x * (1 - a) + y * a`. */
  function Mix(x: real, y: real, a: real): (r: real)
    ensures a == 0.0 ==> r == x
    ensures a == 1.0 ==> r == y
    ensures 0.0 <= a <= 1.0 ==> Min(x, y) <= r <= Max(x, y)
  {
    assert x * (1.0 - a) + y * a == x + a * (y - x);
    assert 0.0 <= a <= 1.0 ==> Min(x, y) <= x + a * (y - x) <= Max(x, y) by {
      if 0.0 <= a <= 1.0 {
        if x <= y {
          MulNonnegative(a, y - x);
          MulNonnegative(1.0 - a, y - x);
        } else {
          MulNonnegative(a, x - y);
          MulNonnegative(1.0 - a, x - y);
        }
      }
    }
    x * (1.0 - a) + y * a
  }

  /** Between two different ends every value is reached, at the weight `(r - x) / (y - x)`. */
  lemma MixReachesEverything(x: real, y: real, r: real)
    requires x != y
    ensures Mix(x, y, (r - x) / (y - x)) == r
  {
    var a := (r - x) / (y - x);
    assert a * (y - x) == r - x;
    assert Mix(x, y, a) == x + a * (y - x);
  }

  /** `step(edge, x)`: one from the edge on, zero below it. */
  function Step(edge: real, x: real): (r: real)
    ensures r == 1.0 <==> edge <= x
    ensures r == 0.0 <==> x < edge
  {
    if x >= edge then 1.0 else 0.0
  }

  /** The cubic `t * t * (3 - 2t)` of `smoothstep`. */
  function Hermite(t: real): real {
    t * t * (3.0 - 2.0 * t)
  }

  /** On [0, 1] the cubic stays in [0, 1] and fixes both ends. */
  lemma HermiteInUnit(t: real)
    requires 0.0 <= t <= 1.0
    ensures 0.0 <= Hermite(t) <= 1.0
  {
    MulNonnegative(t, t);
    MulNonnegative(t * t, 3.0 - 2.0 * t);
    // 1 - t^2 (3 - 2t) = (1 - t)^2 (1 + 2t)
    assert 1.0 - Hermite(t) == (1.0 - t) * (1.0 - t) * (1.0 + 2.0 * t);
    MulNonnegative(1.0 - t, 1.0 - t);
    MulNonnegative((1.0 - t) * (1.0 - t), 1.0 + 2.0 * t);
  }

  /**
   * `smoothstep(edge0, edge1, x)`: the position of x between the edges,
   * clamped to [0, 1], through the cubic. Equal edges divide by zero.
   */
  function SmoothStep(e0: real, e1: real, x: real): (r: Result<real, Error>)
    ensures r.Err? <==> e0 == e1
    ensures r.Err? ==> r.error == ZeroDivisionError
    ensures r.Ok? ==> 0.0 <= r.value <= 1.0
    ensures e0 < e1 && x <= e0 ==> r == Ok(0.0)
    ensures e0 < e1 && e1 <= x ==> r == Ok(1.0)
    ensures e1 < e0 && e0 <= x ==> r == Ok(0.0)
    ensures e1 < e0 && x <= e1 ==> r == Ok(1.0)
  {
    if e1 - e0 == 0.0 then Err(ZeroDivisionError)
    else
      var u := (x - e0) / (e1 - e0);
      var t := Clamp(u, 0.0, 1.0);
      HermiteInUnit(t);
      RampEnds(e0, e1, x, u);
      Ok(Hermite(t))
  }

  /** Where x lies beyond an edge, its position on the ramp lies beyond 0 or 1. */
  lemma RampEnds(e0: real, e1: real, x: real, u: real)
    requires e0 != e1 && u == (x - e0) / (e1 - e0)
    ensures e0 < e1 && x <= e0 ==> u <= 0.0
    ensures e0 < e1 && e1 <= x ==> 1.0 <= u
    ensures e1 < e0 && e0 <= x ==> u <= 0.0
    ensures e1 < e0 && x <= e1 ==> 1.0 <= u
  {
    var d := e1 - e0;
    DivCancel(x - e0, d);
    assert d * u == x - e0;
    QuotientSign(x - e0, d, u);
    assert d * (1.0 - u) == e1 - x;
    QuotientSign(e1 - x, d, 1.0 - u);
  }

  /** A quotient is not positive when its numerator and denominator differ in sign. */
  lemma QuotientSign(a: real, d: real, q: real)
    requires d * q == a
    ensures 0.0 < d && a <= 0.0 ==> q <= 0.0
    ensures d < 0.0 && 0.0 <= a ==> q <= 0.0
  {
    if 0.0 < q && 0.0 < d {
      MulPositive(q, d);
    } else if 0.0 < q && d < 0.0 {
      MulPositive(q, -d);
    }
  }

  /** Outside the ramp `smoothstep` is the step at its upper edge. */
  lemma SmoothStepIsStepOutside(e0: real, e1: real, x: real)
    requires e0 < e1 && (x <= e0 || e1 <= x)
    ensures SmoothStep(e0, e1, x) == Ok(Step(e1, x))
  {
  }

  /** The cubic never decreases on [0, 1]. */
  lemma HermiteMonotone(a: real, b: real)
    requires 0.0 <= a <= b <= 1.0
    ensures Hermite(a) <= Hermite(b)
  {
    // H(b) - H(a) = (b - a) (3 (a + b) - 2 (a^2 + a b + b^2))
    assert Hermite(b) - Hermite(a) == (b - a) * (3.0 * (a + b) - 2.0 * (a * a + a * b + b * b));
    MulNonnegative(a, 1.0 - a);
    MulNonnegative(b, 1.0 - b);
    MulNonnegative(a, b);
    MulNonnegative(a, 1.0 - b);
    MulNonnegative(b - a, 3.0 * (a + b) - 2.0 * (a * a + a * b + b * b));
  }

  /** The cubic is point-symmetric about (1/2, 1/2). */
  lemma HermiteSymmetric(t: real)
    ensures Hermite(t) + Hermite(1.0 - t) == 1.0
  {
    var s := 1.0 - t;
    assert t * t * (3.0 - 2.0 * t) == 3.0 * (t * t) - 2.0 * (t * t * t);
    assert s * s == 1.0 - 2.0 * t + t * t;
    assert s * s * (3.0 - 2.0 * s) == (1.0 - 2.0 * t + t * t) * (1.0 + 2.0 * t);
    assert (1.0 - 2.0 * t + t * t) * (1.0 + 2.0 * t) == 1.0 - 3.0 * (t * t) + 2.0 * (t * t * t);
  }

  /** On a rising ramp `smoothstep` never decreases in x. */
  lemma SmoothStepMonotone(e0: real, e1: real, x: real, y: real)
    requires e0 < e1 && x <= y
    ensures SmoothStep(e0, e1, x).value <= SmoothStep(e0, e1, y).value
  {
    var d := e1 - e0;
    var u, w := (x - e0) / d, (y - e0) / d;
    assert u * d == x - e0 && w * d == y - e0;
    assert u <= w by {
      if w < u {
        MulPositive(u - w, d);
      }
    }
    assert Clamp(u, 0.0, 1.0) <= Clamp(w, 0.0, 1.0);
    HermiteMonotone(Clamp(u, 0.0, 1.0), Clamp(w, 0.0, 1.0));
  }

  /** The ramp is point-symmetric about its middle: mirrored positions sum to one. */
  lemma SmoothStepSymmetric(e0: real, e1: real, x: real)
    requires e0 != e1
    ensures SmoothStep(e0, e1, x).value + SmoothStep(e0, e1, e0 + e1 - x).value == 1.0
  {
    var d := e1 - e0;
    var u, w := (x - e0) / d, (e1 - x) / d;
    DivCancel(x - e0, d);
    DivCancel(e1 - x, d);
    assert d * (1.0 - u) == d - d * u == e1 - x == d * w;
    MulCancel(d, w, 1.0 - u);
    var t := Clamp(u, 0.0, 1.0);
    assert Clamp(w, 0.0, 1.0) == 1.0 - t;
    assert SmoothStep(e0, e1, x).value == Hermite(t);
    assert SmoothStep(e0, e1, e0 + e1 - x).value == Hermite(1.0 - t);
    HermiteSymmetric(t);
  }

  /** A non-zero factor cancels. */
  lemma MulCancel(d: real, a: real, b: real)
    requires d != 0.0 && d * a == d * b
    ensures a == b
  {
    var z := a - b;
    assert d * z == d * a - d * b;
    if 0.0 < z && 0.0 < d {
      MulPositive(z, d);
    } else if 0.0 < z {
      MulPositive(z, -d);
    } else if z < 0.0 && 0.0 < d {
      MulPositive(-z, d);
    } else if z < 0.0 {
      MulPositive(-z, -d);
    }
  }

  // ---------------------------------------------------------------------
  // Vectors

  /** `np.dot(a, b)` of two vectors of one length. */
  function Dot(a: seq<real>, b: seq<real>): real
    requires |a| == |b|
  {
    if a == [] then 0.0 else a[0] * b[0] + Dot(a[1..], b[1..])
  }

  /** `b - k * c`, element by element. */
  function Axpy(b: seq<real>, k: real, c: seq<real>): (r: seq<real>)
    requires |b| == |c|
    ensures |r| == |b| && forall j :: 0 <= j < |b| ==> r[j] == b[j] - k * c[j]
  {
    seq(|b|, j requires 0 <= j < |b| => b[j] - k * c[j])
  }

  lemma {:induction false} DotSymmetric(a: seq<real>, b: seq<real>)
    requires |a| == |b|
    ensures Dot(a, b) == Dot(b, a)
  {
    if a != [] {
      DotSymmetric(a[1..], b[1..]);
    }
  }

  /** The dot product is linear in its second argument. */
  lemma {:induction false} DotAxpy(a: seq<real>, b: seq<real>, k: real, c: seq<real>)
    requires |a| == |b| == |c|
    ensures Dot(a, Axpy(b, k, c)) == Dot(a, b) - k * Dot(a, c)
  {
    if a != [] {
      var r := Axpy(b, k, c);
      AxpyTail(b, k, c);
      DotAxpy(a[1..], b[1..], k, c[1..]);
      AxpyStep(a[0], b[0], c[0], k, r[0], Dot(a[1..], b[1..]), Dot(a[1..], c[1..]), Dot(a[1..], r[1..]));
    }
  }

  /** Combining and dropping the first element commute. */
  lemma AxpyTail(b: seq<real>, k: real, c: seq<real>)
    requires |b| == |c| && 0 < |b|
    ensures Axpy(b, k, c)[1..] == Axpy(b[1..], k, c[1..])
  {
    var r, t := Axpy(b, k, c)[1..], Axpy(b[1..], k, c[1..]);
    forall j | 0 <= j < |t|
      ensures r[j] == t[j]
    {
      assert b[1..][j] == b[j + 1] && c[1..][j] == c[j + 1];
    }
  }

  /** One element of the linearity step: a0 (b0 - k c0) + (x - k y) regrouped. */
  lemma AxpyStep(a0: real, b0: real, c0: real, k: real, r0: real, x: real, y: real, z: real)
    requires r0 == b0 - k * c0 && z == x - k * y
    ensures a0 * r0 + z == (a0 * b0 + x) - k * (a0 * c0 + y)
  {
  }

  /** `reflect(i, n)`: `i - 2 (n . i) n`. */
  function Reflect(i: seq<real>, n: seq<real>): (r: Result<seq<real>, Error>)
    ensures r.Err? <==> |i| != |n|
    ensures r.Err? ==> r.error.ValueError?
    ensures r.Ok? ==> |r.value| == |i|
  {
    if |i| != |n| then Err(ValueError("shapes not aligned"))
    else Ok(Axpy(i, 2.0 * Dot(n, i), n))
  }

  /** A unit normal flips the component along it: the reflection's dot product with it changes sign. */
  lemma ReflectFlipsNormal(i: seq<real>, n: seq<real>)
    requires |i| == |n| && Dot(n, n) == 1.0
    ensures Dot(n, Reflect(i, n).value) == -Dot(n, i)
  {
    var k := 2.0 * Dot(n, i);
    assert Reflect(i, n).value == Axpy(i, k, n);
    DotAxpy(n, i, k, n);
  }

  /** Reflecting twice in a unit normal gives the vector back. */
  lemma ReflectTwice(i: seq<real>, n: seq<real>)
    requires |i| == |n| && Dot(n, n) == 1.0
    ensures Reflect(Reflect(i, n).value, n) == Ok(i)
  {
    var d := Dot(n, i);
    var r := Axpy(i, 2.0 * d, n);
    assert Reflect(i, n).value == r;
    ReflectFlipsNormal(i, n);
    assert Reflect(r, n).value == Axpy(r, -(2.0 * d), n);
    AxpyUndo(i, 2.0 * d, n);
  }

  /** Subtracting k c and then -k c leaves b as it was. */
  lemma AxpyUndo(b: seq<real>, k: real, c: seq<real>)
    requires |b| == |c|
    ensures Axpy(Axpy(b, k, c), -k, c) == b
  {
    var s := Axpy(Axpy(b, k, c), -k, c);
    forall j | 0 <= j < |b|
      ensures s[j] == b[j]
    {
      var p := k * c[j];
      assert -k * c[j] == -p;
    }
  }

  /** A vector orthogonal to the normal is left as it is. */
  lemma ReflectKeepsTangent(i: seq<real>, n: seq<real>)
    requires |i| == |n| && Dot(n, i) == 0.0
    ensures Reflect(i, n) == Ok(i)
  {
    assert Reflect(i, n).value == i;
  }
}
