/**
 * laser/shapes/ellipse.py: an axis-aligned ellipse given by its centre and
 * radii, sampled by angle, with closed-form containment tests.
 */
module Ellipses {
  import opened Wrappers
  import opened Errors
  import opened Numeric
  import opened Polar
  import opened Geometry
  import opened Colors
  import opened Polylines

  /** The radii the tests divide by; a zero radius makes numpy produce inf or nan. */
  predicate ProperRadii(radii: Vec) {
    radii.x != 0.0 && radii.y != 0.0
  }

  function Sq(x: real): real {
    x * x
  }

  /** 1 / r**2: every `/ radius ** 2` of the source is a multiplication by this weight. */
  function Weight(r: real): (w: real)
    requires r != 0.0
    ensures 0.0 < w && w * (r * r) == 1.0
  {
    1.0 / (r * r)
  }

  /** The quadratic form the tests use, of a point relative to the origin. */
  function Form(radii: Vec, q: Vec): real
    requires ProperRadii(radii)
  {
    Sq(q.x) * Weight(radii.x) + Sq(q.y) * Weight(radii.y)
  }

  /** `get_centroid`: the centre. */
  function Centroid(center: Vec): Vec {
    center
  }

  /** `is_point_inside`: the point relative to the centre has form at most 1 (the boundary counts). */
  predicate IsPointInside(center: Vec, radii: Vec, p: Vec)
    requires ProperRadii(radii)
  {
    Form(radii, Sub(p, center)) <= 1.0
  }

  /** The centre and the ends of both axes are inside. */
  lemma CentreAndAxisEndsInside(center: Vec, radii: Vec)
    requires ProperRadii(radii)
    ensures IsPointInside(center, radii, Centroid(center))
    ensures IsPointInside(center, radii, Vec(center.x + radii.x, center.y))
    ensures IsPointInside(center, radii, Vec(center.x, center.y + radii.y))
  {
    assert Sub(Vec(center.x + radii.x, center.y), center) == Vec(radii.x, 0.0);
    assert Sub(Vec(center.x, center.y + radii.y), center) == Vec(0.0, radii.y);
    assert Sub(center, center) == Vec(0.0, 0.0);
  }

  /** The point p0 + t (p1 - p0) of the line through p0 and p1. */
  function LinePoint(p0: Vec, p1: Vec, t: real): Vec {
    Vec(p0.x + t * (p1.x - p0.x), p0.y + t * (p1.y - p0.y))
  }

  /** The coefficients A, B, C of `is_line_inside`, formed from p0 and p1 as given. */
  datatype Quadratic = Quadratic(a: real, b: real, c: real)

  function Coefficients(radii: Vec, p0: Vec, p1: Vec): Quadratic
    requires ProperRadii(radii)
  {
    var kx, ky := Weight(radii.x), Weight(radii.y);
    Quadratic(
      Sq(p1.x - p0.x) * kx + Sq(p1.y - p0.y) * ky,
      2.0 * p0.x * (p1.x - p0.x) * kx + 2.0 * p0.y * (p1.y - p0.y) * ky,
      Sq(p0.x) * kx + Sq(p0.y) * ky - 1.0)
  }

  function Discriminant(q: Quadratic): real {
    q.b * q.b - 4.0 * q.a * q.c
  }

  /** A root (-B + sign * sqrt(D)) / 2A; only taken when A is not zero. */
  function Root(m: MathFns, q: Quadratic, sign: real): real
    requires q.a != 0.0
  {
    (-q.b + sign * m.sqrt(Discriminant(q))) / (2.0 * q.a)
  }

  /**
   * The root test of `is_line_inside` on coefficients: no real root, or a
   * zero A (p0 = p1, where numpy's 0/0 is nan and both comparisons fail),
   * gives false; otherwise some root in [0, 1].
   */
  predicate RootInUnit(m: MathFns, q: Quadratic) {
    if Discriminant(q) < 0.0 || q.a == 0.0 then false
    else
      var t1, t2 := Root(m, q, 1.0), Root(m, q, -1.0);
      (0.0 <= t1 <= 1.0) || (0.0 <= t2 <= 1.0)
  }

  /**
   * `is_line_inside` as written: an endpoint inside, or a root of the
   * quadratic formed from p0 and p1 WITHOUT subtracting the centre.
   */
  predicate IsLineInsideAsWritten(m: MathFns, center: Vec, radii: Vec, p0: Vec, p1: Vec)
    requires ProperRadii(radii)
  {
    IsPointInside(center, radii, p0) || IsPointInside(center, radii, p1)
      || RootInUnit(m, Coefficients(radii, p0, p1))
  }

  /** `is_line_inside` with the segment taken relative to the centre, as `is_point_inside` does. */
  predicate IsLineInside(m: MathFns, center: Vec, radii: Vec, p0: Vec, p1: Vec)
    requires ProperRadii(radii)
  {
    IsPointInside(center, radii, p0) || IsPointInside(center, radii, p1)
      || RootInUnit(m, Coefficients(radii, Sub(p0, center), Sub(p1, center)))
  }

  /** `is_line_outside`: at least one endpoint outside. */
  predicate IsLineOutside(center: Vec, radii: Vec, p0: Vec, p1: Vec)
    requires ProperRadii(radii)
  {
    !IsPointInside(center, radii, p0) || !IsPointInside(center, radii, p1)
  }

  /** A t^2 + B t + C is the form of the line point at t, minus one. */
  /** The quadratic's value at t. */
  function Eval(q: Quadratic, t: real): real {
    q.a * (t * t) + q.b * t + q.c
  }

  lemma QuadraticIsForm(radii: Vec, p0: Vec, p1: Vec, t: real)
    requires ProperRadii(radii)
    ensures var q := Coefficients(radii, p0, p1);
      Eval(q, t) == Form(radii, LinePoint(p0, p1, t)) - 1.0
  {
    Expansion(p0.x, p0.y, p1.x - p0.x, p1.y - p0.y, Weight(radii.x), Weight(radii.y), t);
  }

  lemma Expansion(x: real, y: real, dx: real, dy: real, kx: real, ky: real, t: real)
    ensures (dx * dx * kx + dy * dy * ky) * (t * t) + (2.0 * x * dx * kx + 2.0 * y * dy * ky) * t
        + (x * x * kx + y * y * ky - 1.0)
      == (x + t * dx) * (x + t * dx) * kx + (y + t * dy) * (y + t * dy) * ky - 1.0
  {
  }

  /** A root of a quadratic with a non-negative discriminant solves it. */
  lemma RootSolves(m: MathFns, q: Quadratic, sign: real)
    requires Lawful(m) && q.a != 0.0 && 0.0 <= Discriminant(q) && (sign == 1.0 || sign == -1.0)
    ensures Eval(q, Root(m, q, sign)) == 0.0
  {
    var r := m.sqrt(Discriminant(q));
    assert r * r == Discriminant(q);
    var t := Root(m, q, sign);
    assert 2.0 * q.a * t == -q.b + sign * r;
    CompletedSquare(q.a, q.b, q.c, t);
    assert (2.0 * q.a * t + q.b) * (2.0 * q.a * t + q.b) == r * r;
    NonzeroFactor(4.0 * q.a, q.a * (t * t) + q.b * t + q.c);
  }

  /** 4A(At^2 + Bt + C) = (2At + B)^2 - (B^2 - 4AC). */
  lemma CompletedSquare(a: real, b: real, c: real, t: real)
    ensures 4.0 * a * (a * (t * t) + b * t + c) == (2.0 * a * t + b) * (2.0 * a * t + b) - (b * b - 4.0 * a * c)
  {
  }

  lemma NonzeroFactor(k: real, x: real)
    requires k != 0.0 && k * x == 0.0
    ensures x == 0.0
  {
  }

  /** With a negative discriminant no point of the line has form 1. */
  lemma NoRootWhenNegative(q: Quadratic, t: real)
    requires Discriminant(q) < 0.0
    ensures Eval(q, t) != 0.0
  {
    CompletedSquare(q.a, q.b, q.c, t);
    SquareNonnegative(2.0 * q.a * t + q.b);
  }

  /**
   * When the (corrected) test reports a segment with both ends outside, some
   * point of the segment lies on the ellipse's boundary.
   */
  lemma LineInsideMeetsBoundary(m: MathFns, center: Vec, radii: Vec, p0: Vec, p1: Vec)
    requires Lawful(m) && ProperRadii(radii)
    requires !IsPointInside(center, radii, p0) && !IsPointInside(center, radii, p1)
    requires IsLineInside(m, center, radii, p0, p1)
    ensures exists t :: 0.0 <= t <= 1.0 && Form(radii, Sub(LinePoint(p0, p1, t), center)) == 1.0
  {
    var a, b := Sub(p0, center), Sub(p1, center);
    var q := Coefficients(radii, a, b);
    assert RootInUnit(m, q);
    var sign := if 0.0 <= Root(m, q, 1.0) <= 1.0 then 1.0 else -1.0;
    var t := Root(m, q, sign);
    RootOnBoundary(m, center, radii, p0, p1, sign);
    assert 0.0 <= t <= 1.0;
  }

  lemma RootOnBoundary(m: MathFns, center: Vec, radii: Vec, p0: Vec, p1: Vec, sign: real)
    requires Lawful(m) && ProperRadii(radii) && (sign == 1.0 || sign == -1.0)
    requires var q := Coefficients(radii, Sub(p0, center), Sub(p1, center));
      q.a != 0.0 && 0.0 <= Discriminant(q)
    ensures var q := Coefficients(radii, Sub(p0, center), Sub(p1, center));
      Form(radii, Sub(LinePoint(p0, p1, Root(m, q, sign)), center)) == 1.0
  {
    var a, b := Sub(p0, center), Sub(p1, center);
    var q := Coefficients(radii, a, b);
    var t := Root(m, q, sign);
    RootSolves(m, q, sign);
    QuadraticIsForm(radii, a, b, t);
    assert Sub(LinePoint(p0, p1, t), center) == LinePoint(a, b, t);
  }

  /** With a negative discriminant the line misses the boundary everywhere, so the (corrected) test is false for outside endpoints. */
  lemma LineMissesBoundary(m: MathFns, center: Vec, radii: Vec, p0: Vec, p1: Vec, t: real)
    requires ProperRadii(radii)
    requires Discriminant(Coefficients(radii, Sub(p0, center), Sub(p1, center))) < 0.0
    ensures Form(radii, Sub(LinePoint(p0, p1, t), center)) != 1.0
    ensures !IsPointInside(center, radii, p0) && !IsPointInside(center, radii, p1) ==> !IsLineInside(m, center, radii, p0, p1)
  {
    var a, b := Sub(p0, center), Sub(p1, center);
    NoRootWhenNegative(Coefficients(radii, a, b), t);
    QuadraticIsForm(radii, a, b, t);
    assert Sub(LinePoint(p0, p1, t), center) == LinePoint(a, b, t);
  }

  /**
   * The source's test ignores the centre: the vertical segment x = 4.5 from
   * y = -2 to y = 2 passes through (4.5, 0), inside the unit circle about
   * (5, 0), while both its ends are outside; the source's test reports it
   * not inside, the corrected test reports it inside.
   */
  lemma OffCentreSegmentMissed(m: MathFns)
    requires Lawful(m)
    ensures var center, radii, p0, p1 := Vec(5.0, 0.0), Vec(1.0, 1.0), Vec(4.5, -2.0), Vec(4.5, 2.0);
      && !IsPointInside(center, radii, p0) && !IsPointInside(center, radii, p1)
      && LinePoint(p0, p1, 0.5) == Vec(4.5, 0.0) && IsPointInside(center, radii, Vec(4.5, 0.0))
      && !IsLineInsideAsWritten(m, center, radii, p0, p1)
      && IsLineInside(m, center, radii, p0, p1)
  {
    OffCentreEnds();
    OffCentreMidpoint();
    OffCentreAsWrittenMisses(m);
    OffCentreCorrectedFinds(m);
  }

  lemma OffCentreEnds()
    ensures !IsPointInside(Vec(5.0, 0.0), Vec(1.0, 1.0), Vec(4.5, -2.0))
    ensures !IsPointInside(Vec(5.0, 0.0), Vec(1.0, 1.0), Vec(4.5, 2.0))
  {
    assert Sub(Vec(4.5, -2.0), Vec(5.0, 0.0)) == Vec(-0.5, -2.0);
    assert Sub(Vec(4.5, 2.0), Vec(5.0, 0.0)) == Vec(-0.5, 2.0);
    UnitForm(Vec(-0.5, -2.0));
    UnitForm(Vec(-0.5, 2.0));
  }

  lemma OffCentreMidpoint()
    ensures LinePoint(Vec(4.5, -2.0), Vec(4.5, 2.0), 0.5) == Vec(4.5, 0.0)
    ensures IsPointInside(Vec(5.0, 0.0), Vec(1.0, 1.0), Vec(4.5, 0.0))
  {
    assert Sub(Vec(4.5, 0.0), Vec(5.0, 0.0)) == Vec(-0.5, 0.0);
    UnitForm(Vec(-0.5, 0.0));
  }

  lemma OffCentreAsWrittenMisses(m: MathFns)
    ensures !RootInUnit(m, Coefficients(Vec(1.0, 1.0), Vec(4.5, -2.0), Vec(4.5, 2.0)))
  {
    var q := Coefficients(Vec(1.0, 1.0), Vec(4.5, -2.0), Vec(4.5, 2.0));
    assert q == Quadratic(16.0, -16.0, 23.25) by {
      assert Weight(1.0) == 1.0;
    }
    assert Discriminant(q) < 0.0;
  }

  lemma OffCentreCorrectedFinds(m: MathFns)
    requires Lawful(m)
    ensures RootInUnit(m, Coefficients(Vec(1.0, 1.0), Sub(Vec(4.5, -2.0), Vec(5.0, 0.0)), Sub(Vec(4.5, 2.0), Vec(5.0, 0.0))))
  {
    assert Sub(Vec(4.5, -2.0), Vec(5.0, 0.0)) == Vec(-0.5, -2.0);
    assert Sub(Vec(4.5, 2.0), Vec(5.0, 0.0)) == Vec(-0.5, 2.0);
    OffCentreCorrectedCoefficients();
    OffCentreRoot(m, Quadratic(16.0, -16.0, 3.25));
  }

  lemma OffCentreCorrectedCoefficients()
    ensures Coefficients(Vec(1.0, 1.0), Vec(-0.5, -2.0), Vec(-0.5, 2.0)) == Quadratic(16.0, -16.0, 3.25)
  {
    assert Weight(1.0) == 1.0;
  }

  /** For the unit circle the form is the squared length. */
  lemma UnitForm(q: Vec)
    ensures Form(Vec(1.0, 1.0), q) == q.x * q.x + q.y * q.y
  {
    assert Weight(1.0) == 1.0;
  }

  lemma OffCentreRoot(m: MathFns, q: Quadratic)
    requires Lawful(m) && q == Quadratic(16.0, -16.0, 3.25)
    ensures RootInUnit(m, q)
  {
    assert Discriminant(q) == 48.0;
    var r := m.sqrt(48.0);
    assert 0.0 <= r && r * r == 48.0;
    if 16.0 < r {
      SquareGrows(16.0, r);
    }
    assert Root(m, q, 1.0) == (16.0 + r) / 32.0;
  }

  /** Not the negation of `is_line_inside`: a segment from the centre to a far point is both. */
  lemma OutsideIsNotNegation(m: MathFns, center: Vec, radii: Vec)
    requires ProperRadii(radii)
    ensures var far := Vec(center.x + 2.0 * radii.x, center.y);
      IsLineInside(m, center, radii, center, far) && IsLineOutside(center, radii, center, far)
  {
    var far := Vec(center.x + 2.0 * radii.x, center.y);
    assert Sub(far, center) == Vec(2.0 * radii.x, 0.0);
    assert Sub(center, center) == Vec(0.0, 0.0);
    var w := Weight(radii.x);
    assert Sq(2.0 * radii.x) * w == 4.0 * (w * (radii.x * radii.x));
  }

  /** When `is_line_outside` is false both endpoints are inside, so `is_line_inside` is true. */
  lemma NotOutsideIsInside(m: MathFns, center: Vec, radii: Vec, p0: Vec, p1: Vec)
    requires ProperRadii(radii) && !IsLineOutside(center, radii, p0, p1)
    ensures IsLineInside(m, center, radii, p0, p1) && IsLineInsideAsWritten(m, center, radii, p0, p1)
  {
  }

  // ---------------------------------------------------------------------
  // `_compute_points`

  /** The product under Ramanujan's square root; `math.sqrt` raises when it is negative. */
  function RamanujanProduct(radii: Vec): real {
    (3.0 * radii.x + radii.y) * (radii.x + 3.0 * radii.y)
  }

  /** Ramanujan's approximation of the perimeter, the source's `cirumference`. */
  function Circumference(m: MathFns, radii: Vec): real {
    m.pi * (3.0 * (radii.x + radii.y) - m.sqrt(RamanujanProduct(radii)))
  }

  /** Sample i of n: the centre plus the radii scaled by the cosine and the sine of its angle. */
  function EllipsePoint(m: MathFns, center: Vec, radii: Vec, i: nat, n: nat): Vec
    requires 0 < n
  {
    var a := Angle(m, i, n);
    Vec(center.x + radii.x * m.cos(a), center.y + radii.y * m.sin(a))
  }

  function EllipsePoints(m: MathFns, center: Vec, radii: Vec, n: nat): (r: seq<Vec>)
    ensures |r| == n
  {
    seq(n, i requires 0 <= i < n => EllipsePoint(m, center, radii, i, n))
  }

  /** The number of samples: the circumference over the spacing, rounded, and no samples when negative. */
  function SampleCount(m: MathFns, radii: Vec, density: real): nat
    requires density != 0.0
  {
    var k := Round(Circumference(m, radii) / Spacing(density));
    if k < 0 then 0 else k
  }

  /**
   * The lists the loop builds from n points: sample j has parameter t, the
   * length of the chord path through samples 0..j over the circumference,
   * and the gradient's colour at t.
   */
  function Sampled(m: MathFns, pts: seq<Vec>, c: real, colorAt: real -> Color): Samples
    requires |pts| == 0 || c != 0.0
  {
    var ts := seq(|pts|, j requires 0 <= j < |pts| => PathLength(m, pts[..j + 1]) / c);
    Samples(pts, seq(|pts|, j requires 0 <= j < |pts| => colorAt(ts[j])), ts)
  }

  /**
   * A positive count means a circumference of the density's sign, so `t`
   * never divides by zero.
   */
  lemma CountNeedsCircumference(m: MathFns, radii: Vec, density: real)
    requires density != 0.0 && 0 < SampleCount(m, radii, density)
    ensures Circumference(m, radii) != 0.0
    ensures 0.0 < density ==> 0.0 < Circumference(m, radii)
    ensures density < 0.0 ==> Circumference(m, radii) < 0.0
  {
    var c, sp := Circumference(m, radii), Spacing(density);
    assert 0.5 <= c / sp;
  }

  /**
   * `_compute_points`: the samples, or the `math.sqrt` domain error (line
   * 31), or ZeroDivisionError for a density of 0 (line 33).
   */
  function ComputePoints(m: MathFns, center: Vec, radii: Vec, density: real, colorAt: real -> Color): Result<Samples, Error>
  {
    if RamanujanProduct(radii) < 0.0 then Err(MathDomainError)
    else if density == 0.0 then Err(ZeroDivisionError)
    else
      var n := SampleCount(m, radii, density);
      if n == 0 then Ok(Samples([], [], []))
      else
        CountNeedsCircumference(m, radii, density);
        Ok(Sampled(m, EllipsePoints(m, center, radii, n), Circumference(m, radii), colorAt))
  }

  /**
   * `_compute_points` raises exactly when the product under the root is
   * negative or the density is 0; otherwise the samples are the n points of
   * the angle walk.
   */
  lemma ComputePointsSpec(m: MathFns, center: Vec, radii: Vec, density: real, colorAt: real -> Color)
    ensures var r := ComputePoints(m, center, radii, density, colorAt);
      && (r.Err? <==> RamanujanProduct(radii) < 0.0 || density == 0.0)
      && (r.Err? ==> r.error == if RamanujanProduct(radii) < 0.0 then MathDomainError else ZeroDivisionError)
      && (r.Ok? ==> Aligned(r.value) && |r.value.points| == SampleCount(m, radii, density))
      && (r.Ok? ==> forall i :: 0 <= i < |r.value.points| ==>
            r.value.points[i] == EllipsePoint(m, center, radii, i, |r.value.points|))
      && (r.Ok? && 0 < |r.value.ts| ==> r.value.ts[0] == 0.0)
  {
  }

  /** Every sample lies on the ellipse. */
  lemma SamplesOnEllipse(m: MathFns, center: Vec, radii: Vec, density: real, colorAt: real -> Color)
    requires Lawful(m) && ProperRadii(radii)
    ensures var r := ComputePoints(m, center, radii, density, colorAt);
      r.Ok? ==> forall i :: 0 <= i < |r.value.points| ==> Form(radii, Sub(r.value.points[i], center)) == 1.0
  {
    var r := ComputePoints(m, center, radii, density, colorAt);
    if r.Ok? {
      forall i | 0 <= i < |r.value.points|
        ensures Form(radii, Sub(r.value.points[i], center)) == 1.0
      {
        PointOnEllipse(m, center, radii, i, |r.value.points|);
      }
    }
  }

  lemma PointOnEllipse(m: MathFns, center: Vec, radii: Vec, i: nat, n: nat)
    requires Lawful(m) && ProperRadii(radii) && 0 < n
    ensures Form(radii, Sub(EllipsePoint(m, center, radii, i, n), center)) == 1.0
  {
    var a := Angle(m, i, n);
    var c, s := m.cos(a), m.sin(a);
    assert Sub(EllipsePoint(m, center, radii, i, n), center) == Vec(radii.x * c, radii.y * s);
    var wx, wy := Weight(radii.x), Weight(radii.y);
    assert Sq(radii.x * c) * wx == c * c * (wx * (radii.x * radii.x));
    assert Sq(radii.y * s) * wy == s * s * (wy * (radii.y * radii.y));
  }

  /** The first sample is the end of the positive x radius. */
  lemma FirstSample(m: MathFns, center: Vec, radii: Vec, density: real, colorAt: real -> Color)
    requires Lawful(m)
    ensures var r := ComputePoints(m, center, radii, density, colorAt);
      r.Ok? && 0 < |r.value.points| ==> r.value.points[0] == Vec(center.x + radii.x, center.y)
  {
    var r := ComputePoints(m, center, radii, density, colorAt);
    if r.Ok? && 0 < |r.value.points| {
      assert Angle(m, 0, |r.value.points|) == 0.0;
    }
  }

  /**
   * The parameters start at 0, never decrease and are never negative, for a
   * positive density (a negative one samples only radii whose circumference
   * is negative, and then the parameters fall).
   */
  lemma ParametersIncrease(m: MathFns, center: Vec, radii: Vec, density: real, colorAt: real -> Color)
    requires Lawful(m) && 0.0 < density
    ensures var r := ComputePoints(m, center, radii, density, colorAt);
      r.Ok? ==> forall j :: 0 <= j < |r.value.ts| ==> 0.0 <= r.value.ts[j]
    ensures var r := ComputePoints(m, center, radii, density, colorAt);
      r.Ok? ==> forall j :: 0 <= j < |r.value.ts| - 1 ==> r.value.ts[j] <= r.value.ts[j + 1]
  {
    var n := SampleCount(m, radii, density);
    if RamanujanProduct(radii) >= 0.0 && n != 0 {
      CountNeedsCircumference(m, radii, density);
      SampledParameters(m, EllipsePoints(m, center, radii, n), Circumference(m, radii), colorAt);
    }
  }

  /** Over any points and a positive circumference the parameters are non-negative and non-decreasing. */
  lemma SampledParameters(m: MathFns, pts: seq<Vec>, c: real, colorAt: real -> Color)
    requires Lawful(m) && 0.0 < c
    ensures var ts := Sampled(m, pts, c, colorAt).ts;
      && (forall j :: 0 <= j < |ts| ==> 0.0 <= ts[j])
      && (forall j :: 0 <= j < |ts| - 1 ==> ts[j] <= ts[j + 1])
  {
    var ts := Sampled(m, pts, c, colorAt).ts;
    forall j | 0 <= j < |ts|
      ensures 0.0 <= ts[j]
    {
      PathLengthNonnegative(m, pts[..j + 1]);
      NonnegativeQuotient(PathLength(m, pts[..j + 1]), c);
    }
    forall j | 0 <= j < |ts| - 1
      ensures ts[j] <= ts[j + 1]
    {
      ParameterStep(m, pts, c, colorAt, j);
    }
  }

  /** Sample j + 1 has a parameter at least that of sample j. */
  lemma ParameterStep(m: MathFns, pts: seq<Vec>, c: real, colorAt: real -> Color, j: nat)
    requires Lawful(m) && 0.0 < c && j + 2 <= |pts|
    ensures var ts := Sampled(m, pts, c, colorAt).ts; ts[j] <= ts[j + 1]
  {
    PrefixPathGrows(m, pts, j);
    MonotoneQuotient(PathLength(m, pts[..j + 1]), PathLength(m, pts[..j + 2]), c);
  }

  /** One more sample lengthens the chord path. */
  lemma PrefixPathGrows(m: MathFns, pts: seq<Vec>, j: nat)
    requires Lawful(m) && j + 2 <= |pts|
    ensures PathLength(m, pts[..j + 1]) <= PathLength(m, pts[..j + 2])
  {
    assert pts[..j + 2][..j + 1] == pts[..j + 1];
    DistNonnegative(m, pts[j], pts[j + 1]);
  }

  lemma NonnegativeQuotient(a: real, c: real)
    requires 0.0 <= a && 0.0 < c
    ensures 0.0 <= a / c
  {
  }

  lemma MonotoneQuotient(a: real, b: real, c: real)
    requires a <= b && 0.0 < c
    ensures a / c <= b / c
  {
  }

  /** For a circle of radius r the approximation is exact: 2 pi r. */
  lemma CirclePerimeter(m: MathFns, r: real)
    requires Lawful(m) && 0.0 <= r
    ensures Circumference(m, Vec(r, r)) == 2.0 * m.pi * r
  {
    assert RamanujanProduct(Vec(r, r)) == (4.0 * r) * (4.0 * r);
    SqrtOfSquare(m, 4.0 * r);
  }

  lemma SqrtOfSquare(m: MathFns, v: real)
    requires Lawful(m) && 0.0 <= v
    ensures m.sqrt(v * v) == v
  {
    SquareNonnegative(v);
    var s := m.sqrt(v * v);
    assert 0.0 <= s && s * s == v * v;
    if s < v {
      SquareGrows(s, v);
    } else if v < s {
      SquareGrows(v, s);
    }
  }

  /** Positive radii give a positive circumference and a product `math.sqrt` accepts. */
  lemma CircumferencePositive(m: MathFns, radii: Vec)
    requires Lawful(m) && 0.0 < radii.x && 0.0 < radii.y
    ensures 0.0 <= RamanujanProduct(radii) && 0.0 < Circumference(m, radii)
  {
    var p := RamanujanProduct(radii);
    MulPositive(3.0 * radii.x + radii.y, radii.x + 3.0 * radii.y);
    var k := 3.0 * (radii.x + radii.y);
    MulPositive(radii.x, radii.y);
    SquareNonnegative(radii.x);
    SquareNonnegative(radii.y);
    assert k * k - p == 6.0 * (radii.x * radii.x) + 8.0 * (radii.x * radii.y) + 6.0 * (radii.y * radii.y);
    var s := m.sqrt(p);
    assert 0.0 <= s && s * s == p;
    if k < s {
      SquareGrows(k, s);
    }
    assert s < k;
    MulPositive(m.pi, k - s);
  }

  /**
   * A negative density gives a negative spacing, so with positive radii the
   * count rounds to 0 or less and `range(n_points)` samples nothing.
   */
  lemma NegativeDensityNoSamples(m: MathFns, center: Vec, radii: Vec, density: real, colorAt: real -> Color)
    requires Lawful(m) && density < 0.0 && 0.0 < radii.x && 0.0 < radii.y
    ensures ComputePoints(m, center, radii, density, colorAt) == Ok(Samples([], [], []))
  {
    CircumferencePositive(m, radii);
    var c, sp := Circumference(m, radii), Spacing(density);
    assert c / sp * sp == c;
    assert c / sp < 0.0;
  }

  /** `_compute_points` (lines 30-61), proved to build `ComputePoints`. */
  method SampleEllipse(m: MathFns, center: Vec, radii: Vec, density: real, colorAt: real -> Color)
    returns (r: Result<Samples, Error>)
    ensures r == ComputePoints(m, center, radii, density, colorAt)
  {
    if RamanujanProduct(radii) < 0.0 {
      return Err(MathDomainError);
    }
    if density == 0.0 {
      return Err(ZeroDivisionError);
    }
    var c := Circumference(m, radii);
    var n := SampleCount(m, radii, density);
    if n == 0 {
      return Ok(Samples([], [], []));
    }
    CountNeedsCircumference(m, radii, density);
    var points, colors, ts := SampleLoop(m, center, radii, c, n, colorAt);
    r := Ok(Samples(points, colors, ts));
  }

  /** The loop over `range(n_points)` (lines 43-59). */
  method SampleLoop(m: MathFns, center: Vec, radii: Vec, c: real, n: nat, colorAt: real -> Color)
    returns (points: seq<Vec>, colors: seq<Color>, ts: seq<real>)
    requires 0 < n && c != 0.0
    ensures Samples(points, colors, ts) == Sampled(m, EllipsePoints(m, center, radii, n), c, colorAt)
  {
    ghost var all := EllipsePoints(m, center, radii, n);
    points, colors, ts := [], [], [];
    var acc := 0.0;
    var previous: Option<Vec> := None;
    var i := 0;
    while i < n
      invariant 0 <= i <= n
      invariant Progress(m, all, c, colorAt, i, points, colors, ts, acc, previous)
    {
      var q := EllipsePoint(m, center, radii, i, n);
      points, colors, ts, acc, previous := SampleStep(m, all, c, colorAt, i, q, points, colors, ts, acc, previous);
      i := i + 1;
    }
    assert points == all;
    SampledPointwise(m, points, colors, ts, c, colorAt);
  }

  /** The loop state after i samples of `all`. */
  ghost predicate Progress(m: MathFns, all: seq<Vec>, c: real, colorAt: real -> Color, i: nat,
                           points: seq<Vec>, colors: seq<Color>, ts: seq<real>, acc: real, previous: Option<Vec>)
  {
    && c != 0.0 && i <= |all|
    && points == all[..i] && |colors| == |ts| == i
    && acc == PathLength(m, all[..i])
    && previous == (if i == 0 then None else Some(all[i - 1]))
    && forall j :: 0 <= j < i ==> ts[j] == PathLength(m, all[..j + 1]) / c && colors[j] == colorAt(ts[j])
  }

  /** One iteration: add the chord from the previous sample, then emit sample i at its parameter. */
  method SampleStep(m: MathFns, ghost all: seq<Vec>, c: real, colorAt: real -> Color, i: nat, q: Vec,
                    points: seq<Vec>, colors: seq<Color>, ts: seq<real>, acc: real, previous: Option<Vec>)
    returns (points': seq<Vec>, colors': seq<Color>, ts': seq<real>, acc': real, previous': Option<Vec>)
    requires i < |all| && q == all[i]
    requires Progress(m, all, c, colorAt, i, points, colors, ts, acc, previous)
    ensures Progress(m, all, c, colorAt, i + 1, points', colors', ts', acc', previous')
  {
    acc' := acc;
    if previous.Some? {
      acc' := acc + Dist(m, previous.value, q);
    }
    assert all[..i + 1][..i] == all[..i];
    var t := acc' / c;
    previous' := Some(q);
    points', colors', ts' := points + [q], colors + [colorAt(t)], ts + [t];
  }

  /** Lists that agree with `Sampled` element by element are `Sampled`. */
  lemma SampledPointwise(m: MathFns, pts: seq<Vec>, colors: seq<Color>, ts: seq<real>, c: real, colorAt: real -> Color)
    requires c != 0.0 && |colors| == |ts| == |pts|
    requires forall j :: 0 <= j < |pts| ==> ts[j] == PathLength(m, pts[..j + 1]) / c && colors[j] == colorAt(ts[j])
    ensures Samples(pts, colors, ts) == Sampled(m, pts, c, colorAt)
  {
  }
}
