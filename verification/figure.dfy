/**
 * The geometry behind each subclass of laser/shapes/shape.py. Every shape
 * but the ellipse is a polyline (Rectangle, Star, RegularNGon and Triangle
 * closed; Line and Point open); Triangle, Line and Point override the
 * containment tests, and Ellipse samples its own outline. A figure is fixed
 * at construction, so it is a value.
 */
module Figures {
  import opened Wrappers
  import opened Errors
  import opened Numeric
  import opened Geometry
  import opened Colors
  import Polylines
  import Triangles
  import Lines
  import Points
  import Ellipses

  datatype Figure =
    | PolylineFigure(points: seq<Vec>, closed: bool)   // Polyline, Rectangle, Star, RegularNGon
    | TriangleFigure(a: Vec, b: Vec, c: Vec)
    | LineFigure(start: Vec, end: Vec)
    | PointFigure(point: Vec)
    | EllipseFigure(center: Vec, radii: Vec)

  /**
   * A figure its constructor accepts and whose tests are defined: a closed
   * polyline has a vertex, a triangle is not collinear, an ellipse has
   * non-zero radii.
   */
  predicate WellFormed(f: Figure) {
    match f
    case PolylineFigure(pts, closed) => Polylines.Constructible(pts, closed)
    case TriangleFigure(a, b, c) => Triangles.Denominator(a, b, c) != 0.0
    case EllipseFigure(_, radii) => Ellipses.ProperRadii(radii)
    case _ => true
  }

  /** The vertex list a polyline-based figure hands to the polyline constructor. */
  function Outline(f: Figure): seq<Vec>
    requires !f.EllipseFigure?
  {
    match f
    case PolylineFigure(pts, _) => pts
    case TriangleFigure(a, b, c) => Triangles.Vertices(a, b, c)
    case LineFigure(start, end) => Lines.Vertices(start, end)
    case PointFigure(p) => Points.Vertices(p)
  }

  function IsClosed(f: Figure): bool {
    (f.PolylineFigure? && f.closed) || f.TriangleFigure?
  }

  lemma OutlineConstructible(f: Figure)
    requires WellFormed(f) && !f.EllipseFigure?
    ensures Polylines.Constructible(Outline(f), IsClosed(f))
  {
  }

  /**
   * `_compute_points` of the figure. An unset density is None times the
   * resolution, a TypeError; the ellipse takes its square root before it
   * reaches the density, so a negative root argument wins.
   */
  function ComputePoints(m: MathFns, f: Figure, density: Option<real>, colorAt: real -> Color): Result<Polylines.Samples, Error>
    requires WellFormed(f)
  {
    match f
    case EllipseFigure(center, radii) =>
      if Ellipses.RamanujanProduct(radii) < 0.0 then Err(MathDomainError)
      else if density.None? then Err(TypeError)
      else Ellipses.ComputePoints(m, center, radii, density.value, colorAt)
    case _ =>
      if density.None? then Err(TypeError)
      else
        OutlineConstructible(f);
        Polylines.ComputePoints(m, Outline(f), IsClosed(f), density.value, colorAt)
  }

  /**
   * The samples are three aligned lists; the only errors are the unset
   * density, the ellipse's square-root domain error, the density of 0 and
   * the empty open polyline's IndexError, raised in that order.
   */
  lemma ComputePointsSpec(m: MathFns, f: Figure, density: Option<real>, colorAt: real -> Color)
    requires WellFormed(f)
    ensures var r := ComputePoints(m, f, density, colorAt);
      && (r.Ok? ==> Polylines.Aligned(r.value))
      && (r.Err? <==>
        || density.None?
        || density == Some(0.0)
        || (f.EllipseFigure? && Ellipses.RamanujanProduct(f.radii) < 0.0)
        || (f.PolylineFigure? && |f.points| == 0))
      && (r.Err? && f.EllipseFigure? && Ellipses.RamanujanProduct(f.radii) < 0.0 ==> r.error == MathDomainError)
      && (r.Err? && !(f.EllipseFigure? && Ellipses.RamanujanProduct(f.radii) < 0.0) && density.None? ==> r.error == TypeError)
      && (r.Err? && !(f.EllipseFigure? && Ellipses.RamanujanProduct(f.radii) < 0.0) && density == Some(0.0) ==> r.error == ZeroDivisionError)
      && (r.Err? && density.Some? && density.value != 0.0 && f.PolylineFigure? ==> r.error == IndexError)
  {
    if density.Some? {
      match f
      case EllipseFigure(center, radii) =>
        Ellipses.ComputePointsSpec(m, center, radii, density.value, colorAt);
      case _ =>
        OutlineConstructible(f);
        Polylines.ComputePointsSpec(m, Outline(f), IsClosed(f), density.value, colorAt);
    }
  }

  /** `_compute_points` dispatched to the subclass's sampling loop. */
  method SampleFigure(m: MathFns, f: Figure, density: Option<real>, colorAt: real -> Color)
    returns (r: Result<Polylines.Samples, Error>)
    requires WellFormed(f)
    ensures r == ComputePoints(m, f, density, colorAt)
  {
    if f.EllipseFigure? {
      if Ellipses.RamanujanProduct(f.radii) < 0.0 {
        return Err(MathDomainError);
      }
      if density.None? {
        return Err(TypeError);
      }
      r := Ellipses.SampleEllipse(m, f.center, f.radii, density.value, colorAt);
    } else {
      if density.None? {
        return Err(TypeError);
      }
      OutlineConstructible(f);
      r := Polylines.SamplePoints(m, Outline(f), IsClosed(f), density.value, colorAt);
    }
  }

  /** `is_line_inside` of the figure (the ellipse's with the segment taken relative to its centre). */
  predicate IsLineInside(m: MathFns, f: Figure, p0: Vec, p1: Vec)
    requires WellFormed(f)
  {
    match f
    case PolylineFigure(pts, closed) => Polylines.IsLineInside(pts, closed, p0, p1)
    case TriangleFigure(a, b, c) => Triangles.IsLineInside(a, b, c, p0, p1)
    case LineFigure(start, end) => Lines.IsLineInside(start, end, p0, p1)
    case PointFigure(p) => Points.IsLineInside(p, p0, p1)
    case EllipseFigure(center, radii) => Ellipses.IsLineInside(m, center, radii, p0, p1)
  }

  /** `is_line_outside` of the figure. */
  predicate IsLineOutside(f: Figure, p0: Vec, p1: Vec)
    requires WellFormed(f)
  {
    match f
    case PolylineFigure(pts, closed) => Polylines.IsLineOutside(pts, closed, p0, p1)
    case TriangleFigure(a, b, c) => Triangles.IsLineOutside(a, b, c, p0, p1)
    case LineFigure(start, end) => Lines.IsLineOutside(start, end, p0, p1)
    case PointFigure(p) => Points.IsLineOutside(p, p0, p1)
    case EllipseFigure(center, radii) => Ellipses.IsLineOutside(center, radii, p0, p1)
  }

  /**
   * Polylines, lines and points define "outside" as the negation of
   * "inside"; triangles and ellipses only test the endpoints, so a segment
   * crossing them with both ends out is both.
   */
  lemma OutsideIsNegationForPaths(m: MathFns, f: Figure, p0: Vec, p1: Vec)
    requires WellFormed(f)
    ensures f.PolylineFigure? || f.LineFigure? || f.PointFigure? ==>
      (IsLineOutside(f, p0, p1) <==> !IsLineInside(m, f, p0, p1))
    ensures f.TriangleFigure? || f.EllipseFigure? ==>
      (!IsLineOutside(f, p0, p1) ==> IsLineInside(m, f, p0, p1))
  {
    if f.EllipseFigure? && !IsLineOutside(f, p0, p1) {
      Ellipses.NotOutsideIsInside(m, f.center, f.radii, p0, p1);
    }
  }
}
