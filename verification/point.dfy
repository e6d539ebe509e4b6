/**
 * laser/shapes/point.py: a point is the open polyline [point, point] with
 * its own containment tests.
 */
module Points {
  import opened Geometry
  import Lines

  /** The vertex list handed to the polyline constructor (open). */
  function Vertices(point: Vec): (r: seq<Vec>)
    ensures |r| == 2 && r[0] == point && r[1] == point
  {
    [point, point]
  }

  /** `get_centroid`: the point itself. */
  function Centroid(point: Vec): Vec {
    Vertices(point)[0]
  }

  /** `is_point_inside`: exact equality. */
  predicate IsPointInside(point: Vec, p: Vec) {
    point == p
  }

  /** `is_line_inside`: the point is exactly collinear with p0 -> p1 and inside its bounding box. */
  predicate IsLineInside(point: Vec, p0: Vec, p1: Vec) {
    && (point.y - p0.y) * (p1.x - p0.x) == (p1.y - p0.y) * (point.x - p0.x)
    && OnSegment(p0, point, p1)
  }

  /** `is_line_outside`. */
  predicate IsLineOutside(point: Vec, p0: Vec, p1: Vec) {
    !IsLineInside(point, p0, p1)
  }

  /** The point is inside itself, and nothing else is. */
  lemma CentroidInside(point: Vec, p: Vec)
    ensures IsPointInside(point, Centroid(point))
    ensures IsPointInside(point, p) <==> p == Centroid(point)
  {
  }

  /** A segment starting or ending at the point contains it. */
  lemma SegmentThroughPoint(point: Vec, q: Vec)
    ensures IsLineInside(point, point, q) && IsLineInside(point, q, point)
  {
  }

  /** For a degenerate segment p0 = p1 the test is equality with p0. */
  lemma DegenerateSegment(point: Vec, p0: Vec)
    ensures IsLineInside(point, p0, p0) <==> point == p0
  {
  }

  /** A segment contains the point exactly when the point lies on the Line shape with those endpoints. */
  lemma SegmentContainsPointIsLineTest(point: Vec, p0: Vec, p1: Vec)
    ensures IsLineInside(point, p0, p1) == Lines.IsPointInside(p0, p1, point)
    ensures IsLineOutside(point, p0, p1) == !Lines.IsPointInside(p0, p1, point)
  {
  }
}
