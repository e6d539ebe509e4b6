/**
 * laser/shapes/line.py: a line is the open polyline [start, end] with its
 * own containment tests.
 */
module Lines {
  import opened Geometry
  import Polylines

  /** The vertex list handed to the polyline constructor (open). */
  function Vertices(start: Vec, end: Vec): (r: seq<Vec>)
    ensures |r| == 2 && r[0] == start && r[1] == end
  {
    [start, end]
  }

  /** `get_centroid`: the midpoint of the two endpoints. */
  function Centroid(start: Vec, end: Vec): Vec {
    Scale(0.5, Add(start, end))
  }

  /** `is_point_inside`: p is exactly collinear with the endpoints and inside their bounding box. */
  predicate IsPointInside(start: Vec, end: Vec, p: Vec) {
    && (p.y - start.y) * (end.x - start.x) == (end.y - start.y) * (p.x - start.x)
    && OnSegment(start, p, end)
  }

  /** `is_line_inside`: the segment p0 -> p1 meets the line. */
  predicate IsLineInside(start: Vec, end: Vec, p0: Vec, p1: Vec) {
    DoLinesIntersect(p0, p1, start, end)
  }

  /** `is_line_outside`. */
  predicate IsLineOutside(start: Vec, end: Vec, p0: Vec, p1: Vec) {
    !IsLineInside(start, end, p0, p1)
  }

  /** Both endpoints and the centroid lie on the line. */
  lemma EndpointsAndCentroidInside(start: Vec, end: Vec)
    ensures IsPointInside(start, end, start)
    ensures IsPointInside(start, end, end)
    ensures IsPointInside(start, end, Centroid(start, end))
  {
    var c := Centroid(start, end);
    assert c.y - start.y == 0.5 * (end.y - start.y);
    assert c.x - start.x == 0.5 * (end.x - start.x);
  }

  /** The line's own test agrees with the polyline test on its vertex list: one edge, no closing edge. */
  lemma LineInsideIsPolylineTest(start: Vec, end: Vec, p0: Vec, p1: Vec)
    ensures IsLineInside(start, end, p0, p1) == Polylines.IsLineInside(Vertices(start, end), false, p0, p1)
    ensures IsLineOutside(start, end, p0, p1) == Polylines.IsLineOutside(Vertices(start, end), false, p0, p1)
  {
    var e := Polylines.Edges(Vertices(start, end), false);
    assert e == [Polylines.Segment(start, end)];
    assert !Polylines.MeetsAny(e[1..], p0, p1);
    assert Polylines.MeetsAny(e, p0, p1) == DoLinesIntersect(p0, p1, start, end);
  }

  /** A segment through an endpoint always counts as inside, whatever its direction. */
  lemma LineThroughEndpointInside(start: Vec, end: Vec, q: Vec)
    ensures IsLineInside(start, end, start, q) && IsLineInside(start, end, q, end)
  {
    IntersectSharedEndpoint(start, q, start, end);
    IntersectSharedEndpoint(q, end, start, end);
  }
}
