/**
 * Planar points and the exact predicates of laser/shapes/polyline.py that
 * every shape's exclusion test is built from: the orientation sign of three
 * points and the segment-segment intersection test.
 */
module Geometry {

  /** A 2D coordinate (the source's length-2 numpy arrays), copied by value. */
  datatype Vec = Vec(x: real, y: real)

  function Add(a: Vec, b: Vec): Vec { Vec(a.x + b.x, a.y + b.y) }

  function Sub(a: Vec, b: Vec): Vec { Vec(a.x - b.x, a.y - b.y) }

  function Scale(k: real, a: Vec): Vec { Vec(k * a.x, k * a.y) }

  function Dot(a: Vec, b: Vec): real { a.x * b.x + a.y * b.y }

  /** The quantity whose sign `_orientation` reports. */
  function Turn(p0: Vec, p1: Vec, p2: Vec): real {
    (p1.y - p0.y) * (p2.x - p1.x) - (p2.y - p1.y) * (p1.x - p0.x)
  }

  /** `_orientation`: 1, 0 or -1 as the turn quantity is positive, zero or negative. */
  function Orientation(p0: Vec, p1: Vec, p2: Vec): (r: int)
    ensures -1 <= r <= 1
    ensures r == 0 <==> Turn(p0, p1, p2) == 0.0
    ensures r == 1 <==> Turn(p0, p1, p2) > 0.0
  {
    var v := Turn(p0, p1, p2);
    if v > 0.0 then 1 else if v < 0.0 then -1 else 0
  }

  lemma TurnCyclic(p0: Vec, p1: Vec, p2: Vec)
    ensures Turn(p0, p1, p2) == Turn(p1, p2, p0)
  {
  }

  lemma TurnSwap(p0: Vec, p1: Vec, p2: Vec)
    ensures Turn(p1, p0, p2) == -Turn(p0, p1, p2)
  {
  }

  /** Rotating the three arguments does not change the orientation. */
  lemma OrientationCyclic(p0: Vec, p1: Vec, p2: Vec)
    ensures Orientation(p0, p1, p2) == Orientation(p1, p2, p0) == Orientation(p2, p0, p1)
  {
    TurnCyclic(p0, p1, p2);
    TurnCyclic(p1, p2, p0);
  }

  /** Exchanging two arguments negates the orientation. */
  lemma OrientationSwap(p0: Vec, p1: Vec, p2: Vec)
    ensures Orientation(p1, p0, p2) == -Orientation(p0, p1, p2)
    ensures Orientation(p0, p2, p1) == -Orientation(p0, p1, p2)
  {
    TurnSwap(p0, p1, p2);
    TurnSwap(p2, p0, p1);
    TurnCyclic(p0, p1, p2);
    TurnCyclic(p1, p2, p0);
  }

  /** A repeated point is always collinear. */
  lemma OrientationDegenerate(p: Vec, q: Vec)
    ensures Orientation(p, q, p) == 0 && Orientation(p, p, q) == 0 && Orientation(q, p, p) == 0
  {
  }

  /** The formula, not the docstring, decides: (0,0),(1,0),(1,1) is reported as -1. */
  lemma OrientationExample()
    ensures Orientation(Vec(0.0, 0.0), Vec(1.0, 0.0), Vec(1.0, 1.0)) == -1
  {
  }

  /** `_on_segment`: q lies in the bounding box of p and r (both ends included). */
  predicate OnSegment(p: Vec, q: Vec, r: Vec) {
    && (if p.x <= r.x then p.x else r.x) <= q.x <= (if p.x <= r.x then r.x else p.x)
    && (if p.y <= r.y then p.y else r.y) <= q.y <= (if p.y <= r.y then r.y else p.y)
  }

  lemma OnSegmentSymmetric(p: Vec, q: Vec, r: Vec)
    ensures OnSegment(p, q, r) == OnSegment(r, q, p)
  {
  }

  /** `_do_lines_intersect`: the general case, then the four collinear cases. */
  predicate DoLinesIntersect(p0: Vec, p1: Vec, q0: Vec, q1: Vec) {
    var o1 := Orientation(p0, p1, q0);
    var o2 := Orientation(p0, p1, q1);
    var o3 := Orientation(q0, q1, p0);
    var o4 := Orientation(q0, q1, p1);
    || (o1 != o2 && o3 != o4)
    || (o1 == 0 && OnSegment(p0, q0, p1))
    || (o2 == 0 && OnSegment(p0, q1, p1))
    || (o3 == 0 && OnSegment(q0, p0, q1))
    || (o4 == 0 && OnSegment(q0, p1, q1))
  }

  /** Exchanging the two segments does not change the answer. */
  lemma IntersectSymmetric(p0: Vec, p1: Vec, q0: Vec, q1: Vec)
    ensures DoLinesIntersect(p0, p1, q0, q1) == DoLinesIntersect(q0, q1, p0, p1)
  {
  }

  /** Reversing the first segment does not change the answer. */
  lemma IntersectReverseFirst(p0: Vec, p1: Vec, q0: Vec, q1: Vec)
    ensures DoLinesIntersect(p0, p1, q0, q1) == DoLinesIntersect(p1, p0, q0, q1)
  {
    OrientationSwap(p0, p1, q0);
    OrientationSwap(p0, p1, q1);
    OnSegmentSymmetric(p0, q0, p1);
    OnSegmentSymmetric(p0, q1, p1);
  }

  /** Reversing the second segment does not change the answer. */
  lemma IntersectReverseSecond(p0: Vec, p1: Vec, q0: Vec, q1: Vec)
    ensures DoLinesIntersect(p0, p1, q0, q1) == DoLinesIntersect(p0, p1, q1, q0)
  {
    IntersectSymmetric(p0, p1, q0, q1);
    IntersectReverseFirst(q0, q1, p0, p1);
    IntersectSymmetric(q1, q0, p0, p1);
  }

  /** Segments that share an endpoint always intersect. */
  lemma IntersectSharedEndpoint(p0: Vec, p1: Vec, q0: Vec, q1: Vec)
    requires p0 == q0 || p0 == q1 || p1 == q0 || p1 == q1
    ensures DoLinesIntersect(p0, p1, q0, q1)
  {
    OrientationDegenerate(p0, p1);
    OrientationDegenerate(p1, p0);
    if p0 == q0 {
      assert Orientation(p0, p1, q0) == 0 && OnSegment(p0, q0, p1);
    } else if p1 == q0 {
      assert Orientation(p0, p1, q0) == 0 && OnSegment(p0, q0, p1);
    } else if p0 == q1 {
      assert Orientation(p0, p1, q1) == 0 && OnSegment(p0, q1, p1);
    } else {
      assert Orientation(p0, p1, q1) == 0 && OnSegment(p0, q1, p1);
    }
  }
}
