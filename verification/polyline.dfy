/**
 * laser/shapes/polyline.py: the length, sampling, containment and
 * intersection logic of a polyline given by its vertices and a closed flag.
 * Triangles, lines and points are polylines with fixed vertex lists.
 */
module Polylines {
  import opened Wrappers
  import opened Numeric
  import opened Geometry
  import opened Colors
  import opened Errors
  import opened Seqs

  /** `Shape.ILDA_RESOLUTION`, the only resolution constant that exists (2^16). */
  const RESOLUTION: real := 65536.0

  /** The Euclidean distance, through the square root the source takes from `math`. */
  function Dist(m: MathFns, a: Vec, b: Vec): real {
    Norm(m, b.x - a.x, b.y - a.y)
  }

  /** The length of the vector (dx, dy). */
  function Norm(m: MathFns, dx: real, dy: real): real {
    m.sqrt(dx * dx + dy * dy)
  }

  lemma DistNonnegative(m: MathFns, a: Vec, b: Vec)
    requires Lawful(m)
    ensures 0.0 <= Dist(m, a, b)
  {
    SquareNonnegative(b.x - a.x);
    SquareNonnegative(b.y - a.y);
  }

  // ---------------------------------------------------------------------
  // `_compute_total_length`

  /** The summed length of the open path through `pts`, edge by edge from the start. */
  function PathLength(m: MathFns, pts: seq<Vec>): real {
    if |pts| <= 1 then 0.0
    else PathLength(m, pts[..|pts| - 1]) + Dist(m, pts[|pts| - 2], pts[|pts| - 1])
  }

  /** The closing edge from the last vertex back to the first. */
  function ClosingLength(m: MathFns, pts: seq<Vec>): real
    requires 1 <= |pts|
  {
    Dist(m, pts[|pts| - 1], pts[0])
  }

  /** `_compute_total_length`; a closed polyline without vertices raises IndexError. */
  function TotalLength(m: MathFns, pts: seq<Vec>, closed: bool): Result<real, Error> {
    if !closed then Ok(PathLength(m, pts))
    else if |pts| == 0 then Err(IndexError)
    else Ok(PathLength(m, pts) + ClosingLength(m, pts))
  }

  /** A polyline the constructor accepts: a closed one has at least one vertex. */
  predicate Constructible(pts: seq<Vec>, closed: bool) {
    closed ==> 1 <= |pts|
  }

  /** The stored `_total_length` of a constructed polyline. */
  function Perimeter(m: MathFns, pts: seq<Vec>, closed: bool): real
    requires Constructible(pts, closed)
  {
    TotalLength(m, pts, closed).value
  }

  /** The path length is a sum of non-negative edge lengths, so is never negative. */
  lemma {:induction false} PathLengthNonnegative(m: MathFns, pts: seq<Vec>)
    requires Lawful(m)
    ensures 0.0 <= PathLength(m, pts)
  {
    if |pts| > 1 {
      PathLengthNonnegative(m, pts[..|pts| - 1]);
      DistNonnegative(m, pts[|pts| - 2], pts[|pts| - 1]);
    }
  }

  /** The total length fails exactly for a closed empty list, and is otherwise non-negative and at least the open path. */
  lemma TotalLengthSpec(m: MathFns, pts: seq<Vec>, closed: bool)
    requires Lawful(m)
    ensures TotalLength(m, pts, closed).Err? <==> closed && |pts| == 0
    ensures TotalLength(m, pts, closed).Ok? ==>
      0.0 <= PathLength(m, pts) <= TotalLength(m, pts, closed).value
  {
    PathLengthNonnegative(m, pts);
    if closed && |pts| > 0 {
      DistNonnegative(m, pts[|pts| - 1], pts[0]);
    }
  }

  /** `_compute_total_length` as the source runs it: one accumulating pass over the edges, then the closing edge. */
  method ComputeTotalLength(m: MathFns, pts: seq<Vec>, closed: bool) returns (r: Result<real, Error>)
    ensures r == TotalLength(m, pts, closed)
  {
    var total := 0.0;
    var i := 1;
    while i < |pts|
      invariant 1 <= i <= |pts| || (|pts| == 0 && i == 1)
      invariant total == PathLength(m, pts[..if |pts| == 0 then 0 else i])
    {
      assert pts[..i + 1][..i] == pts[..i];
      total := total + Dist(m, pts[i - 1], pts[i]);
      i := i + 1;
    }
    if |pts| > 0 {
      assert pts[..i] == pts;
    }
    if closed {
      if |pts| == 0 {
        return Err(IndexError);
      }
      total := total + Dist(m, pts[|pts| - 1], pts[0]);
    }
    return Ok(total);
  }

  // ---------------------------------------------------------------------
  // `_compute_points`

  /** The three parallel lists `_compute_points` returns. */
  datatype Samples = Samples(points: seq<Vec>, colors: seq<Color>, ts: seq<real>)

  predicate Aligned(s: Samples) {
    |s.points| == |s.colors| == |s.ts|
  }

  /** The lists built so far and `accumulated_length`. */
  datatype Walk = Walk(out: Samples, acc: real)

  /**
   * The distance between emitted points: one over (density times
   * resolution). It has the sign of the density; a density of 0 raises
   * ZeroDivisionError in the source, which `ComputePoints` reports.
   */
  function Spacing(density: real): (r: real)
    requires density != 0.0
    ensures r * (density * RESOLUTION) == 1.0
    ensures 0.0 < density ==> 0.0 < r
    ensures density < 0.0 ==> r < 0.0
  {
    1.0 / (density * RESOLUTION)
  }

  /**
   * The arc parameter of a sample: accumulated over total length, and 0 when
   * the total is 0 (the guard lines 133-135 of the source apply to the
   * closing vertex only; this corrected model applies it everywhere).
   */
  function Param(acc: real, total: real): real {
    if total == 0.0 then 0.0 else acc / total
  }

  /** Append one point with its colour at parameter t (the gradient lookup `get_color`) and t. */
  function Emit(s: Samples, p: Vec, colorAt: real -> Color, t: real): Samples {
    Samples(s.points + [p], s.colors + [colorAt(t)], s.ts + [t])
  }

  /**
   * How many points an edge of length `seg` receives: round(seg / spacing)
   * when longer than spacing. A count of 0 or less runs the inner loop
   * `range(1, n + 1)` no times, so it is held here as 0.
   */
  function InsertCount(seg: real, spacing: real): (n: nat)
    requires spacing != 0.0
    ensures 0.0 < spacing && seg > spacing ==> 1 <= n
    ensures seg <= spacing ==> n == 0
    ensures spacing < 0.0 && 0.0 <= seg ==> n == 0
  {
    if seg > spacing then
      var q := Round(seg / spacing);
      if 0.0 < spacing then QuotientAboveOne(seg, spacing); q
      else QuotientNotPositive(seg, spacing); if q <= 0 then 0 else q
    else 0
  }

  lemma QuotientNotPositive(a: real, b: real)
    requires b < 0.0
    ensures 0.0 <= a ==> a / b <= 0.0
  {
    assert a / b * b == a;
  }

  lemma QuotientAboveOne(a: real, b: real)
    requires 0.0 < b < a
    ensures 1.0 < a / b
  {
    assert a / b * b == a;
  }

  /**
   * The inner loop over j = 1..count: point a + j(dx, dy), with the
   * accumulated length advanced by `step` on an open edge and by `step * j`
   * on the closing edge.
   */
  /** The j-th point inserted after a with steps (dx, dy). */
  function InsertedPoint(a: Vec, dx: real, dy: real, j: int): Vec {
    Vec(a.x + j as real * dx, a.y + j as real * dy)
  }

  /** How far the j-th inserted point advances the accumulated length (line 96, or line 125 on the closing edge). */
  function Advance(step: real, closing: bool, j: int): real {
    if closing then step * j as real else step
  }

  function Inserted(w: Walk, a: Vec, dx: real, dy: real, step: real, total: real, colorAt: real -> Color, closing: bool, count: int): (r: Walk)
    decreases count
  {
    if count <= 0 then w
    else
      var prev := Inserted(w, a, dx, dy, step, total, colorAt, closing, count - 1);
      var acc := prev.acc + Advance(step, closing, count);
      Walk(Emit(prev.out, InsertedPoint(a, dx, dy, count), colorAt, Param(acc, total)), acc)
  }

  /** The points inserted on edge a -> b, and the accumulated length after them. */
  function EdgeInserts(m: MathFns, w: Walk, a: Vec, b: Vec, spacing: real, total: real, colorAt: real -> Color, closing: bool): Walk
    requires spacing != 0.0
  {
    var n := InsertCount(Dist(m, a, b), spacing);
    if n == 0 then w
    else
      var dx := (b.x - a.x) / (n + 1) as real;
      var dy := (b.y - a.y) / (n + 1) as real;
      Inserted(w, a, dx, dy, Norm(m, dx, dy), total, colorAt, closing, n)
  }

  /**
   * One iteration of the loop over the open edges: inserted points, or the
   * whole edge length when there are none, then the vertex b.
   */
  function OpenEdge(m: MathFns, w: Walk, a: Vec, b: Vec, spacing: real, total: real, colorAt: real -> Color): Walk
    requires spacing != 0.0
  {
    var seg := Dist(m, a, b);
    var w1 := if seg > spacing then EdgeInserts(m, w, a, b, spacing, total, colorAt, false) else w.(acc := w.acc + seg);
    Walk(Emit(w1.out, b, colorAt, Param(w1.acc, total)), w1.acc)
  }

  /** The closing edge: inserted points, then always the whole edge length, then vertex 0 again. */
  function ClosingEdge(m: MathFns, w: Walk, a: Vec, b: Vec, spacing: real, total: real, colorAt: real -> Color): Walk
    requires spacing != 0.0
  {
    var w1 := EdgeInserts(m, w, a, b, spacing, total, colorAt, true);
    var acc := w1.acc + Dist(m, a, b);
    Walk(Emit(w1.out, b, colorAt, Param(acc, total)), acc)
  }

  /** The state after the first vertex and the open edges up to vertex k - 1. */
  function WalkTo(m: MathFns, pts: seq<Vec>, k: nat, spacing: real, total: real, colorAt: real -> Color): Walk
    requires 1 <= k <= |pts| && spacing != 0.0
  {
    if k == 1 then Walk(Samples([pts[0]], [colorAt(0.0)], [0.0]), 0.0)
    else OpenEdge(m, WalkTo(m, pts, k - 1, spacing, total, colorAt), pts[k - 2], pts[k - 1], spacing, total, colorAt)
  }

  /** `_compute_points` with every arc parameter guarded against a zero total length. */
  function ComputePoints(m: MathFns, pts: seq<Vec>, closed: bool, density: real, colorAt: real -> Color): Result<Samples, Error>
    requires Constructible(pts, closed)
  {
    if density == 0.0 then Err(ZeroDivisionError)
    else if |pts| == 0 then Err(IndexError)
    else
      var spacing, total := Spacing(density), Perimeter(m, pts, closed);
      var w := WalkTo(m, pts, |pts|, spacing, total, colorAt);
      if closed then Ok(ClosingEdge(m, w, pts[|pts| - 1], pts[0], spacing, total, colorAt).out)
      else Ok(w.out)
  }

  /**
   * `_compute_points` as written: line 105 divides by the total length
   * without a guard on every edge, so with two or more vertices and a zero
   * total it raises ZeroDivisionError (line 97 only runs after an edge longer
   * than the spacing, which a zero total rules out, and raises the same).
   */
  function ComputePointsAsWritten(m: MathFns, pts: seq<Vec>, closed: bool, density: real, colorAt: real -> Color): Result<Samples, Error>
    requires Constructible(pts, closed)
  {
    if 2 <= |pts| && Perimeter(m, pts, closed) == 0.0 then Err(ZeroDivisionError)
    else ComputePoints(m, pts, closed, density, colorAt)
  }

  /** Every arc parameter so far is 0 (what a zero total length yields). */
  predicate ZeroTs(s: Samples) {
    forall i :: 0 <= i < |s.ts| ==> s.ts[i] == 0.0
  }

  /** `prefix` is a prefix of `s` in all three lists. */
  predicate Extends(s: Samples, prefix: Samples) {
    && |prefix.points| <= |s.points| && s.points[..|prefix.points|] == prefix.points
    && |prefix.colors| <= |s.colors| && s.colors[..|prefix.colors|] == prefix.colors
    && |prefix.ts| <= |s.ts| && s.ts[..|prefix.ts|] == prefix.ts
  }

  lemma ExtendsTransitive(a: Samples, b: Samples, c: Samples)
    requires Extends(a, b) && Extends(b, c)
    ensures Extends(a, c)
  {
    assert a.points[..|c.points|] == a.points[..|b.points|][..|c.points|];
    assert a.colors[..|c.colors|] == a.colors[..|b.colors|][..|c.colors|];
    assert a.ts[..|c.ts|] == a.ts[..|b.ts|][..|c.ts|];
  }

  lemma EmitSpec(s: Samples, p: Vec, colorAt: real -> Color, t: real)
    ensures var r := Emit(s, p, colorAt, t);
      && Extends(r, s) && |r.points| == |s.points| + 1
      && (Aligned(s) ==> Aligned(r))
      && r.points[|s.points|] == p && r.ts[|s.ts|] == t && r.colors[|s.colors|] == colorAt(t)
      && (ZeroTs(s) && t == 0.0 ==> ZeroTs(r))
  {
    var r := Emit(s, p, colorAt, t);
    assert r.points[..|s.points|] == s.points;
    assert r.colors[..|s.colors|] == s.colors;
    assert r.ts[..|s.ts|] == s.ts;
  }

  /** The inner loop appends exactly `count` points, a + j(dx, dy) for j = 1..count, and keeps the lists aligned. */
  lemma {:induction false} InsertedSpec(w: Walk, a: Vec, dx: real, dy: real, step: real, total: real, colorAt: real -> Color, closing: bool, count: int)
    ensures var r := Inserted(w, a, dx, dy, step, total, colorAt, closing, count);
      && Extends(r.out, w.out)
      && |r.out.points| == |w.out.points| + (if count <= 0 then 0 else count)
      && (Aligned(w.out) ==> Aligned(r.out))
      && (total == 0.0 && ZeroTs(w.out) ==> ZeroTs(r.out))
      && forall k :: |w.out.points| <= k < |r.out.points| ==> r.out.points[k] == InsertedPoint(a, dx, dy, k - |w.out.points| + 1)
    decreases count
  {
    if count > 0 {
      var prev := Inserted(w, a, dx, dy, step, total, colorAt, closing, count - 1);
      InsertedSpec(w, a, dx, dy, step, total, colorAt, closing, count - 1);
      var acc := prev.acc + Advance(step, closing, count);
      var p := InsertedPoint(a, dx, dy, count);
      EmitSpec(prev.out, p, colorAt, Param(acc, total));
      var r := Inserted(w, a, dx, dy, step, total, colorAt, closing, count);
      ExtendsTransitive(r.out, prev.out, w.out);
      forall k | |w.out.points| <= k < |r.out.points|
        ensures r.out.points[k] == InsertedPoint(a, dx, dy, k - |w.out.points| + 1)
      {
        if k < |prev.out.points| {
          assert r.out.points[k] == prev.out.points[k];
        }
      }
    }
  }

  /** One open edge appends its inserted points and then vertex b. */
  lemma OpenEdgeSpec(m: MathFns, w: Walk, a: Vec, b: Vec, spacing: real, total: real, colorAt: real -> Color)
    requires spacing != 0.0
    ensures var r := OpenEdge(m, w, a, b, spacing, total, colorAt);
      && Extends(r.out, w.out)
      && |r.out.points| == |w.out.points| + InsertCount(Dist(m, a, b), spacing) + 1
      && (Aligned(w.out) ==> Aligned(r.out))
      && (total == 0.0 && ZeroTs(w.out) ==> ZeroTs(r.out))
      && r.out.points[|r.out.points| - 1] == b
  {
    EdgeInsertsSpec(m, w, a, b, spacing, total, colorAt, false);
    var seg := Dist(m, a, b);
    var w1 := if seg > spacing then EdgeInserts(m, w, a, b, spacing, total, colorAt, false) else w.(acc := w.acc + seg);
    EmitSpec(w1.out, b, colorAt, Param(w1.acc, total));
    ExtendsTransitive(OpenEdge(m, w, a, b, spacing, total, colorAt).out, w1.out, w.out);
  }

  /** The closing edge appends its inserted points and then vertex b. */
  lemma ClosingEdgeSpec(m: MathFns, w: Walk, a: Vec, b: Vec, spacing: real, total: real, colorAt: real -> Color)
    requires spacing != 0.0
    ensures var r := ClosingEdge(m, w, a, b, spacing, total, colorAt);
      && Extends(r.out, w.out)
      && |r.out.points| == |w.out.points| + InsertCount(Dist(m, a, b), spacing) + 1
      && (Aligned(w.out) ==> Aligned(r.out))
      && (total == 0.0 && ZeroTs(w.out) ==> ZeroTs(r.out))
      && r.out.points[|r.out.points| - 1] == b
  {
    EdgeInsertsSpec(m, w, a, b, spacing, total, colorAt, true);
    var w1 := EdgeInserts(m, w, a, b, spacing, total, colorAt, true);
    var acc := w1.acc + Dist(m, a, b);
    EmitSpec(w1.out, b, colorAt, Param(acc, total));
    ExtendsTransitive(ClosingEdge(m, w, a, b, spacing, total, colorAt).out, w1.out, w.out);
  }

  lemma EdgeInsertsSpec(m: MathFns, w: Walk, a: Vec, b: Vec, spacing: real, total: real, colorAt: real -> Color, closing: bool)
    requires spacing != 0.0
    ensures var r := EdgeInserts(m, w, a, b, spacing, total, colorAt, closing);
      && Extends(r.out, w.out)
      && |r.out.points| == |w.out.points| + InsertCount(Dist(m, a, b), spacing)
      && (Aligned(w.out) ==> Aligned(r.out))
      && (total == 0.0 && ZeroTs(w.out) ==> ZeroTs(r.out))
  {
    var n := InsertCount(Dist(m, a, b), spacing);
    if n != 0 {
      var dx := (b.x - a.x) / (n + 1) as real;
      var dy := (b.y - a.y) / (n + 1) as real;
      var step := Norm(m, dx, dy);
      InsertedSpec(w, a, dx, dy, step, total, colorAt, closing, n);
    } else {
      ExtendsReflexive(w.out);
    }
  }

  lemma ExtendsReflexive(s: Samples)
    ensures Extends(s, s)
  {
    assert s.points[..|s.points|] == s.points;
    assert s.colors[..|s.colors|] == s.colors;
    assert s.ts[..|s.ts|] == s.ts;
  }

  /** The number of points inserted on the open edges before vertex k - 1. */
  function InsertTotal(m: MathFns, pts: seq<Vec>, k: nat, spacing: real): nat
    requires k <= |pts| && spacing != 0.0
  {
    if k <= 1 then 0 else InsertTotal(m, pts, k - 1, spacing) + InsertCount(Dist(m, pts[k - 2], pts[k - 1]), spacing)
  }

  /** Where vertex j is emitted. */
  function VertexIndex(m: MathFns, pts: seq<Vec>, j: nat, spacing: real): nat
    requires j < |pts| && spacing != 0.0
  {
    j + InsertTotal(m, pts, j + 1, spacing)
  }

  /**
   * After vertex k - 1 the lists are aligned, start with (vertex 0, colour at
   * 0.0, 0.0), and hold k vertices plus the points inserted so far, the last
   * being vertex k - 1.
   */
  lemma {:induction false} WalkToSpec(m: MathFns, pts: seq<Vec>, k: nat, spacing: real, total: real, colorAt: real -> Color)
    requires 1 <= k <= |pts| && spacing != 0.0
    ensures var r := WalkTo(m, pts, k, spacing, total, colorAt).out;
      && Aligned(r)
      && |r.points| == k + InsertTotal(m, pts, k, spacing)
      && r.points[0] == pts[0] && r.colors[0] == colorAt(0.0) && r.ts[0] == 0.0
      && r.points[|r.points| - 1] == pts[k - 1]
      && (total == 0.0 ==> ZeroTs(r))
  {
    if k > 1 {
      var prev := WalkTo(m, pts, k - 1, spacing, total, colorAt);
      WalkToSpec(m, pts, k - 1, spacing, total, colorAt);
      OpenEdgeSpec(m, prev, pts[k - 2], pts[k - 1], spacing, total, colorAt);
      var r := WalkTo(m, pts, k, spacing, total, colorAt).out;
      assert r.points[0] == r.points[..|prev.out.points|][0];
      assert r.colors[0] == r.colors[..|prev.out.colors|][0];
      assert r.ts[0] == r.ts[..|prev.out.ts|][0];
    }
  }

  lemma WalkToLast(m: MathFns, pts: seq<Vec>, k: nat, spacing: real, total: real, colorAt: real -> Color)
    requires 1 <= k <= |pts| && spacing != 0.0
    ensures var r := WalkTo(m, pts, k, spacing, total, colorAt).out.points;
      |r| == k + InsertTotal(m, pts, k, spacing) && r[|r| - 1] == pts[k - 1]
  {
    WalkToSpec(m, pts, k, spacing, total, colorAt);
  }

  /** An open edge only appends: whatever sat at index idx stays there. */
  lemma OpenEdgeKeeps(m: MathFns, w: Walk, a: Vec, b: Vec, spacing: real, total: real, colorAt: real -> Color, idx: nat, v: Vec)
    requires spacing != 0.0 && idx < |w.out.points| && w.out.points[idx] == v
    ensures var r := OpenEdge(m, w, a, b, spacing, total, colorAt).out.points; idx < |r| && r[idx] == v
  {
    OpenEdgeSpec(m, w, a, b, spacing, total, colorAt);
    var r := OpenEdge(m, w, a, b, spacing, total, colorAt).out.points;
    assert r[..|w.out.points|][idx] == r[idx];
  }

  /** Every vertex j < k sits at its vertex index in the walk up to k. */
  lemma {:induction false} VertexAtIndex(m: MathFns, pts: seq<Vec>, j: nat, k: nat, spacing: real, total: real, colorAt: real -> Color)
    requires j < k <= |pts| && spacing != 0.0
    ensures var r := WalkTo(m, pts, k, spacing, total, colorAt).out;
      VertexIndex(m, pts, j, spacing) < |r.points| && r.points[VertexIndex(m, pts, j, spacing)] == pts[j]
    decreases k
  {
    if k == j + 1 {
      WalkToLast(m, pts, k, spacing, total, colorAt);
    } else {
      VertexAtIndex(m, pts, j, k - 1, spacing, total, colorAt);
      OpenEdgeKeeps(m, WalkTo(m, pts, k - 1, spacing, total, colorAt), pts[k - 2], pts[k - 1], spacing, total, colorAt, VertexIndex(m, pts, j, spacing), pts[j]);
    }
  }

  /** Vertices are emitted in their order: the vertex index strictly increases. */
  lemma {:induction false} VertexIndexIncreasing(m: MathFns, pts: seq<Vec>, i: nat, j: nat, spacing: real)
    requires i < j < |pts| && spacing != 0.0
    ensures VertexIndex(m, pts, i, spacing) < VertexIndex(m, pts, j, spacing)
    decreases j - i
  {
    if i + 1 < j {
      VertexIndexIncreasing(m, pts, i + 1, j, spacing);
    }
  }

  /** The number of points the edge from vertex j to vertex j + 1 receives is exactly the gap between their indices, minus one. */
  lemma VertexGap(m: MathFns, pts: seq<Vec>, j: nat, spacing: real)
    requires j + 1 < |pts| && spacing != 0.0
    ensures VertexIndex(m, pts, j + 1, spacing) == VertexIndex(m, pts, j, spacing) + InsertCount(Dist(m, pts[j], pts[j + 1]), spacing) + 1
  {
  }

  /** The number of samples `_compute_points` produces. */
  function SampleCount(m: MathFns, pts: seq<Vec>, closed: bool, spacing: real): nat
    requires 1 <= |pts| && spacing != 0.0
  {
    |pts| + InsertTotal(m, pts, |pts|, spacing)
      + (if closed then InsertCount(ClosingLength(m, pts), spacing) + 1 else 0)
  }

  /**
   * `_compute_points`: ZeroDivisionError when the density is 0 (line 74),
   * else an IndexError without vertices; otherwise three aligned lists of the stated length that start with (vertex 0, colour at
   * 0.0, 0.0), hold every vertex at its index in order, and end with the
   * last vertex (open) or vertex 0 again (closed).
   */
  lemma ComputePointsSpec(m: MathFns, pts: seq<Vec>, closed: bool, density: real, colorAt: real -> Color)
    requires Constructible(pts, closed)
    ensures var r := ComputePoints(m, pts, closed, density, colorAt);
      && (r.Err? <==> density == 0.0 || |pts| == 0)
      && (r.Err? ==> r.error == if density == 0.0 then ZeroDivisionError else IndexError)
      && (r.Ok? ==>
        && Aligned(r.value)
        && |r.value.points| == SampleCount(m, pts, closed, Spacing(density))
        && r.value.points[0] == pts[0] && r.value.colors[0] == colorAt(0.0) && r.value.ts[0] == 0.0
        && r.value.points[|r.value.points| - 1] == (if closed then pts[0] else pts[|pts| - 1])
        && (forall j :: 0 <= j < |pts| ==> VertexIndex(m, pts, j, Spacing(density)) < |r.value.points|))
  {
    if density != 0.0 && |pts| > 0 {
      var spacing, total := Spacing(density), Perimeter(m, pts, closed);
      var w := WalkTo(m, pts, |pts|, spacing, total, colorAt);
      WalkToSpec(m, pts, |pts|, spacing, total, colorAt);
      forall j | 0 <= j < |pts|
        ensures VertexIndex(m, pts, j, spacing) < |w.out.points|
      {
        VertexAtIndex(m, pts, j, |pts|, spacing, total, colorAt);
      }
      if closed {
        var c := ClosingEdge(m, w, pts[|pts| - 1], pts[0], spacing, total, colorAt);
        ClosingEdgeSpec(m, w, pts[|pts| - 1], pts[0], spacing, total, colorAt);
        assert c.out.points[0] == c.out.points[..|w.out.points|][0];
        assert c.out.colors[0] == c.out.colors[..|w.out.colors|][0];
        assert c.out.ts[0] == c.out.ts[..|w.out.ts|][0];
      }
    }
  }

  /** Every vertex j appears at its index in the result, so the vertices appear in their order. */
  lemma ComputePointsVertices(m: MathFns, pts: seq<Vec>, closed: bool, density: real, colorAt: real -> Color, j: nat)
    requires Constructible(pts, closed) && density != 0.0 && j < |pts|
    ensures var r := ComputePoints(m, pts, closed, density, colorAt);
      r.Ok? && VertexIndex(m, pts, j, Spacing(density)) < |r.value.points|
      && r.value.points[VertexIndex(m, pts, j, Spacing(density))] == pts[j]
  {
    var spacing, total := Spacing(density), Perimeter(m, pts, closed);
    var w := WalkTo(m, pts, |pts|, spacing, total, colorAt);
    VertexAtIndex(m, pts, j, |pts|, spacing, total, colorAt);
    if closed {
      var c := ClosingEdge(m, w, pts[|pts| - 1], pts[0], spacing, total, colorAt);
      ClosingEdgeSpec(m, w, pts[|pts| - 1], pts[0], spacing, total, colorAt);
      assert c.out.points[VertexIndex(m, pts, j, spacing)] == c.out.points[..|w.out.points|][VertexIndex(m, pts, j, spacing)];
    }
  }

  /** With a zero total length every arc parameter is 0 in the corrected model. */
  lemma ComputePointsZeroLength(m: MathFns, pts: seq<Vec>, closed: bool, density: real, colorAt: real -> Color)
    requires Constructible(pts, closed) && density != 0.0 && 1 <= |pts|
    requires Perimeter(m, pts, closed) == 0.0
    ensures var r := ComputePoints(m, pts, closed, density, colorAt);
      r.Ok? && forall i :: 0 <= i < |r.value.ts| ==> r.value.ts[i] == 0.0
  {
    var spacing, total := Spacing(density), Perimeter(m, pts, closed);
    var w := WalkTo(m, pts, |pts|, spacing, total, colorAt);
    WalkToSpec(m, pts, |pts|, spacing, total, colorAt);
    if closed {
      ClosingEdgeSpec(m, w, pts[|pts| - 1], pts[0], spacing, total, colorAt);
    }
  }

  /**
   * The finding at line 105: a two-vertex polyline on one point (what the
   * Point shape builds) has total length 0, so the source raises
   * ZeroDivisionError, while the corrected sampling returns both vertices
   * with parameter 0 (for any density but 0, which raises in both).
   */
  lemma RepeatedPointDividesByZero(m: MathFns, p: Vec, density: real, colorAt: real -> Color)
    requires Lawful(m) && density != 0.0
    ensures ComputePointsAsWritten(m, [p, p], false, density, colorAt) == Err(ZeroDivisionError)
    ensures var r := ComputePoints(m, [p, p], false, density, colorAt);
      r.Ok? && r.value.points == [p, p] && r.value.ts == [0.0, 0.0]
  {
    assert Dist(m, p, p) == 0.0;
    assert PathLength(m, [p, p]) == PathLength(m, [p]) + Dist(m, p, p);
    assert Perimeter(m, [p, p], false) == 0.0;
    ComputePointsSpec(m, [p, p], false, density, colorAt);
    ComputePointsZeroLength(m, [p, p], false, density, colorAt);
    assert InsertCount(Dist(m, p, p), Spacing(density)) == 0;
    var r := ComputePoints(m, [p, p], false, density, colorAt);
    ComputePointsVertices(m, [p, p], false, density, colorAt, 0);
    ComputePointsVertices(m, [p, p], false, density, colorAt, 1);
  }

  /** The as-written sampling agrees with the corrected one exactly when it does not raise the division error. */
  lemma AsWrittenAgreesElsewhere(m: MathFns, pts: seq<Vec>, closed: bool, density: real, colorAt: real -> Color)
    requires Constructible(pts, closed)
    ensures ComputePointsAsWritten(m, pts, closed, density, colorAt) != Err(ZeroDivisionError) ==>
      ComputePointsAsWritten(m, pts, closed, density, colorAt) == ComputePoints(m, pts, closed, density, colorAt)
    ensures ComputePoints(m, pts, closed, density, colorAt) == Err(ZeroDivisionError) <==> density == 0.0
  {
    ComputePointsSpec(m, pts, closed, density, colorAt);
  }

  /**
   * With a negative spacing every open edge takes the insertion branch with
   * a count of 0 or less: nothing is inserted, the accumulated length stays
   * 0, and each vertex is emitted at parameter 0.
   */
  lemma {:induction false} WalkToNegative(m: MathFns, pts: seq<Vec>, k: nat, spacing: real, total: real, colorAt: real -> Color)
    requires Lawful(m) && 1 <= k <= |pts| && spacing < 0.0
    ensures var w := WalkTo(m, pts, k, spacing, total, colorAt);
      w.acc == 0.0 && w.out.points == pts[..k] && |w.out.ts| == k && ZeroTs(w.out)
  {
    if k > 1 {
      var prev := WalkTo(m, pts, k - 1, spacing, total, colorAt);
      WalkToNegative(m, pts, k - 1, spacing, total, colorAt);
      var a, b := pts[k - 2], pts[k - 1];
      DistNonnegative(m, a, b);
      assert InsertCount(Dist(m, a, b), spacing) == 0;
      assert EdgeInserts(m, prev, a, b, spacing, total, colorAt, false) == prev;
      assert WalkTo(m, pts, k, spacing, total, colorAt) == Walk(Emit(prev.out, b, colorAt, Param(0.0, total)), 0.0);
      assert pts[..k] == pts[..k - 1] + [b];
    }
  }

  /**
   * A negative density samples the vertices themselves (and vertex 0 again
   * when closed): every open vertex at parameter 0, the closing vertex at
   * the closing edge's share of the total length.
   */
  lemma NegativeDensitySamples(m: MathFns, pts: seq<Vec>, closed: bool, density: real, colorAt: real -> Color)
    requires Lawful(m) && Constructible(pts, closed) && density < 0.0 && 1 <= |pts|
    ensures var r := ComputePoints(m, pts, closed, density, colorAt);
      && r.Ok?
      && r.value.points == (if closed then pts + [pts[0]] else pts)
      && |r.value.ts| == |r.value.points|
      && (forall i :: 0 <= i < |pts| ==> r.value.ts[i] == 0.0)
      && (closed ==> r.value.ts[|pts|] == Param(Dist(m, pts[|pts| - 1], pts[0]), Perimeter(m, pts, closed)))
  {
    var spacing, total := Spacing(density), Perimeter(m, pts, closed);
    WalkToNegative(m, pts, |pts|, spacing, total, colorAt);
    assert pts[..|pts|] == pts;
    if closed {
      DistNonnegative(m, pts[|pts| - 1], pts[0]);
    }
  }

  /**
   * The points inserted on the edge a -> b by `_compute_points`: the point
   * count and the step (lines 87-90, 116-119), then the inner loop over
   * j = 1..n (lines 92-101, or 121-130 on the closing edge).
   */
  method InsertEdgePoints(m: MathFns, w: Walk, a: Vec, b: Vec, spacing: real, total: real, colorAt: real -> Color, closing: bool)
    returns (points: seq<Vec>, colors: seq<Color>, ts: seq<real>, acc: real)
    requires spacing != 0.0
    ensures Walk(Samples(points, colors, ts), acc) == EdgeInserts(m, w, a, b, spacing, total, colorAt, closing)
  {
    points, colors, ts, acc := w.out.points, w.out.colors, w.out.ts, w.acc;
    var n := InsertCount(Dist(m, a, b), spacing);
    if n == 0 {
      return;
    }
    var dx := (b.x - a.x) / (n + 1) as real;
    var dy := (b.y - a.y) / (n + 1) as real;
    var step := Norm(m, dx, dy);
    var j := 1;
    while j <= n
      invariant 1 <= j <= n + 1
      invariant Walk(Samples(points, colors, ts), acc) == Inserted(w, a, dx, dy, step, total, colorAt, closing, j - 1)
    {
      acc := acc + Advance(step, closing, j);
      var t := Param(acc, total);
      points, colors, ts := points + [InsertedPoint(a, dx, dy, j)], colors + [colorAt(t)], ts + [t];
      j := j + 1;
    }
  }

  lemma WalkToNext(m: MathFns, pts: seq<Vec>, i: nat, spacing: real, total: real, colorAt: real -> Color)
    requires 1 <= i < |pts| && spacing != 0.0
    ensures WalkTo(m, pts, i + 1, spacing, total, colorAt) == OpenEdge(m, WalkTo(m, pts, i, spacing, total, colorAt), pts[i - 1], pts[i], spacing, total, colorAt)
  {
  }

  /** One iteration of the loop over the open edges (lines 82-109): the inserted points or the whole edge length, then vertex b. */
  method OpenEdgeStep(m: MathFns, w: Walk, a: Vec, b: Vec, spacing: real, total: real, colorAt: real -> Color)
    returns (points: seq<Vec>, colors: seq<Color>, ts: seq<real>, acc: real)
    requires spacing != 0.0
    ensures Walk(Samples(points, colors, ts), acc) == OpenEdge(m, w, a, b, spacing, total, colorAt)
  {
    points, colors, ts, acc := w.out.points, w.out.colors, w.out.ts, w.acc;
    var seg := Dist(m, a, b);
    if seg > spacing {
      points, colors, ts, acc := InsertEdgePoints(m, w, a, b, spacing, total, colorAt, false);
    } else {
      acc := acc + seg;
    }
    var t := Param(acc, total);
    points, colors, ts := points + [b], colors + [colorAt(t)], ts + [t];
  }

  /** `w` is the state after vertex k - 1. */
  predicate WalkedTo(m: MathFns, pts: seq<Vec>, k: nat, spacing: real, total: real, colorAt: real -> Color, w: Walk)
    requires 1 <= k <= |pts| && spacing != 0.0
  {
    w == WalkTo(m, pts, k, spacing, total, colorAt)
  }

  /** One pass of the loop over the open edges, from the state after vertex i - 1 to the state after vertex i. */
  method EdgeStep(m: MathFns, pts: seq<Vec>, i: nat, spacing: real, total: real, colorAt: real -> Color, w: Walk) returns (r: Walk)
    requires 1 <= i < |pts| && spacing != 0.0
    requires WalkedTo(m, pts, i, spacing, total, colorAt, w)
    ensures WalkedTo(m, pts, i + 1, spacing, total, colorAt, r)
  {
    var points, colors, ts, acc := OpenEdgeStep(m, w, pts[i - 1], pts[i], spacing, total, colorAt);
    r := Walk(Samples(points, colors, ts), acc);
    WalkToNext(m, pts, i, spacing, total, colorAt);
  }

  /** Lines 76-109 of `_compute_points`: the first sample, then the loop over the open edges. */
  method SampleOpenEdges(m: MathFns, pts: seq<Vec>, spacing: real, total: real, colorAt: real -> Color) returns (w: Walk)
    requires 1 <= |pts| && spacing != 0.0
    ensures w == WalkTo(m, pts, |pts|, spacing, total, colorAt)
  {
    w := Walk(Samples([pts[0]], [colorAt(0.0)], [0.0]), 0.0);
    var i := 1;
    while i < |pts|
      invariant 1 <= i <= |pts|
      invariant WalkedTo(m, pts, i, spacing, total, colorAt, w)
    {
      w := EdgeStep(m, pts, i, spacing, total, colorAt, w);
      i := i + 1;
    }
  }

  /**
   * `_compute_points` as the source runs it: the open edges, then the
   * closing edge (lines 111-140). Every arc parameter is guarded against a
   * zero total length.
   */
  method SamplePoints(m: MathFns, pts: seq<Vec>, closed: bool, density: real, colorAt: real -> Color) returns (r: Result<Samples, Error>)
    requires Constructible(pts, closed)
    ensures r == ComputePoints(m, pts, closed, density, colorAt)
  {
    if density == 0.0 {
      return Err(ZeroDivisionError);
    }
    if |pts| == 0 {
      return Err(IndexError);
    }
    var spacing := Spacing(density);
    var totalLength := ComputeTotalLength(m, pts, closed);
    var total := totalLength.value;
    var w := SampleOpenEdges(m, pts, spacing, total, colorAt);
    if closed {
      var points, colors, ts, acc := ClosingEdgeStep(m, w, pts[|pts| - 1], pts[0], spacing, total, colorAt);
      w := Walk(Samples(points, colors, ts), acc);
    }
    return Ok(w.out);
  }

  /** Lines 111-140: the points inserted on the closing edge, its whole length, then vertex 0 again. */
  method ClosingEdgeStep(m: MathFns, w: Walk, a: Vec, b: Vec, spacing: real, total: real, colorAt: real -> Color)
    returns (points: seq<Vec>, colors: seq<Color>, ts: seq<real>, acc: real)
    requires spacing != 0.0
    ensures Walk(Samples(points, colors, ts), acc) == ClosingEdge(m, w, a, b, spacing, total, colorAt)
  {
    points, colors, ts, acc := w.out.points, w.out.colors, w.out.ts, w.acc;
    var seg := Dist(m, a, b);
    if seg > spacing {
      points, colors, ts, acc := InsertEdgePoints(m, w, a, b, spacing, total, colorAt, true);
    }
    acc := acc + seg;
    var t := Param(acc, total);
    points, colors, ts := points + [b], colors + [colorAt(t)], ts + [t];
  }

  // ---------------------------------------------------------------------
  // `is_point_inside`: the winding number

  /**
   * What edge p0 -> p1 adds to the winding number around p (the branches of
   * lines 203-208): an upward crossing with orientation 1 adds one, a
   * downward crossing with orientation -1 subtracts one.
   */
  function Crossing(p0: Vec, p1: Vec, p: Vec): int {
    if p0.y <= p.y then
      (if p1.y > p.y && Orientation(p0, p1, p) == 1 then 1 else 0)
    else
      (if p1.y <= p.y && Orientation(p0, p1, p) == -1 then -1 else 0)
  }

  /** The vertex after vertex i, wrapping round to vertex 0: the source's `(i + 1) % n`. */
  function Next(i: nat, n: nat): (r: nat)
    requires i < n
    ensures r < n && r == (i + 1) % n
  {
    if i + 1 < n then i + 1 else 0
  }

  /** The contribution of every edge i -> Next(i), the closing edge included. */
  function Crossings(pts: seq<Vec>, p: Vec): (r: seq<int>)
    ensures |r| == |pts|
  {
    seq(|pts|, i requires 0 <= i < |pts| => Crossing(pts[i], pts[Next(i, |pts|)], p))
  }

  function WindingNumber(pts: seq<Vec>, p: Vec): int {
    Sum(Crossings(pts, p))
  }

  /** `is_point_inside`: a non-zero winding number on a closed polyline; the abstract base method raises on an open one. */
  function IsPointInside(pts: seq<Vec>, closed: bool, p: Vec): Result<bool, Error> {
    if !closed then Err(NotImplementedError) else Ok(WindingNumber(pts, p) != 0)
  }

  /** `is_point_inside` as the source runs it: one pass over the edges updating the count. */
  method PointInside(pts: seq<Vec>, closed: bool, p: Vec) returns (r: Result<bool, Error>)
    ensures r == IsPointInside(pts, closed, p)
  {
    if !closed {
      return Err(NotImplementedError);
    }
    var windingNumber := 0;
    var n := |pts|;
    var i := 0;
    while i < n
      invariant 0 <= i <= n
      invariant windingNumber == Sum(Crossings(pts, p)[..i])
    {
      assert Crossings(pts, p)[..i + 1][..i] == Crossings(pts, p)[..i];
      windingNumber := windingNumber + Crossing(pts[i], pts[(i + 1) % n], p);
      i := i + 1;
    }
    assert Crossings(pts, p)[..n] == Crossings(pts, p);
    return Ok(windingNumber != 0);
  }

  /** Traversing an edge the other way negates its contribution. */
  lemma CrossingSwap(p0: Vec, p1: Vec, p: Vec)
    ensures Crossing(p1, p0, p) == -Crossing(p0, p1, p)
  {
    OrientationSwap(p0, p1, p);
  }

  /** The edges of the reversed polygon are the original edges reversed, the closing edge last. */
  lemma CrossingsOfReverse(pts: seq<Vec>, p: Vec)
    requires 1 <= |pts|
    ensures var n := |pts|; var c := Crossings(pts, p);
      Crossings(Reverse(pts), p) == Negate(Reverse(c[..n - 1])) + [-c[n - 1]]
  {
    var n := |pts|;
    var c := Crossings(pts, p);
    var rev := Reverse(pts);
    var lhs := Crossings(rev, p);
    var rhs := Negate(Reverse(c[..n - 1])) + [-c[n - 1]];
    forall i | 0 <= i < n
      ensures lhs[i] == rhs[i]
    {
      if i < n - 1 {
        ReverseEdge(pts, p, i);
      } else {
        ReverseClosingEdge(pts, p);
      }
    }
  }

  lemma ReverseEdge(pts: seq<Vec>, p: Vec, i: nat)
    requires i + 1 < |pts|
    ensures Crossings(Reverse(pts), p)[i] == -Crossings(pts, p)[|pts| - 2 - i]
  {
    var n := |pts|;
    CrossingSwap(pts[n - 2 - i], pts[n - 1 - i], p);
  }

  lemma ReverseClosingEdge(pts: seq<Vec>, p: Vec)
    requires 1 <= |pts|
    ensures Crossings(Reverse(pts), p)[|pts| - 1] == -Crossings(pts, p)[|pts| - 1]
  {
    var n := |pts|;
    CrossingSwap(pts[n - 1], pts[0], p);
  }

  /** Reversing the vertex order negates the winding number. */
  lemma WindingNumberReverse(pts: seq<Vec>, p: Vec)
    ensures WindingNumber(Reverse(pts), p) == -WindingNumber(pts, p)
  {
    var n := |pts|;
    if n > 0 {
      var c := Crossings(pts, p);
      CrossingsOfReverse(pts, p);
      SumAppend(Negate(Reverse(c[..n - 1])), [-c[n - 1]]);
      SumNegate(Reverse(c[..n - 1]));
      SumReverse(c[..n - 1]);
      assert c == c[..n - 1] + [c[n - 1]];
      SumAppend(c[..n - 1], [c[n - 1]]);
      assert Sum([-c[n - 1]]) == -c[n - 1];
      assert Sum([c[n - 1]]) == c[n - 1];
    }
  }

  /** Containment does not depend on the direction in which the vertices are listed. */
  lemma PointInsideReverse(pts: seq<Vec>, closed: bool, p: Vec)
    ensures IsPointInside(Reverse(pts), closed, p) == IsPointInside(pts, closed, p)
  {
    WindingNumberReverse(pts, p);
  }

  /** The square with corners (+-1, +-1) contains its centre. */
  lemma SquareContainsCentre()
    ensures IsPointInside([Vec(-1.0, -1.0), Vec(1.0, -1.0), Vec(1.0, 1.0), Vec(-1.0, 1.0)], true, Vec(0.0, 0.0)) == Ok(true)
  {
    var pts := [Vec(-1.0, -1.0), Vec(1.0, -1.0), Vec(1.0, 1.0), Vec(-1.0, 1.0)];
    var o := Vec(0.0, 0.0);
    var c := Crossings(pts, o);
    assert Crossing(pts[0], pts[1], o) == 0;
    assert Turn(pts[1], pts[2], o) == -2.0;
    assert Crossing(pts[1], pts[2], o) == 0;
    assert Crossing(pts[2], pts[3], o) == 0;
    assert Turn(pts[3], pts[0], o) == -2.0;
    assert Crossing(pts[3], pts[0], o) == -1;
    assert c == [0, 0, 0, -1];
    assert c[..3] == [0, 0, 0] && [0, 0, 0][..2] == [0, 0] && [0, 0][..1] == [0];
    assert Sum([0, 0]) == 0;
    assert Sum(c) == -1;
  }

  // ---------------------------------------------------------------------
  // `is_line_inside` / `is_line_outside`

  datatype Segment = Segment(a: Vec, b: Vec)

  /** The edges the source iterates: i - 1 -> i for i = 1..n-1, then the closing edge when closed. */
  function Edges(pts: seq<Vec>, closed: bool): (r: seq<Segment>)
    requires Constructible(pts, closed)
    ensures |r| == (if closed then |pts| else if |pts| == 0 then 0 else |pts| - 1)
    ensures forall i :: 0 <= i < |r| ==> r[i] == Segment(pts[i], pts[Next(i, |pts|)])
  {
    var open := seq(if |pts| == 0 then 0 else |pts| - 1, i requires 0 <= i < |pts| - 1 => Segment(pts[i], pts[i + 1]));
    if closed then open + [Segment(pts[|pts| - 1], pts[0])] else open
  }

  /** The loop with an early `return True`: some edge meets p0 -> p1, tried in order. */
  function MeetsAny(edges: seq<Segment>, p0: Vec, p1: Vec): bool {
    |edges| > 0 && (DoLinesIntersect(p0, p1, edges[0].a, edges[0].b) || MeetsAny(edges[1..], p0, p1))
  }

  lemma {:induction false} MeetsAnySpec(edges: seq<Segment>, p0: Vec, p1: Vec)
    ensures MeetsAny(edges, p0, p1) <==> exists i :: 0 <= i < |edges| && DoLinesIntersect(p0, p1, edges[i].a, edges[i].b)
    decreases |edges|
  {
    if |edges| > 0 {
      MeetsAnySpec(edges[1..], p0, p1);
      if MeetsAny(edges[1..], p0, p1) {
        var i :| 0 <= i < |edges[1..]| && DoLinesIntersect(p0, p1, edges[1..][i].a, edges[1..][i].b);
        assert edges[i + 1] == edges[1..][i];
      }
      if exists i :: 0 <= i < |edges| && DoLinesIntersect(p0, p1, edges[i].a, edges[i].b) {
        var i :| 0 <= i < |edges| && DoLinesIntersect(p0, p1, edges[i].a, edges[i].b);
        if i > 0 {
          assert edges[1..][i - 1] == edges[i];
        }
      }
    }
  }

  /** `is_line_inside`: on a closed polyline an endpoint inside or an edge met; on an open one an edge met. */
  function IsLineInside(pts: seq<Vec>, closed: bool, p0: Vec, p1: Vec): bool
    requires Constructible(pts, closed)
  {
    if closed then
      WindingNumber(pts, p0) != 0 || WindingNumber(pts, p1) != 0 || MeetsAny(Edges(pts, true), p0, p1)
    else MeetsAny(Edges(pts, false), p0, p1)
  }

  /** `is_line_outside`. */
  function IsLineOutside(pts: seq<Vec>, closed: bool, p0: Vec, p1: Vec): bool
    requires Constructible(pts, closed)
  {
    !IsLineInside(pts, closed, p0, p1)
  }

  /** Both directions of `is_line_inside` over the edge list, the closing edge included when closed. */
  lemma LineInsideSpec(pts: seq<Vec>, closed: bool, p0: Vec, p1: Vec)
    requires Constructible(pts, closed)
    ensures IsLineInside(pts, closed, p0, p1) <==>
      || (closed && (IsPointInside(pts, closed, p0) == Ok(true) || IsPointInside(pts, closed, p1) == Ok(true)))
      || exists i :: 0 <= i < |Edges(pts, closed)| && DoLinesIntersect(p0, p1, pts[i], pts[Next(i, |pts|)])
  {
    var e := Edges(pts, closed);
    MeetsAnySpec(e, p0, p1);
    if exists i :: 0 <= i < |e| && DoLinesIntersect(p0, p1, pts[i], pts[Next(i, |pts|)]) {
      var i :| 0 <= i < |e| && DoLinesIntersect(p0, p1, pts[i], pts[Next(i, |pts|)]);
      assert DoLinesIntersect(p0, p1, e[i].a, e[i].b);
    }
  }

  /** `is_line_outside` holds exactly when no edge is met and, when closed, neither endpoint is inside. */
  lemma LineOutsideSpec(pts: seq<Vec>, closed: bool, p0: Vec, p1: Vec)
    requires Constructible(pts, closed)
    ensures IsLineOutside(pts, closed, p0, p1) <==>
      && (closed ==> IsPointInside(pts, closed, p0) == Ok(false) && IsPointInside(pts, closed, p1) == Ok(false))
      && forall i :: 0 <= i < |Edges(pts, closed)| ==> !DoLinesIntersect(p0, p1, pts[i], pts[Next(i, |pts|)])
  {
    LineInsideSpec(pts, closed, p0, p1);
  }

  /** A segment starting at any vertex of a polyline with an edge meets an edge there, so it is "inside". */
  lemma LineFromVertexIsInside(pts: seq<Vec>, closed: bool, j: nat, q: Vec)
    requires Constructible(pts, closed) && 2 <= |pts| && j < |pts|
    ensures IsLineInside(pts, closed, pts[j], q)
  {
    var e := Edges(pts, closed);
    var k := if j + 1 < |pts| then j else j - 1;
    assert e[k] == Segment(pts[k], pts[k + 1]);
    IntersectSharedEndpoint(pts[j], q, pts[k], pts[k + 1]);
    LineInsideSpec(pts, closed, pts[j], q);
  }

  // ---------------------------------------------------------------------
  // `_find_line_segment_index`

  /** The number of edges the search walks: the open ones, plus the closing one. */
  function EdgeCount(pts: seq<Vec>, closed: bool): nat {
    if closed then |pts| else if |pts| == 0 then 0 else |pts| - 1
  }

  /** How far along the polyline the end of edge e lies: the open edges cumulatively, then the closing edge. */
  function Reach(m: MathFns, pts: seq<Vec>, closed: bool, e: nat): real
    requires Constructible(pts, closed) && e < EdgeCount(pts, closed)
  {
    if e + 1 < |pts| then PathLength(m, pts[..e + 2]) else Perimeter(m, pts, closed)
  }

  /** The reach of every edge, in order. */
  function Reaches(m: MathFns, pts: seq<Vec>, closed: bool): (r: seq<real>)
    requires Constructible(pts, closed)
    ensures |r| == EdgeCount(pts, closed)
  {
    seq(EdgeCount(pts, closed), e requires 0 <= e < EdgeCount(pts, closed) => Reach(m, pts, closed, e))
  }

  /** The first index from e on whose reach is at least `target`, or -1. */
  function FirstReaching(reaches: seq<real>, target: real, e: nat): int
    requires e <= |reaches|
    decreases |reaches| - e
  {
    if e == |reaches| then -1
    else if target <= reaches[e] then e
    else FirstReaching(reaches, target, e + 1)
  }

  /** `_find_line_segment_index(s)`: the first edge whose cumulative length reaches s times the total. */
  function SegmentIndex(m: MathFns, pts: seq<Vec>, closed: bool, s: real): int
    requires Constructible(pts, closed)
  {
    FirstReaching(Reaches(m, pts, closed), Target(s, Perimeter(m, pts, closed)), 0)
  }

  /** The length `s * self._total_length` that the search compares against. */
  function Target(s: real, total: real): real {
    s * total
  }

  /** Either -1 with no reach at or above the target, or the first index whose reach is. */
  lemma {:induction false} FirstReachingSpec(reaches: seq<real>, target: real, e: nat)
    requires e <= |reaches|
    ensures var r := FirstReaching(reaches, target, e);
      && (r == -1 <==> forall k :: e <= k < |reaches| ==> reaches[k] < target)
      && (r != -1 ==>
            && e <= r < |reaches|
            && target <= reaches[r]
            && forall k :: e <= k < r ==> reaches[k] < target)
    decreases |reaches| - e
  {
    if e < |reaches| && reaches[e] < target {
      FirstReachingSpec(reaches, target, e + 1);
    }
  }

  /** `_find_line_segment_index` as the source runs it: one accumulating pass, then the closing edge. */
  method FindLineSegmentIndex(m: MathFns, pts: seq<Vec>, closed: bool, s: real) returns (r: int)
    requires Constructible(pts, closed)
    ensures r == SegmentIndex(m, pts, closed, s)
  {
    ghost var reaches := Reaches(m, pts, closed);
    var target := Target(s, Perimeter(m, pts, closed));
    var acc := 0.0;
    var i := 1;
    while i < |pts|
      invariant 1 <= i <= |pts| || (|pts| == 0 && i == 1)
      invariant acc == PathLength(m, pts[..if |pts| == 0 then 0 else i])
      invariant SegmentIndex(m, pts, closed, s) == FirstReaching(reaches, target, i - 1)
    {
      assert pts[..i + 1][..i] == pts[..i];
      acc := acc + Dist(m, pts[i - 1], pts[i]);
      assert reaches[i - 1] == acc;
      if target <= acc {
        return i - 1;
      }
      i := i + 1;
    }
    if closed {
      assert pts[..i] == pts;
      acc := acc + Dist(m, pts[|pts| - 1], pts[0]);
      assert reaches[|pts| - 1] == acc;
      if target <= acc {
        return |pts| - 1;
      }
    }
    return -1;
  }

  /** On an open polyline of positive length every s in [0, 1] falls on some edge. */
  lemma SegmentIndexFound(m: MathFns, pts: seq<Vec>, s: real)
    requires Lawful(m) && 0.0 <= s <= 1.0 && 0.0 < Perimeter(m, pts, false)
    ensures 0 <= SegmentIndex(m, pts, false, s) < |pts| - 1
  {
    var total := Perimeter(m, pts, false);
    var reaches := Reaches(m, pts, false);
    var e := |pts| - 2;
    assert pts[..e + 2] == pts;
    assert reaches[e] == total;
    var target := Target(s, total);
    ScaledAtMost(s, total);
    FirstReachingSpec(reaches, target, 0);
    assert !(reaches[e] < target);
  }

  lemma ScaledAtMost(s: real, t: real)
    requires 0.0 <= s <= 1.0 && 0.0 <= t
    ensures s * t <= t
  {
    MulNonnegative(1.0 - s, t);
  }

  // ---------------------------------------------------------------------
  // `signed_distance`

  /**
   * `signed_distance`, with the nearest-point distance as a parameter (it is
   * computed through the transform stack): negated when the polyline is
   * closed and contains p.
   */
  function SignedDistance(pts: seq<Vec>, closed: bool, p: Vec, distance: real): real {
    if closed && IsPointInside(pts, closed, p) == Ok(true) then -distance else distance
  }

  /** For a positive distance the sign is negative exactly for a point inside a closed polyline; the magnitude is the distance. */
  lemma SignedDistanceSign(pts: seq<Vec>, closed: bool, p: Vec, distance: real)
    requires 0.0 < distance
    ensures SignedDistance(pts, closed, p, distance) < 0.0 <==> closed && IsPointInside(pts, closed, p) == Ok(true)
    ensures Abs(SignedDistance(pts, closed, p, distance)) == distance
    ensures !closed ==> SignedDistance(pts, closed, p, distance) == distance
  {
  }
}
