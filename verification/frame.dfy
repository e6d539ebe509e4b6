/**
 * laser/frame.py: one frame of a laser animation. Its timing is fixed at
 * construction; `add_shape` fills in a missing point density on the
 * caller's shape and keeps a copy of it. The render-line assembly reads a
 * frame after it has been pickled to a worker process, so it works on the
 * frame's value, `FrameData`.
 */
module Frames {
  import opened Wrappers
  import opened Errors
  import opened Numeric
  import opened Colors
  import opened Figures
  import opened Shapes

  /** A shape copy as the frame holds it, with its exclusion flag. */
  datatype Placed = Placed(shape: Shape, exclusion: bool)

  /** A placed shape once pickled. */
  datatype PlacedState = PlacedState(state: ShapeState, exclusion: bool)

  /** A frame once pickled. */
  datatype FrameData = FrameData(
    startT: real,
    t: real,
    fps: real,
    duration: real,
    pointDensity: real,
    shapes: seq<PlacedState>)

  /** `progress`: the time since the animation started, as a fraction of its duration. */
  function ProgressOf(startT: real, t: real, duration: real): (r: Result<real, Error>)
    ensures r.Err? <==> duration == 0.0
    ensures r.Err? ==> r.error == ZeroDivisionError
    ensures r.Ok? ==> r.value * duration == t - startT
  {
    if duration == 0.0 then Err(ZeroDivisionError) else Ok((t - startT) / duration)
  }

  /** `index`: the elapsed time in frames, truncated toward zero. */
  function IndexOf(startT: real, t: real, fps: real): int {
    Trunc((t - startT) * fps)
  }

  /** The time of frame i of an animation that starts at startT. */
  function FrameTime(startT: real, i: nat, fps: real): real
    requires fps != 0.0
  {
    startT + i as real / fps
  }

  /** Frame i of an animation has index i. */
  lemma IndexOfFrameTime(startT: real, i: nat, fps: real)
    requires 0.0 < fps
    ensures IndexOf(startT, FrameTime(startT, i, fps), fps) == i
  {
    var q := i as real / fps;
    assert FrameTime(startT, i, fps) - startT == q;
    assert q * fps == i as real;
  }

  /**
   * The frames of an animation, i < fps * duration, have a progress in
   * [0, 1): the frame at time 0 has progress 0 and none reaches the end.
   */
  lemma ProgressOfFrameTime(startT: real, i: nat, fps: real, duration: real)
    requires 0.0 < fps && 0.0 < duration && (i as real) < fps * duration
    ensures var p := ProgressOf(startT, FrameTime(startT, i, fps), duration);
      p.Ok? && 0.0 <= p.value < 1.0 && (i == 0 ==> p.value == 0.0)
  {
    var q := i as real / fps;
    assert FrameTime(startT, i, fps) - startT == q;
    assert q * fps == i as real;
    MulNonnegative(i as real, 1.0 / fps);
    assert 0.0 <= q;
    if q >= duration {
      MulMonotone(duration, q, fps);
      assert false;
    }
    var p := q / duration;
    assert p * duration == q;
    if p >= 1.0 {
      MulMonotone(1.0, p, duration);
      assert false;
    }
    if p < 0.0 {
      MulPositive(-p, duration);
      assert false;
    }
  }

  lemma MulMonotone(a: real, b: real, k: real)
    requires a <= b && 0.0 < k
    ensures a * k <= b * k
  {
    MulNonnegative(b - a, k);
  }

  /** The density a shape ends up with: its own, or the frame's when it has none. */
  function DefaultDensity(density: Option<real>, pointDensity: real): (r: Option<real>)
    ensures r.Some?
    ensures density.Some? ==> r == density
  {
    if density.None? then Some(pointDensity) else density
  }

  /** The state of the copy `add_shape` keeps of a shape in state s. */
  function CopiedState(s: ShapeState, pointDensity: real): ShapeState
    requires 1 <= |s.gradient.colors|
  {
    ShapeState(
      CopiedFigure(s.figure),
      CopiedGradient(s.gradient),
      DefaultDensity(s.density, pointDensity),
      s.matrices,
      s.displacements)
  }

  /**
   * The kept copy can be rendered whenever the shape could be, and it
   * samples exactly as the shape would with the density filled in.
   */
  lemma CopiedStateRenderable(m: MathFns, s: ShapeState, pointDensity: real)
    requires Renderable(s)
    ensures var c := CopiedState(s, pointDensity);
      && Renderable(c)
      && Figures.ComputePoints(m, c.figure, c.density, ColorAt(c.gradient))
        == Figures.ComputePoints(m, s.figure, c.density, ColorAt(c.gradient))
  {
    var c := CopiedState(s, pointDensity);
    CopySamplesAlike(m, s.figure, c.density, ColorAt(c.gradient));
  }

  /** The value of a placed shape, read off its objects. */
  function PlacedValue(p: Placed): PlacedState
    reads p.shape, p.shape.gradient, p.shape.displacements
  {
    PlacedState(p.shape.State(), p.exclusion)
  }

  /** The Frame object of laser/frame.py. */
  class Frame {
    const startT: real
    const t: real
    const fps: real
    const duration: real
    const pointDensity: real
    var shapes: seq<Placed>

    /** `Frame.__init__`: no shapes yet. */
    constructor (startT: real, t: real, fps: real, duration: real, pointDensity: real)
      ensures this.startT == startT && this.t == t && this.fps == fps
      ensures this.duration == duration && this.pointDensity == pointDensity
      ensures shapes == []
    {
      this.startT := startT;
      this.t := t;
      this.fps := fps;
      this.duration := duration;
      this.pointDensity := pointDensity;
      shapes := [];
    }

    function Progress(): Result<real, Error> {
      ProgressOf(startT, t, duration)
    }

    function Index(): int {
      IndexOf(startT, t, fps)
    }

    /**
     * `add_shape(shape, is_exclusion_shape)`: nothing for None; otherwise
     * the caller's shape gets the frame's density if it had none, and a copy
     * of it goes to the end of the list.
     */
    method AddShape(shape: Shape?, exclusion: bool)
      requires shape != null ==> shape.Valid()
      modifies this, shape
      ensures shape == null ==> shapes == old(shapes)
      ensures shape != null ==>
        && shape.density == DefaultDensity(old(shape.density), pointDensity)
        && shape.matrices == old(shape.matrices)
        && |shapes| == |old(shapes)| + 1
        && shapes[..|old(shapes)|] == old(shapes)
        && fresh(shapes[|old(shapes)|].shape)
        && shapes[|old(shapes)|].exclusion == exclusion
        && shapes[|old(shapes)|].shape.Valid()
        && PlacedValue(shapes[|old(shapes)|]).state == CopiedState(old(shape.State()), pointDensity)
    {
      if shape == null {
        return;
      }
      if shape.density.None? {
        shape.SetPointDensity(Some(pointDensity));
      }
      var c := shape.Copy();
      shapes := shapes + [Placed(c, exclusion)];
    }

    /** `frame += shape`: `add_shape(shape)`, and the same frame back. */
    method AddAssign(shape: Shape?) returns (f: Frame)
      requires shape != null ==> shape.Valid()
      modifies this, shape
      ensures f == this
      ensures shape == null ==> shapes == old(shapes)
      ensures shape != null ==>
        && |shapes| == |old(shapes)| + 1
        && shapes[..|old(shapes)|] == old(shapes)
        && fresh(shapes[|old(shapes)|].shape)
        && !shapes[|old(shapes)|].exclusion
        && PlacedValue(shapes[|old(shapes)|]).state == CopiedState(old(shape.State()), pointDensity)
    {
      AddShape(shape, false);
      f := this;
    }

    /** The value the frame is pickled to when it is handed to a worker process. */
    method Pickle() returns (d: FrameData)
      ensures d.startT == startT && d.t == t && d.fps == fps
      ensures d.duration == duration && d.pointDensity == pointDensity
      ensures |d.shapes| == |shapes|
      ensures forall i :: 0 <= i < |shapes| ==> d.shapes[i] == PlacedValue(shapes[i])
    {
      var ps := shapes;
      var values: seq<PlacedState> := [];
      for i := 0 to |ps|
        invariant |values| == i
        invariant forall j :: 0 <= j < i ==> values[j] == PlacedValue(ps[j])
      {
        values := values + [PlacedValue(ps[i])];
      }
      d := FrameData(startT, t, fps, duration, pointDensity, values);
    }
  }
}
