/**
 * `FillFrame` and `IldxFactory` of laser/ildx_factory.py: the frames of
 * every animation are built at their times and filled by the animation's
 * factory function, each frame's render lines are assembled and mirrored,
 * and the lines are written out as an ILDX file.
 */
module IldxFactories {
  import opened Wrappers
  import opened Errors
  import opened Numeric
  import opened Geometry
  import opened RenderLines
  import opened Figures
  import opened Shapes
  import opened Frames
  import opened FrameAssembly
  import opened Ildx
  import opened IldxWriter

  // ---------------------------------------------------------------------
  // Filling a frame

  /**
   * A factory function, as the shapes (with their exclusion flags) it hands
   * to `frame.add_shape`, in order, when it is called on a frame.
   */
  type Populate = FrameData -> seq<PlacedState>

  /** A factory function hands over shapes that can be rendered, whatever frame it is given. */
  ghost predicate WellBehaved(populate: Populate) {
    forall f :: AllRenderable(populate(f))
  }

  /** An `add_exclusion_zone(shape, inside)` entry: the zone shape's value and whether its inside is excluded. */
  datatype ZoneEntry = ZoneEntry(shape: ShapeState, inside: bool)

  predicate ZoneShapesRenderable(entries: seq<ZoneEntry>) {
    forall j :: 0 <= j < |entries| ==> Renderable(entries[j].shape)
  }

  /** The zones the assembly tests lines against: each zone shape's figure with its flag. */
  function Zones(entries: seq<ZoneEntry>): (r: seq<Zone>)
    ensures |r| == |entries|
    ensures ZoneShapesRenderable(entries) ==> ZonesWellFormed(r)
  {
    seq(|entries|, j requires 0 <= j < |entries| => Zone(entries[j].shape.figure, entries[j].inside))
  }

  /** What the frame keeps of the shapes handed to `add_shape`: copies, with the frame's density filled in. */
  function AddAll(ps: seq<PlacedState>, pointDensity: real): (r: seq<PlacedState>)
    requires AllRenderable(ps)
    ensures |r| == |ps|
    ensures AllRenderable(r)
  {
    seq(|ps|, k requires 0 <= k < |ps| => PlacedState(CopiedState(ps[k].state, pointDensity), ps[k].exclusion))
  }

  /** The exclusion shapes added when the zones are shown. */
  function ZoneCopies(entries: seq<ZoneEntry>, pointDensity: real): (r: seq<PlacedState>)
    requires ZoneShapesRenderable(entries)
    ensures |r| == |entries|
    ensures AllRenderable(r)
  {
    seq(|entries|, j requires 0 <= j < |entries| => PlacedState(CopiedState(entries[j].shape, pointDensity), true))
  }

  /**
   * `FillFrame(factory_function, exclusion_zones, show_exclusion_zones)(frame)`:
   * the factory function's shapes, then, when the zones are shown, every
   * zone shape as an exclusion shape.
   */
  function Filled(populate: Populate, entries: seq<ZoneEntry>, show: bool, f: FrameData): (r: FrameData)
    requires AllRenderable(populate(f)) && ZoneShapesRenderable(entries)
    ensures AllRenderable(f.shapes) ==> AllRenderable(r.shapes)
  {
    var zoneShapes := if show then ZoneCopies(entries, f.pointDensity) else [];
    f.(shapes := f.shapes + AddAll(populate(f), f.pointDensity) + zoneShapes)
  }

  /**
   * Filling keeps the frame's timing and density and its shapes so far; it
   * adds one renderable shape per shape handed over and, when shown, one
   * exclusion shape per zone with the zone's outline; a frame filled without
   * shown zones by a function that hands over no exclusion shape holds none.
   */
  lemma FilledSpec(populate: Populate, entries: seq<ZoneEntry>, show: bool, f: FrameData)
    requires AllRenderable(populate(f)) && ZoneShapesRenderable(entries)
    requires AllRenderable(f.shapes)
    ensures var g := Filled(populate, entries, show, f);
      var before := |f.shapes| + |populate(f)|;
      && g.startT == f.startT && g.t == f.t && g.fps == f.fps && g.duration == f.duration
      && g.pointDensity == f.pointDensity
      && |g.shapes| == before + (if show then |entries| else 0)
      && g.shapes[..|f.shapes|] == f.shapes
      && AllRenderable(g.shapes)
      && (forall k :: before <= k < |g.shapes| ==>
            g.shapes[k] == PlacedState(CopiedState(entries[k - before].shape, f.pointDensity), true))
      && (NoneExcluded(Flags(f.shapes)) && NoneExcluded(Flags(populate(f))) && !show ==> NoneExcluded(Flags(g.shapes)))
  {
    var g := Filled(populate, entries, show, f);
    var added := AddAll(populate(f), f.pointDensity);
    var zoneShapes := if show then ZoneCopies(entries, f.pointDensity) else [];
    assert g.shapes == f.shapes + added + zoneShapes;
    AllRenderableJoin(f.shapes, added, zoneShapes);
    if NoneExcluded(Flags(f.shapes)) && NoneExcluded(Flags(populate(f))) && !show {
      FilledFlags(populate(f), f, g);
    }
  }

  lemma AllRenderableJoin(a: seq<PlacedState>, b: seq<PlacedState>, c: seq<PlacedState>)
    requires AllRenderable(a) && AllRenderable(b) && AllRenderable(c)
    ensures AllRenderable(a + b + c)
  {
  }

  lemma FilledFlags(ps: seq<PlacedState>, f: FrameData, g: FrameData)
    requires AllRenderable(ps) && g.shapes == f.shapes + AddAll(ps, f.pointDensity) + []
    requires NoneExcluded(Flags(f.shapes)) && NoneExcluded(Flags(ps))
    ensures NoneExcluded(Flags(g.shapes))
  {
    forall k | 0 <= k < |g.shapes|
      ensures !g.shapes[k].exclusion
    {
      if k < |f.shapes| {
        assert g.shapes[k] == f.shapes[k] && !Flags(f.shapes)[k];
      } else {
        assert g.shapes[k].exclusion == ps[k - |f.shapes|].exclusion && !Flags(ps)[k - |f.shapes|];
      }
    }
  }

  // ---------------------------------------------------------------------
  // The frames of each animation

  /** `range(ceil(fps * duration))`: how many frames an animation has. */
  function FrameCount(fps: int, duration: real): (n: nat)
    ensures 0 < n ==> fps != 0 && (n - 1) as real < fps as real * duration <= n as real
  {
    var c := Ceil(fps as real * duration);
    if c < 0 then 0 else c
  }

  /** Frame i is one of the animation's exactly when i is below fps * duration. */
  lemma FrameCountSpec(fps: int, duration: real, i: nat)
    ensures i < FrameCount(fps, duration) <==> (i as real) < fps as real * duration
  {
    BelowCeil(i, fps as real * duration);
  }

  /** Frame i as `_compute_frames` builds it, before the factory function runs. */
  function EmptyFrame(startT: real, i: nat, fps: int, duration: real, pointDensity: real): FrameData
    requires fps != 0
  {
    FrameData(startT, FrameTime(startT, i, fps as real), fps as real, duration, pointDensity, [])
  }

  /** What `_compute_frames` reads of the factory. */
  datatype Config = Config(
    fps: int,
    startTs: seq<int>,
    durations: seq<real>,
    populates: seq<Populate>,
    pointDensity: real,
    showZones: bool,
    flipX: bool,
    flipY: bool,
    frameNames: seq<string>,
    companyName: string,
    projectorNumber: int,
    legacyMode: bool,
    zones: seq<ZoneEntry>)

  /** `zip(start_ts, durations, factory_functions)` stops at the shortest list. */
  function AnimationCount(c: Config): (n: nat)
    ensures n <= |c.startTs| && n <= |c.durations| && n <= |c.populates|
    ensures n == |c.startTs| || n == |c.durations| || n == |c.populates|
  {
    var n := if |c.startTs| < |c.durations| then |c.startTs| else |c.durations|;
    if n < |c.populates| then n else |c.populates|
  }

  /** Every factory function hands over renderable shapes and every zone shape is renderable. */
  ghost predicate Fillable(c: Config) {
    (forall a :: 0 <= a < |c.populates| ==> WellBehaved(c.populates[a])) && ZoneShapesRenderable(c.zones)
  }

  /** The filled frames of animation a. */
  function AnimationFrames(c: Config, a: nat): (r: seq<FrameData>)
    requires Fillable(c) && a < AnimationCount(c)
    ensures |r| == FrameCount(c.fps, c.durations[a])
    ensures FramesRenderable(r)
  {
    var n := FrameCount(c.fps, c.durations[a]);
    seq(n, i requires 0 <= i < n =>
      Filled(c.populates[a], c.zones, c.showZones,
             EmptyFrame(c.startTs[a] as real, i, c.fps, c.durations[a], c.pointDensity)))
  }

  /** `_compute_frames()`. */
  function Animations(c: Config): (r: seq<seq<FrameData>>)
    requires Fillable(c)
    ensures |r| == AnimationCount(c)
    ensures AllFramesRenderable(r)
  {
    seq(AnimationCount(c), a requires 0 <= a < AnimationCount(c) => AnimationFrames(c, a))
  }

  /**
   * Frame i of animation a starts the animation at its start time, sits
   * i / fps seconds into it, has index i and, for a positive rate and
   * duration, a progress in [0, 1) that is 0 on the first frame.
   */
  lemma FrameTiming(c: Config, a: nat, i: nat)
    requires Fillable(c) && a < AnimationCount(c) && i < |Animations(c)[a]|
    ensures c.fps != 0
    ensures var f := Animations(c)[a][i];
      && f.startT == c.startTs[a] as real && f.fps == c.fps as real && f.duration == c.durations[a]
      && f.t == FrameTime(f.startT, i, f.fps) && f.pointDensity == c.pointDensity
      && (0 < c.fps ==> IndexOf(f.startT, f.t, f.fps) == i)
      && (0 < c.fps && 0.0 < f.duration ==>
            var p := ProgressOf(f.startT, f.t, f.duration);
            p.Ok? && 0.0 <= p.value < 1.0 && (i == 0 ==> p.value == 0.0))
  {
    var f := Animations(c)[a][i];
    assert f == AnimationFrames(c, a)[i];
    if 0 < c.fps {
      IndexOfFrameTime(f.startT, i, f.fps);
      if 0.0 < f.duration {
        FrameCountSpec(c.fps, c.durations[a], i);
        ProgressOfFrameTime(f.startT, i, f.fps, f.duration);
      }
    }
  }

  // ---------------------------------------------------------------------
  // Mirroring

  function FlipPoint(p: Vec, flipX: bool, flipY: bool): Vec {
    Vec(if flipX then -p.x else p.x, if flipY then -p.y else p.y)
  }

  /** `flip_x()` when flip_x is set, then `flip_y()` when flip_y is set: both endpoints mirrored, nothing else touched. */
  function FlipLine(l: LineData, flipX: bool, flipY: bool): (r: LineData)
    ensures r.start == FlipPoint(l.start, flipX, flipY) && r.end == FlipPoint(l.end, flipX, flipY)
    ensures r.color == l.color && r.blanked == l.blanked
  {
    var x := if flipX then FlipXData(l) else l;
    if flipY then FlipYData(x) else x
  }

  /** Mirroring twice gives the line back. */
  lemma FlipLineInvolution(l: LineData, flipX: bool, flipY: bool)
    ensures FlipLine(FlipLine(l, flipX, flipY), flipX, flipY) == l
  {
    FlipsAreInvolutions(l);
    FlipsCommute(l);
  }

  function FlipLines(ls: seq<LineData>, flipX: bool, flipY: bool): (r: seq<LineData>)
    ensures |r| == |ls|
  {
    seq(|ls|, k requires 0 <= k < |ls| => FlipLine(ls[k], flipX, flipY))
  }

  /** The shape of an assembled frame: empty, or a copy of the first line followed by chained lines; all inside the square. */
  predicate Framed(ls: seq<LineData>) {
    && (|ls| == 0 || (1 < |ls| && ls[0] == ls[1] && Chained(ls[1..])))
    && AllInSquare(ls)
  }

  /** The zone test as it applies to mirrored lines: a line is hit when its mirror image is. */
  function MirroredTest(hits: LineData -> bool, flipX: bool, flipY: bool): LineData -> bool {
    l => hits(FlipLine(l, flipX, flipY))
  }

  /**
   * Mirroring keeps a frame's shape and its blanking, and the lines drawn
   * after mirroring avoid the mirror images of the zones: the zones are
   * applied before the flip.
   */
  lemma FlipKeepsFramed(ls: seq<LineData>, flipX: bool, flipY: bool, hits: LineData -> bool)
    ensures Framed(ls) ==> Framed(FlipLines(ls, flipX, flipY))
    ensures DrawnLinesClear(hits, ls) ==> DrawnLinesClear(MirroredTest(hits, flipX, flipY), FlipLines(ls, flipX, flipY))
  {
    var r := FlipLines(ls, flipX, flipY);
    if Framed(ls) && 0 < |ls| {
      forall k | 1 < k < |r|
        ensures r[k - 1].end == r[k].start
      {
        assert ls[1..][k - 2].end == ls[1..][k - 1].start;
      }
      assert r[0] == r[1];
    }
    if DrawnLinesClear(hits, ls) {
      forall k | 0 <= k < |r| && !r[k].blanked
        ensures !MirroredTest(hits, flipX, flipY)(r[k])
      {
        FlipLineInvolution(ls[k], flipX, flipY);
      }
    }
  }

  // ---------------------------------------------------------------------
  // The render lines of every animation

  predicate FramesRenderable(frames: seq<FrameData>) {
    forall i :: 0 <= i < |frames| ==> AllRenderable(frames[i].shapes)
  }

  /** `_compute_render_lines_for_frame` on each frame of an animation. */
  function FrameResults(m: MathFns, zones: seq<Zone>, frames: seq<FrameData>): (r: seq<Result<seq<LineData>, Error>>)
    requires ZonesWellFormed(zones) && FramesRenderable(frames)
    ensures |r| == |frames|
  {
    seq(|frames|, i requires 0 <= i < |frames| => FrameLines(m, zones, frames[i]))
  }

  /** The lines of one animation: every frame's lines, mirrored, or the first frame's error. */
  function AnimationLines(m: MathFns, zones: seq<Zone>, flipX: bool, flipY: bool, frames: seq<FrameData>)
    : Result<seq<seq<LineData>>, Error>
    requires ZonesWellFormed(zones) && FramesRenderable(frames)
  {
    var c := Collect(FrameResults(m, zones, frames));
    if c.Err? then Err(c.error) else Ok(Flipped(c.value, flipX, flipY))
  }

  /** The flip loops of lines 169-177 over every frame of an animation. */
  function Flipped(frames: seq<seq<LineData>>, flipX: bool, flipY: bool): (r: seq<seq<LineData>>)
    ensures |r| == |frames|
  {
    seq(|frames|, i requires 0 <= i < |frames| => FlipLines(frames[i], flipX, flipY))
  }

  predicate AllFramesRenderable(anims: seq<seq<FrameData>>) {
    forall a :: 0 <= a < |anims| ==> FramesRenderable(anims[a])
  }

  /** `_compute_render_lines(animations)`: animation by animation, the first error stops it. */
  function RenderAll(m: MathFns, zones: seq<Zone>, flipX: bool, flipY: bool, anims: seq<seq<FrameData>>)
    : Result<seq<seq<seq<LineData>>>, Error>
    requires ZonesWellFormed(zones) && AllFramesRenderable(anims)
  {
    Collect(AnimationResults(m, zones, flipX, flipY, anims))
  }

  function AnimationResults(m: MathFns, zones: seq<Zone>, flipX: bool, flipY: bool, anims: seq<seq<FrameData>>)
    : (r: seq<Result<seq<seq<LineData>>, Error>>)
    requires ZonesWellFormed(zones) && AllFramesRenderable(anims)
    ensures |r| == |anims|
  {
    seq(|anims|, a requires 0 <= a < |anims| => AnimationLines(m, zones, flipX, flipY, anims[a]))
  }

  /** The settings `_write_file` reads. */
  function WriterSettings(c: Config): Settings {
    Settings(c.startTs, c.frameNames, c.companyName, c.fps, c.projectorNumber, c.legacyMode)
  }

  /** The lines of every frame of every animation the factory computes. */
  function RenderedOf(m: MathFns, c: Config): Result<seq<seq<seq<LineData>>>, Error>
    requires Fillable(c)
  {
    RenderAll(m, Zones(c.zones), c.flipX, c.flipY, Animations(c))
  }

  /** `run()`: the bytes of the ILDX file, or the error that stops it. */
  function RunOf(m: MathFns, c: Config): Result<seq<Byte>, Error>
    requires Fillable(c) && NamesFormatted(WriterSettings(c))
  {
    var lines := RenderedOf(m, c);
    if lines.Err? then Err(lines.error) else EncodeFile(WriterSettings(c), lines.value)
  }

  /**
   * Collecting frame results and mirroring them: each frame's lines are its
   * result mirrored, and whatever each result guaranteed about its shape
   * and its drawn lines holds of the mirrored lines.
   */
  lemma FlippedCollect(rs: seq<Result<seq<LineData>, Error>>, clear: seq<bool>, hits: LineData -> bool,
                       flipX: bool, flipY: bool)
    requires |clear| == |rs|
    requires forall i :: 0 <= i < |rs| && rs[i].Ok? ==>
      Framed(rs[i].value) && (clear[i] ==> DrawnLinesClear(hits, rs[i].value))
    ensures var c := Collect(rs);
      c.Ok? ==>
        var r := Flipped(c.value, flipX, flipY);
        && |r| == |rs|
        && forall i :: 0 <= i < |r| ==>
             && rs[i] == Ok(c.value[i])
             && r[i] == FlipLines(c.value[i], flipX, flipY)
             && Framed(r[i])
             && (clear[i] ==> DrawnLinesClear(MirroredTest(hits, flipX, flipY), r[i]))
  {
    CollectSpec(rs);
    var c := Collect(rs);
    if c.Ok? {
      forall i | 0 <= i < |rs|
        ensures Framed(FlipLines(c.value[i], flipX, flipY))
        ensures clear[i] ==> DrawnLinesClear(MirroredTest(hits, flipX, flipY), FlipLines(c.value[i], flipX, flipY))
      {
        FlipKeepsFramed(c.value[i], flipX, flipY, hits);
      }
    }
  }

  /**
   * The lines of an animation: an error exactly when some frame's assembly
   * fails, the first such frame's error; otherwise one list per frame, the
   * frame's assembled lines mirrored, each framed, with the drawn lines of a
   * frame without exclusion shapes clear of the mirrored zones.
   */
  lemma AnimationLinesSpec(m: MathFns, zones: seq<Zone>, flipX: bool, flipY: bool, frames: seq<FrameData>)
    requires ZonesWellFormed(zones) && FramesRenderable(frames)
    ensures var r := AnimationLines(m, zones, flipX, flipY, frames);
      var rs := FrameResults(m, zones, frames);
      && (r.Err? <==> SomeFails(rs, 0))
      && (r.Err? ==> exists i :: 0 <= i < |frames| && rs[i] == Err(r.error) && forall j :: 0 <= j < i ==> rs[j].Ok?)
      && (r.Ok? ==>
            && |r.value| == |frames|
            && forall i :: 0 <= i < |frames| ==>
                 && rs[i].Ok? && r.value[i] == FlipLines(rs[i].value, flipX, flipY)
                 && Framed(r.value[i])
                 && (NoneExcluded(Flags(frames[i].shapes)) ==>
                       DrawnLinesClear(MirroredTest(ZoneTest(m, zones), flipX, flipY), r.value[i])))
  {
    var rs := FrameResults(m, zones, frames);
    var clear := seq(|frames|, i requires 0 <= i < |frames| => NoneExcluded(Flags(frames[i].shapes)));
    forall i | 0 <= i < |rs| && rs[i].Ok?
      ensures Framed(rs[i].value) && (clear[i] ==> DrawnLinesClear(ZoneTest(m, zones), rs[i].value))
    {
      FrameLinesSpec(m, zones, frames[i]);
    }
    CollectSpec(rs);
    FlippedCollect(rs, clear, ZoneTest(m, zones), flipX, flipY);
  }

  /** No factory function ever hands over an exclusion shape. */
  ghost predicate NoExclusionsHanded(c: Config) {
    forall a, f :: 0 <= a < |c.populates| ==> NoneExcluded(Flags(c.populates[a](f)))
  }

  /** The lines of all animations are an error exactly when the assembly of some frame fails. */
  lemma RenderedFails(m: MathFns, c: Config)
    requires Fillable(c)
    ensures var anims := Animations(c);
      RenderedOf(m, c).Err? <==>
        exists a :: 0 <= a < |anims| && SomeFails(FrameResults(m, Zones(c.zones), anims[a]), 0)
  {
    var anims := Animations(c);
    var zones := Zones(c.zones);
    var results := AnimationResults(m, zones, c.flipX, c.flipY, anims);
    forall a | 0 <= a < |anims|
      ensures results[a].Err? <==> SomeFails(FrameResults(m, zones, anims[a]), 0)
    {
      AnimationLinesSpec(m, zones, c.flipX, c.flipY, anims[a]);
    }
    CollectSpec(results);
  }

  /**
   * Otherwise there is one list per animation, as many frames as the
   * animation's rate and duration give, every frame's lines framed.
   */
  lemma RenderedShape(m: MathFns, c: Config)
    requires Fillable(c)
    ensures var r := RenderedOf(m, c);
      r.Ok? ==>
        && |r.value| == AnimationCount(c)
        && forall a :: 0 <= a < |r.value| ==>
             && |r.value[a]| == FrameCount(c.fps, c.durations[a])
             && forall i :: 0 <= i < |r.value[a]| ==> Framed(r.value[a][i])
  {
    var anims := Animations(c);
    var zones := Zones(c.zones);
    var results := AnimationResults(m, zones, c.flipX, c.flipY, anims);
    CollectSpec(results);
    forall a | 0 <= a < |anims| && results[a].Ok?
      ensures |results[a].value| == |anims[a]|
      ensures forall i :: 0 <= i < |anims[a]| ==> Framed(results[a].value[i])
    {
      AnimationLinesSpec(m, zones, c.flipX, c.flipY, anims[a]);
    }
  }

  /**
   * When no exclusion shape is ever added (the zones are not shown and no
   * factory function hands one over), every line drawn is clear of the
   * mirrored zones.
   */
  lemma RenderedClear(m: MathFns, c: Config)
    requires Fillable(c) && !c.showZones && NoExclusionsHanded(c)
    ensures var r := RenderedOf(m, c);
      r.Ok? ==>
        forall a, i :: 0 <= a < |r.value| && 0 <= i < |r.value[a]| ==>
          DrawnLinesClear(MirroredTest(ZoneTest(m, Zones(c.zones)), c.flipX, c.flipY), r.value[a][i])
  {
    var anims := Animations(c);
    var zones := Zones(c.zones);
    var results := AnimationResults(m, zones, c.flipX, c.flipY, anims);
    CollectSpec(results);
    forall a | 0 <= a < |anims| && results[a].Ok?
      ensures forall i :: 0 <= i < |results[a].value| ==>
        DrawnLinesClear(MirroredTest(ZoneTest(m, zones), c.flipX, c.flipY), results[a].value[i])
    {
      AnimationLinesSpec(m, zones, c.flipX, c.flipY, anims[a]);
      NoExclusionShapes(c, a);
    }
  }

  /** Without shown zones, and with factory functions that hand over none, no frame holds an exclusion shape. */
  lemma NoExclusionShapes(c: Config, a: nat)
    requires Fillable(c) && !c.showZones && NoExclusionsHanded(c)
    requires a < AnimationCount(c)
    ensures forall i :: 0 <= i < |Animations(c)[a]| ==> NoneExcluded(Flags(Animations(c)[a][i].shapes))
  {
    var frames := Animations(c)[a];
    forall i | 0 <= i < |frames|
      ensures NoneExcluded(Flags(frames[i].shapes))
    {
      var e := EmptyFrame(c.startTs[a] as real, i, c.fps, c.durations[a], c.pointDensity);
      assert frames[i] == Filled(c.populates[a], c.zones, c.showZones, e);
      FilledSpec(c.populates[a], c.zones, c.showZones, e);
    }
  }

  // ---------------------------------------------------------------------
  // The whole run

  /** The frames of the first n animations, as their rates and durations give them. */
  function TotalFrames(c: Config, n: nat): nat
    requires n <= |c.durations|
  {
    if n == 0 then 0 else TotalFrames(c, n - 1) + FrameCount(c.fps, c.durations[n - 1])
  }

  lemma {:induction false} FramesBeforeTotal(anims: seq<seq<seq<LineData>>>, c: Config, n: nat)
    requires n <= |anims| <= |c.durations|
    requires forall a :: 0 <= a < |anims| ==> |anims[a]| == FrameCount(c.fps, c.durations[a])
    ensures FramesBefore(anims, n) == TotalFrames(c, n)
  {
    if n > 0 {
      FramesBeforeTotal(anims, c, n - 1);
    }
  }

  /**
   * `run()`: when every frame assembles, the file fails exactly when the
   * header fields of some animation with frames cannot be encoded;
   * otherwise it holds a header per frame of every animation, a record per
   * render line and the terminating header at its end.
   */
  lemma RunSpec(m: MathFns, c: Config)
    requires Fillable(c) && NamesFormatted(WriterSettings(c))
    ensures var lines := RenderedOf(m, c);
      var r := RunOf(m, c);
      && (lines.Err? ==> r == Err(lines.error))
      && (lines.Ok? ==>
            (r.Err? <==> exists a :: 0 <= a < AnimationCount(c) && 0 < FrameCount(c.fps, c.durations[a])
                                    && SharedFields(WriterSettings(c), a).Err?))
      && (r.Ok? ==>
            && lines.Ok?
            && |r.value| == HEADER_SIZE * (TotalFrames(c, AnimationCount(c)) + 1)
                            + RECORD_SIZE * LinesBefore(lines.value, |lines.value|)
            && r.value[|r.value| - HEADER_SIZE..] == EncodeHeader(Terminator()))
  {
    var lines := RenderedOf(m, c);
    if lines.Ok? {
      RenderedShape(m, c);
      EncodeFileSpec(WriterSettings(c), lines.value);
      FramesBeforeTotal(lines.value, c, |lines.value|);
    }
  }

  // ---------------------------------------------------------------------
  // The loops

  /** `FillFrame.__call__(frame)`: the factory function's shapes, then the zone loop of lines 27-29. */
  method FillFrame(populate: Populate, entries: seq<ZoneEntry>, show: bool, f: FrameData) returns (g: FrameData)
    requires AllRenderable(populate(f)) && ZoneShapesRenderable(entries)
    ensures g == Filled(populate, entries, show, f)
  {
    var shapes := f.shapes + AddAll(populate(f), f.pointDensity);
    if show {
      var base := shapes;
      for j := 0 to |entries|
        invariant shapes == base + ZoneCopies(entries[..j], f.pointDensity)
      {
        shapes := shapes + [PlacedState(CopiedState(entries[j].shape, f.pointDensity), true)];
        assert ZoneCopies(entries[..j + 1], f.pointDensity)
          == ZoneCopies(entries[..j], f.pointDensity) + [PlacedState(CopiedState(entries[j].shape, f.pointDensity), true)];
      }
      assert entries[..|entries|] == entries;
    }
    g := f.(shapes := shapes);
  }

  /** `_compute_frames()`: frame i of each animation at i / fps seconds, filled by the animation's function. */
  method ComputeFrames(c: Config) returns (anims: seq<seq<FrameData>>)
    requires Fillable(c)
    ensures anims == Animations(c)
  {
    anims := [];
    for a := 0 to AnimationCount(c)
      invariant |anims| == a && forall b :: 0 <= b < a ==> anims[b] == AnimationFrames(c, b)
    {
      var frames := ComputeAnimationFrames(c, a);
      anims := anims + [frames];
    }
  }

  /** The frames of one animation, built and filled one at a time. */
  method ComputeAnimationFrames(c: Config, a: nat) returns (frames: seq<FrameData>)
    requires Fillable(c) && a < AnimationCount(c)
    ensures frames == AnimationFrames(c, a)
  {
    var startT, duration := c.startTs[a] as real, c.durations[a];
    var count := FrameCount(c.fps, duration);
    frames := [];
    for i := 0 to count
      invariant |frames| == i && forall j :: 0 <= j < i ==> frames[j] == AnimationFrames(c, a)[j]
    {
      var empty := FrameData(startT, startT + i as real / c.fps as real, c.fps as real, duration, c.pointDensity, []);
      assert empty == EmptyFrame(startT, i, c.fps, duration, c.pointDensity);
      var filled := FillFrame(c.populates[a], c.zones, c.showZones, empty);
      frames := frames + [filled];
    }
  }

  /** `_compute_render_lines(animations)`. */
  method ComputeRenderLines(m: MathFns, zones: seq<Zone>, flipX: bool, flipY: bool, anims: seq<seq<FrameData>>)
    returns (r: Result<seq<seq<seq<LineData>>>, Error>)
    requires ZonesWellFormed(zones) && AllFramesRenderable(anims)
    ensures r == RenderAll(m, zones, flipX, flipY, anims)
  {
    var all: seq<seq<seq<LineData>>> := [];
    ghost var results := AnimationResults(m, zones, flipX, flipY, anims);
    for a := 0 to |anims|
      invariant Collect(results[..a]) == Ok(all)
    {
      var lines := AnimationRenderLines(m, zones, flipX, flipY, anims[a]);
      assert results[a] == lines;
      CollectStep(results, a, all);
      if lines.Err? {
        return Err(lines.error);
      }
      all := all + [lines.value];
    }
    assert results[..|anims|] == results;
    r := Ok(all);
  }

  /** One animation: each frame's lines in order, then the flip loops. */
  method AnimationRenderLines(m: MathFns, zones: seq<Zone>, flipX: bool, flipY: bool, frames: seq<FrameData>)
    returns (r: Result<seq<seq<LineData>>, Error>)
    requires ZonesWellFormed(zones) && FramesRenderable(frames)
    ensures r == AnimationLines(m, zones, flipX, flipY, frames)
  {
    var lines: seq<seq<LineData>> := [];
    ghost var rs := FrameResults(m, zones, frames);
    for i := 0 to |frames|
      invariant Collect(rs[..i]) == Ok(lines)
    {
      var frameLines := ComputeRenderLinesForFrame(m, zones, frames[i]);
      assert rs[i] == frameLines;
      CollectStep(rs, i, lines);
      if frameLines.Err? {
        return Err(frameLines.error);
      }
      lines := lines + [frameLines.value];
    }
    assert rs[..|frames|] == rs;
    var flipped := FlipPasses(lines, flipX, flipY);
    r := Ok(flipped);
  }

  /** The loops of lines 169-177: every line flipped in x, then every line flipped in y. */
  method FlipPasses(frames: seq<seq<LineData>>, flipX: bool, flipY: bool) returns (r: seq<seq<LineData>>)
    ensures r == Flipped(frames, flipX, flipY)
  {
    r := frames;
    if flipX {
      r := MapLines(r, FlipXData);
    }
    ghost var afterX := r;
    if flipY {
      r := MapLines(r, FlipYData);
    }
    forall i | 0 <= i < |frames|
      ensures r[i] == FlipLines(frames[i], flipX, flipY)
    {
      assert |r[i]| == |frames[i]|;
      forall k | 0 <= k < |frames[i]|
        ensures r[i][k] == FlipLine(frames[i][k], flipX, flipY)
      {
        assert afterX[i][k] == if flipX then FlipXData(frames[i][k]) else frames[i][k];
      }
    }
  }

  /** One flip loop: `f` applied to every line of every frame. */
  method MapLines(frames: seq<seq<LineData>>, f: LineData -> LineData) returns (r: seq<seq<LineData>>)
    ensures |r| == |frames|
    ensures forall i :: 0 <= i < |frames| ==>
      |r[i]| == |frames[i]| && forall k :: 0 <= k < |frames[i]| ==> r[i][k] == f(frames[i][k])
  {
    r := [];
    for i := 0 to |frames|
      invariant |r| == i
      invariant forall j :: 0 <= j < i ==> |r[j]| == |frames[j]| && forall k :: 0 <= k < |frames[j]| ==> r[j][k] == f(frames[j][k])
    {
      var frame: seq<LineData> := [];
      for k := 0 to |frames[i]|
        invariant |frame| == k && forall l :: 0 <= l < k ==> frame[l] == f(frames[i][l])
      {
        frame := frame + [f(frames[i][k])];
      }
      r := r + [frame];
    }
  }

  // ---------------------------------------------------------------------
  // The factory object

  /** A constructor argument that may be one value or a list of them. */
  datatype OneOrMany<T> = One(item: T) | Many(items: seq<T>)

  /** `x if isinstance(x, list) else [x]`. */
  function AsList<T>(x: OneOrMany<T>): seq<T> {
    match x
    case One(item) => [item]
    case Many(items) => items
  }

  /** The frame names the constructor keeps: each given name formatted, then blank names up to `count`. */
  function FormattedNames(names: seq<string>, count: nat): (r: seq<string>)
    ensures |r| == if |names| < count then count else |names|
    ensures forall k :: 0 <= k < |r| ==> |r[k]| == NAME_LENGTH
    ensures forall k :: 0 <= k < |names| ==> r[k] == FormatName(names[k])
    ensures forall k :: |names| <= k < |r| ==> r[k] == FormatName("")
  {
    var given := seq(|names|, k requires 0 <= k < |names| => FormatName(names[k]));
    if |names| < count then given + seq(count - |names|, k => FormatName("")) else given
  }

  /** The IldxFactory object of laser/ildx_factory.py. */
  class IldxFactory {
    const fps: int
    const startTs: seq<int>
    const durations: seq<real>
    const populates: seq<Populate>
    const filename: string
    const pointDensity: real
    const showZones: bool
    const flipX: bool
    const flipY: bool
    const frameNames: seq<string>
    const companyName: string
    const projectorNumber: int
    const legacyMode: bool
    var zones: seq<ZoneEntry>

    /** What the constructor establishes: formatted names, and a frame name for every duration. */
    predicate Valid() {
      && |companyName| == NAME_LENGTH
      && (forall k :: 0 <= k < |frameNames| ==> |frameNames[k]| == NAME_LENGTH)
      && |durations| <= |frameNames|
    }

    /** What a run reads of the factory. */
    function Snapshot(): Config
      reads this
    {
      Config(fps, startTs, durations, populates, pointDensity, showZones, flipX, flipY,
             frameNames, companyName, projectorNumber, legacyMode, zones)
    }

    /** `IldxFactory.__init__`: lists kept as given, names formatted, no zones yet. */
    constructor (fps: int, startTs: OneOrMany<int>, durations: OneOrMany<real>, populates: OneOrMany<Populate>,
                 filename: string, pointDensity: real, showZones: bool, flipX: bool, flipY: bool,
                 frameNames: OneOrMany<string>, companyName: string, projectorNumber: int, legacyMode: bool)
      ensures Valid()
      ensures this.fps == fps && this.startTs == AsList(startTs) && this.durations == AsList(durations)
      ensures this.populates == AsList(populates) && this.filename == filename && this.pointDensity == pointDensity
      ensures this.showZones == showZones && this.flipX == flipX && this.flipY == flipY
      ensures this.frameNames == FormattedNames(AsList(frameNames), |AsList(durations)|)
      ensures this.companyName == FormatName(companyName)
      ensures this.projectorNumber == projectorNumber && this.legacyMode == legacyMode
      ensures zones == []
    {
      var ds := AsList(durations);
      var given := AsList(frameNames);
      var names: seq<string> := [];
      for k := 0 to |given|
        invariant |names| == k && forall j :: 0 <= j < k ==> names[j] == FormatName(given[j])
      {
        names := names + [FormatName(given[k])];
      }
      while |names| < |ds|
        invariant |given| <= |names|
        invariant forall j :: 0 <= j < |given| ==> names[j] == FormatName(given[j])
        invariant forall j :: |given| <= j < |names| ==> names[j] == FormatName("")
        invariant |names| <= |ds| || |names| == |given|
        decreases |ds| - |names|
      {
        names := names + [FormatName("")];
      }
      this.fps := fps;
      this.durations := ds;
      this.startTs := AsList(startTs);
      this.populates := AsList(populates);
      this.filename := filename;
      this.pointDensity := pointDensity;
      this.showZones := showZones;
      this.flipX := flipX;
      this.flipY := flipY;
      this.frameNames := names;
      this.companyName := FormatName(companyName);
      this.projectorNumber := projectorNumber;
      this.legacyMode := legacyMode;
      zones := [];
    }

    /** `add_exclusion_zone(shape, inside)`: the shape and its flag go to the end of the zone list. */
    method AddExclusionZone(shape: Shape, inside: bool)
      modifies this
      ensures zones == old(zones) + [ZoneEntry(shape.State(), inside)]
    {
      zones := zones + [ZoneEntry(shape.State(), inside)];
    }

    /** `run()`: the frames, their lines, then the file's bytes (or the error that stops the run). */
    method Run(m: MathFns) returns (r: Result<seq<Byte>, Error>)
      requires Valid() && Fillable(Snapshot())
      ensures r == RunOf(m, Snapshot())
    {
      var c := Snapshot();
      var anims := ComputeFrames(c);
      var lines := ComputeRenderLines(m, Zones(c.zones), c.flipX, c.flipY, anims);
      if lines.Err? {
        return Err(lines.error);
      }
      r := WriteFile(WriterSettings(c), lines.value);
    }
  }
}
