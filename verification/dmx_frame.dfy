/**
 * dmx/frame.py: one frame of the DMX track. Its timing is fixed at
 * construction; the show's frame function appends the (channel, byte)
 * pairs it sets, in order.
 */
module DmxFrames {
  import opened Wrappers
  import opened Errors
  import opened Numeric
  import Frames

  class Frame {
    const startT: real
    const t: real
    const fps: real
    const duration: real
    var channelValues: seq<(int, int)>

    /** `Frame(start_t, t, fps, duration)`: no channel values yet. */
    constructor (startT: real, t: real, fps: real, duration: real)
      ensures this.startT == startT && this.t == t && this.fps == fps && this.duration == duration
      ensures channelValues == []
    {
      this.startT := startT;
      this.t := t;
      this.fps := fps;
      this.duration := duration;
      channelValues := [];
    }

    /** `rel_t`: the time since the animation started. */
    function RelT(): (r: real)
      ensures startT + r == t
    {
      t - startT
    }

    /** `progress`: the elapsed time as a fraction of the duration. */
    function Progress(): (r: Result<real, Error>)
      ensures r.Err? <==> duration == 0.0
      ensures r.Err? ==> r.error == ZeroDivisionError
      ensures r.Ok? ==> r.value * duration == RelT()
    {
      Frames.ProgressOf(startT, t, duration)
    }

    /** `index`: the elapsed time in frames, truncated toward zero. */
    function Index(): (r: int)
      ensures 0.0 <= RelT() * fps ==> r as real <= RelT() * fps < r as real + 1.0
      ensures RelT() * fps < 0.0 ==> r as real - 1.0 < RelT() * fps <= r as real
    {
      var x := RelT() * fps;
      assert x == (t - startT) * fps;
      Frames.IndexOf(startT, t, fps)
    }

    /** `total_frames`: the duration in frames, truncated toward zero. */
    function TotalFrames(): (r: int)
      ensures 0.0 <= duration * fps ==> 0 <= r && r as real <= duration * fps < r as real + 1.0
    {
      Trunc(duration * fps)
    }

    /** `add_value(channel_value)`: appended, never merged with an earlier pair. */
    method AddValue(channelValue: (int, int))
      modifies this
      ensures channelValues == old(channelValues) + [channelValue]
    {
      channelValues := channelValues + [channelValue];
    }

    /** `frame += channel_value`: `add_value`, and the same frame back. */
    method AddAssign(channelValue: (int, int)) returns (f: Frame)
      modifies this
      ensures f == this
      ensures channelValues == old(channelValues) + [channelValue]
    {
      AddValue(channelValue);
      f := this;
    }
  }

  /**
   * A frame of a positive duration whose index lies below `total_frames` has
   * a progress in [0, 1): the truncated frame count never covers the end of
   * the animation.
   */
  lemma IndexBelowTotal(f: Frame)
    requires 0.0 < f.fps && 0.0 < f.duration && 0.0 <= f.RelT() && f.Index() < f.TotalFrames()
    ensures f.Progress().Ok? && 0.0 <= f.Progress().value < 1.0
  {
    var rel, d, fps := f.RelT(), f.duration, f.fps;
    assert f.Index() == Frames.IndexOf(f.startT, f.t, fps) == Trunc(rel * fps);
    assert f.TotalFrames() == Trunc(d * fps);
    RatioBelowOne(rel, d, fps, f.Progress().value);
  }

  /** A smaller truncation of a non-negative value means a smaller value. */
  lemma TruncBelow(x: real, y: real)
    requires 0.0 <= x && Trunc(x) < Trunc(y)
    ensures x < y
  {
  }

  /** rel / d lies in [0, 1) when rel is non-negative and below d in whole frames. */
  lemma RatioBelowOne(rel: real, d: real, fps: real, p: real)
    requires 0.0 < fps && 0.0 < d && 0.0 <= rel && Trunc(rel * fps) < Trunc(d * fps) && p * d == rel
    ensures 0.0 <= p < 1.0
  {
    MulNonnegative(rel, fps);
    TruncBelow(rel * fps, d * fps);
    Distribute(fps, d, rel, d - rel);
    PositiveFactor(d - rel, fps);
    NonnegativeFactor(p, d);
    Distribute(d, 1.0, p, 1.0 - p);
    PositiveFactor(1.0 - p, d);
  }
}
