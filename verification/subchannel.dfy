/**
 * dmx/subchannel.py: a named sub-range [min, max] of one DMX channel. A
 * subchannel turns a level in [0, 1] into a byte of its range and hands it
 * to its channel's callback, which pairs it with the channel's index. The
 * callback is always the owning channel's `_value_changed`, so the model
 * keeps the channel's index in place of the callback.
 */
module Subchannels {
  import opened Wrappers
  import opened Errors
  import opened Numeric

  datatype Kind = Continuous | Category

  datatype Subchannel = Subchannel(name: string, minValue: int, maxValue: int, channel: int, kind: Kind)

  /** y lies between a and b, whichever of them is larger. */
  predicate Between(y: real, a: real, b: real) {
    Numeric.Min(a, b) <= y <= Numeric.Max(a, b)
  }

  /** `max(0, min(1, value))`. */
  function Clamp01(v: real): (r: real)
    ensures 0.0 <= r <= 1.0
    ensures 0.0 <= v <= 1.0 ==> r == v
    ensures v < 0.0 ==> r == 0.0
    ensures 1.0 < v ==> r == 1.0
  {
    if v < 0.0 then 0.0 else if 1.0 < v then 1.0 else v
  }

  /** The clamped level scaled onto the range: `min + clamp(v) * (max - min)`. */
  function Scaled(s: Subchannel, v: real): (x: real)
    ensures Between(x, s.minValue as real, s.maxValue as real)
  {
    Convex(Clamp01(v), s.minValue as real, s.maxValue as real);
    s.minValue as real + Clamp01(v) * (s.maxValue - s.minValue) as real
  }

  /** The byte `set_value` computes: the scaled level truncated toward zero. */
  function Level(s: Subchannel, v: real): (r: int)
    ensures s.minValue <= s.maxValue ==> s.minValue <= r <= s.maxValue
    ensures s.maxValue <= s.minValue ==> s.maxValue <= r <= s.minValue
    ensures v <= 0.0 ==> r == s.minValue
    ensures 1.0 <= v ==> r == s.maxValue
  {
    TruncBetween(Scaled(s, v), s.minValue, s.maxValue);
    Trunc(Scaled(s, v))
  }

  /** A convex combination of a and b lies between them. */
  lemma Convex(p: real, a: real, b: real)
    requires 0.0 <= p <= 1.0
    ensures Between(a + p * (b - a), a, b)
    ensures p * b + (1.0 - p) * a == a + p * (b - a)
  {
    if a <= b {
      MulNonnegative(p, b - a);
      MulNonnegative(1.0 - p, b - a);
    } else {
      MulNonnegative(p, a - b);
      MulNonnegative(1.0 - p, a - b);
    }
  }

  /** Truncation toward zero keeps a value between two integers between them. */
  lemma TruncBetween(x: real, a: int, b: int)
    requires Between(x, a as real, b as real)
    ensures a <= b ==> a <= Trunc(x) <= b
    ensures b <= a ==> b <= Trunc(x) <= a
  {
  }

  /**
   * `set_value(value)`: the clamped level scaled into [min, max] and handed to
   * the callback, which answers (channel index, byte).
   */
  function SetValue(s: Subchannel, v: real): (r: (int, int))
    ensures r.0 == s.channel
    ensures s.minValue <= s.maxValue ==> s.minValue <= r.1 <= s.maxValue
    ensures v <= 0.0 ==> r.1 == s.minValue
    ensures 1.0 <= v ==> r.1 == s.maxValue
  {
    (s.channel, Level(s, v))
  }

  /** A higher level never gives a lower byte on an ascending range. */
  lemma SetValueMonotone(s: Subchannel, v: real, w: real)
    requires s.minValue <= s.maxValue && v <= w
    ensures SetValue(s, v).1 <= SetValue(s, w).1
  {
    ScaledMonotone(s, Clamp01(v), Clamp01(w));
    assert Scaled(s, Clamp01(v)) == Scaled(s, v) && Scaled(s, Clamp01(w)) == Scaled(s, w);
    TruncMonotone(Scaled(s, v), Scaled(s, w));
  }

  lemma ScaledMonotone(s: Subchannel, cv: real, cw: real)
    requires s.minValue <= s.maxValue && 0.0 <= cv <= cw <= 1.0
    ensures Scaled(s, cv) <= Scaled(s, cw)
  {
    var d := (s.maxValue - s.minValue) as real;
    MulNonnegative(cw - cv, d);
  }

  lemma TruncMonotone(x: real, y: real)
    requires x <= y
    ensures Trunc(x) <= Trunc(y)
  {
  }

  /** `zero()`: the bottom of the range. */
  function Zero(s: Subchannel): (r: (int, int))
    ensures r == (s.channel, s.minValue)
  {
    SetValue(s, 0.0)
  }

  /** `max()`: the top of the range. */
  function Max(s: Subchannel): (r: (int, int))
    ensures r == (s.channel, s.maxValue)
  {
    SetValue(s, 1.0)
  }

  /**
   * `CategorySubchannel.activate()` (and calling the subchannel): the level
   * one half, which is the middle of the range truncated toward zero.
   */
  function Activate(s: Subchannel): (r: (int, int))
    ensures r == (s.channel, Trunc((s.minValue + s.maxValue) as real / 2.0))
  {
    SetValue(s, 0.5)
  }

  /**
   * The level `lerp` hands to `set_value`: the start value before the window,
   * the end value after it, and the linear blend inside it. Inside the window
   * the progress divides by `end_t - start_t`, which fails when the window is
   * the single instant t.
   */
  function LerpLevel(t: real, startT: real, endT: real, startValue: real, endValue: real): (r: Result<real, Error>)
    ensures r.Err? <==> startT == t == endT
    ensures r.Err? ==> r.error == ZeroDivisionError
    ensures t < startT ==> r == Ok(startValue)
    ensures startT <= t && endT < t ==> r == Ok(endValue)
    ensures startT < endT && t == startT ==> r == Ok(startValue)
    ensures startT < endT && t == endT ==> r == Ok(endValue)
    ensures r.Ok? ==> Between(r.value, startValue, endValue)
  {
    if t < startT then Ok(startValue)
    else if t > endT then Ok(endValue)
    else if endT - startT == 0.0 then Err(ZeroDivisionError)
    else
      var p := Progress(t, startT, endT);
      Convex(p, startValue, endValue);
      var y := p * endValue + (1.0 - p) * startValue;
      assert p == 0.0 ==> y == startValue;
      assert p == 1.0 ==> y == endValue;
      Ok(y)
  }

  /** `(t - start_t) / (end_t - start_t)` inside a non-empty window. */
  function Progress(t: real, startT: real, endT: real): (p: real)
    requires startT <= t <= endT && startT < endT
    ensures 0.0 <= p <= 1.0
    ensures t == startT ==> p == 0.0
    ensures t == endT ==> p == 1.0
    ensures p * (endT - startT) == t - startT
  {
    var n, d := t - startT, endT - startT;
    var p := n / d;
    assert p * d == n;
    assert 0.0 <= p by {
      if p < 0.0 {
        MulPositive(-p, d);
      }
    }
    assert p <= 1.0 by {
      if 1.0 < p {
        MulPositive(p - 1.0, d);
      }
    }
    p
  }

  /** `lerp(t, start_t, end_t, start_value, end_value)`. */
  function Lerp(s: Subchannel, t: real, startT: real, endT: real, startValue: real, endValue: real): (r: Result<(int, int), Error>)
    ensures r.Err? <==> startT == t == endT
    ensures r.Ok? ==> r.value.0 == s.channel
    ensures t < startT ==> r == Ok(SetValue(s, startValue))
    ensures startT <= t && endT < t ==> r == Ok(SetValue(s, endValue))
    ensures startT < endT && t == startT ==> r == Ok(SetValue(s, startValue))
    ensures startT < endT && t == endT ==> r == Ok(SetValue(s, endValue))
  {
    match LerpLevel(t, startT, endT, startValue, endValue)
    case Err(e) => Err(e)
    case Ok(y) => Ok(SetValue(s, y))
  }

  /**
   * The level `smooth` hands to `set_value`: like `lerp` outside the window,
   * and `(end - start) * progress^2 + start` inside it.
   */
  function SmoothLevel(t: real, startT: real, endT: real, startValue: real, endValue: real): (r: Result<real, Error>)
    ensures r.Err? <==> startT == t == endT
    ensures r.Err? ==> r.error == ZeroDivisionError
    ensures t < startT ==> r == Ok(startValue)
    ensures startT <= t && endT < t ==> r == Ok(endValue)
    ensures startT < endT && t == startT ==> r == Ok(startValue)
    ensures startT < endT && t == endT ==> r == Ok(endValue)
    ensures r.Ok? ==> Between(r.value, startValue, endValue)
  {
    if t < startT then Ok(startValue)
    else if t > endT then Ok(endValue)
    else if endT - startT == 0.0 then Err(ZeroDivisionError)
    else
      var p := Progress(t, startT, endT);
      var q := p * p;
      SquareInUnit(p);
      Convex(q, startValue, endValue);
      var y := (endValue - startValue) * q + startValue;
      assert t == startT ==> q == 0.0 && y == startValue;
      assert t == endT ==> q == 1.0 && y == endValue;
      Ok(y)
  }

  lemma SquareInUnit(p: real)
    requires 0.0 <= p <= 1.0
    ensures 0.0 <= p * p <= p
  {
    MulNonnegative(p, p);
    MulNonnegative(p, 1.0 - p);
  }

  /** The smooth level never runs ahead of the linear one on a rising window. */
  lemma SmoothTrailsLerp(t: real, startT: real, endT: real, startValue: real, endValue: real)
    requires startT < endT && startValue <= endValue
    ensures var a := SmoothLevel(t, startT, endT, startValue, endValue);
      var b := LerpLevel(t, startT, endT, startValue, endValue);
      a.Ok? && b.Ok? && a.value <= b.value
  {
    if startT <= t <= endT {
      var p := Progress(t, startT, endT);
      SquareInUnit(p);
      MulNonnegative(p - p * p, endValue - startValue);
      Convex(p, startValue, endValue);
    }
  }

  /** `smooth(t, start_t, end_t, start_value, end_value)`. */
  function Smooth(s: Subchannel, t: real, startT: real, endT: real, startValue: real, endValue: real): (r: Result<(int, int), Error>)
    ensures r.Err? <==> startT == t == endT
    ensures r.Ok? ==> r.value.0 == s.channel
    ensures t < startT ==> r == Ok(SetValue(s, startValue))
    ensures startT <= t && endT < t ==> r == Ok(SetValue(s, endValue))
    ensures startT < endT && t == startT ==> r == Ok(SetValue(s, startValue))
    ensures startT < endT && t == endT ==> r == Ok(SetValue(s, endValue))
  {
    match SmoothLevel(t, startT, endT, startValue, endValue)
    case Err(e) => Err(e)
    case Ok(y) => Ok(SetValue(s, y))
  }
}
