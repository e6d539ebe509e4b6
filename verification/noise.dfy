/**
 * noise.py: the argument checks of the `Noise` base class. A noise object
 * checks its frequency vector and its number of wrapped dimensions when it
 * is built, and every sample first rearranges its coordinates by a swizzle
 * such as "yx" or "xt". The opensimplex sampling itself is not modelled.
 */
module Noises {
  import opened Wrappers
  import opened Errors
  import opened Arrays

  /** The four concrete noises, `Noise1D` to `Noise4D`. */
  datatype Kind = Noise1D | Noise2D | Noise3D | Noise4D

  /** `N_DIMENSIONS`. */
  function Dimensions(k: Kind): (n: nat)
    ensures 1 <= n <= 4
  {
    match k
    case Noise1D => 1
    case Noise2D => 2
    case Noise3D => 3
    case Noise4D => 4
  }

  /** `MAX_N_WRAPPED_DIMENSIONS`: a line or a circle, up to a torus, up to a toroidal volume, none. */
  function MaxWrapped(k: Kind): (m: nat)
    ensures m <= Dimensions(k)
  {
    match k
    case Noise1D => 1
    case Noise2D => 2
    case Noise3D => 2
    case Noise4D => 0
  }

  const FREQUENCY_SHAPE := "frequency must have shape (N_DIMENSIONS,)"
  const WRAPPED_RANGE := "n_wrapped_dimensions out of range"
  const POSITION_SHAPE := "position has the wrong shape"
  const SWIZZLE_LENGTH := "invalid swizzle length"
  const SWIZZLE_CHARACTER := "invalid swizzle character"

  /** The settings a noise object keeps: one frequency per dimension. */
  datatype Noise = Noise(kind: Kind, frequency: seq<real>, amplitude: real, nWrapped: int)

  /** `np.repeat(x, n)`. */
  function Repeat(x: real, n: nat): (r: seq<real>)
    ensures |r| == n && forall i :: 0 <= i < n ==> r[i] == x
  {
    seq(n, _ => x)
  }

  /**
   * `Noise.__init__`: a one-element frequency is broadcast to every
   * dimension, any other shape than (N,) is refused, and so is a number of
   * wrapped dimensions outside [0, MAX]. The frequency is checked first.
   */
  function New(k: Kind, frequency: NdArray, amplitude: real, nWrapped: int): (r: Result<Noise, Error>)
    requires WellShaped(frequency)
    ensures r.Ok? <==> (frequency.shape == [1] || frequency.shape == [Dimensions(k)]) && 0 <= nWrapped <= MaxWrapped(k)
    ensures frequency.shape != [1] && frequency.shape != [Dimensions(k)] ==> r == Err(ValueError(FREQUENCY_SHAPE))
    ensures r.Err? ==> r.error == ValueError(FREQUENCY_SHAPE) || r.error == ValueError(WRAPPED_RANGE)
    ensures r.Ok? ==> r.value.kind == k && r.value.amplitude == amplitude && r.value.nWrapped == nWrapped
    ensures r.Ok? ==> |r.value.frequency| == Dimensions(k)
    ensures r.Ok? && frequency.shape == [1] ==> forall i :: 0 <= i < Dimensions(k) ==> r.value.frequency[i] == frequency.flat[0]
    ensures r.Ok? && frequency.shape == [Dimensions(k)] ==> r.value.frequency == frequency.flat
  {
    var n := Dimensions(k);
    if frequency.shape != [1] && frequency.shape != [n] then Err(ValueError(FREQUENCY_SHAPE))
    else if nWrapped < 0 || nWrapped > MaxWrapped(k) then Err(ValueError(WRAPPED_RANGE))
    else
      assert Product(frequency.shape) == frequency.shape[0];
      var f := if frequency.shape == [1] then Repeat(frequency.flat[0], n) else frequency.flat;
      Ok(Noise(k, f, amplitude, nWrapped))
  }

  /**
   * The class methods (`line`, `circle`, `plane`, `cylinder`, `torus`,
   * `space`, `cylindrical`, `toroidal`, `hyperspace`) pass their default
   * frequency of N ones, or any single frequency, with a number of wrapped
   * dimensions in range: each of them builds its noise.
   */
  lemma ClassMethodsBuild(k: Kind, nWrapped: nat, f: real, amplitude: real)
    requires nWrapped <= MaxWrapped(k)
    ensures New(k, Vector(Repeat(1.0, Dimensions(k))), amplitude, nWrapped) == Ok(Noise(k, Repeat(1.0, Dimensions(k)), amplitude, nWrapped))
    ensures New(k, Vector([f]), amplitude, nWrapped) == Ok(Noise(k, Repeat(f, Dimensions(k)), amplitude, nWrapped))
  {
  }

  // ---------------------------------------------------------------------
  // Swizzles

  const AXES := "xyzw"

  /** `SWIZZLE_TRANSLATION`: the axes by position, and 't' for the appended time. */
  function Translation(c: char): (i: int)
    requires c in AXES || c == 't'
    ensures c == 't' ==> i == -1
    ensures c != 't' ==> 0 <= i < 4 && AXES[i] == c
  {
    match c
    case 'x' => 0
    case 'y' => 1
    case 'z' => 2
    case 'w' => 3
    case 't' => -1
  }

  /** The default swizzle: the first N axes, or the first N-1 axes and 't' when a time is given. */
  function DefaultSwizzle(n: nat, timed: bool): (s: string)
    requires 1 <= n <= 4
    ensures |s| == n
    ensures forall i :: 0 <= i < n ==> if timed && i == n - 1 then s[i] == 't' else s[i] == AXES[i]
  {
    if timed then AXES[..n - 1] + "t" else AXES[..n]
  }

  /** The coordinates a sample sees: the position, followed by the time when there is one. */
  function Extended(position: NdArray, time: Option<real>): (e: seq<real>)
    ensures time.None? ==> e == position.flat
    ensures time.Some? ==> e == position.flat + [time.value]
  {
    if time.Some? then position.flat + [time.value] else position.flat
  }

  /** The swizzle in force: `swizzle or default_swizzle`, so an empty one is the default too. */
  function Chosen(swizzle: Option<string>, default: string): string {
    if swizzle.None? || swizzle.value == "" then default else swizzle.value
  }

  /** The position a swizzle character picks: 't', index -1, is the last coordinate. */
  function Slot(c: char, len: nat): int
    requires c in AXES || c == 't'
  {
    if Translation(c) < 0 then len + Translation(c) else Translation(c)
  }

  lemma DefaultMembers(n: nat, timed: bool, c: char)
    requires 1 <= n <= 4 && c in DefaultSwizzle(n, timed)
    ensures c in AXES || c == 't'
    ensures 0 <= Slot(c, n) < n
    ensures timed ==> (c == 't' <==> Slot(c, n) == n - 1)
  {
    var d := DefaultSwizzle(n, timed);
    var i :| 0 <= i < n && d[i] == c;
  }

  /**
   * `_swizzle_coordinates(position, time, swizzle)`: without a time the
   * position must have shape (N,), with one it must have shape (N-1,) and
   * the time becomes the last coordinate. The swizzle must have length N and
   * use only characters of the default swizzle (repeats are allowed);
   * output i is the coordinate its i-th character names.
   */
  function SwizzleCoordinates(k: Kind, position: NdArray, time: Option<real>, swizzle: Option<string>): (r: Result<seq<real>, Error>)
    requires WellShaped(position)
    ensures time.None? && position.shape != [Dimensions(k)] ==> r == Err(ValueError(POSITION_SHAPE))
    ensures time.Some? && position.shape != [Dimensions(k) - 1] ==> r == Err(ValueError(POSITION_SHAPE))
    ensures r.Err? ==> r.error in {ValueError(POSITION_SHAPE), ValueError(SWIZZLE_LENGTH), ValueError(SWIZZLE_CHARACTER)}
    ensures r.Ok? <==> (position.shape == [if time.Some? then Dimensions(k) - 1 else Dimensions(k)]
      && var s := Chosen(swizzle, DefaultSwizzle(Dimensions(k), time.Some?));
         |s| == Dimensions(k) && forall i :: 0 <= i < |s| ==> s[i] in DefaultSwizzle(Dimensions(k), time.Some?))
    ensures r.Ok? ==> |r.value| == Dimensions(k)
    ensures r.Ok? ==> var s := Chosen(swizzle, DefaultSwizzle(Dimensions(k), time.Some?));
      forall i :: 0 <= i < Dimensions(k) ==>
        (s[i] == 't' ==> time.Some? && r.value[i] == time.value)
        && (s[i] != 't' ==> s[i] in AXES && Translation(s[i]) < |position.flat| && r.value[i] == position.flat[Translation(s[i])])
  {
    var n := Dimensions(k);
    if time.None? && position.shape != [n] then Err(ValueError(POSITION_SHAPE))
    else if time.Some? && position.shape != [n - 1] then Err(ValueError(POSITION_SHAPE))
    else
      var default := DefaultSwizzle(n, time.Some?);
      var s := Chosen(swizzle, default);
      if |s| != n then Err(ValueError(SWIZZLE_LENGTH))
      else if exists i :: 0 <= i < n && s[i] !in default then Err(ValueError(SWIZZLE_CHARACTER))
      else
        var e := Extended(position, time);
        VectorLength(position);
        assert |e| == n;
        var out := seq(n, i requires 0 <= i < n => (DefaultMembers(n, time.Some?, s[i]); e[Slot(s[i], n)]));
        assert forall i :: 0 <= i < n ==> out[i] == e[Slot(s[i], n)];
        assert forall i :: 0 <= i < n && s[i] == 't' ==> time.Some? && out[i] == time.value by {
          forall i | 0 <= i < n && s[i] == 't'
            ensures time.Some? && out[i] == time.value
          {
            DefaultMembers(n, time.Some?, s[i]);
          }
        }
        assert forall i :: 0 <= i < n && s[i] != 't' ==> s[i] in AXES && Translation(s[i]) < |position.flat| && out[i] == position.flat[Translation(s[i])] by {
          forall i | 0 <= i < n && s[i] != 't'
            ensures s[i] in AXES && Translation(s[i]) < |position.flat| && out[i] == position.flat[Translation(s[i])]
          {
            DefaultMembers(n, time.Some?, s[i]);
          }
        }
        Ok(out)
  }

  /** The default swizzle, asked for by None or by "", hands the coordinates over unchanged. */
  lemma DefaultSwizzleIsIdentity(k: Kind, position: NdArray, time: Option<real>, swizzle: Option<string>)
    requires WellShaped(position)
    requires position.shape == [if time.Some? then Dimensions(k) - 1 else Dimensions(k)]
    requires swizzle.None? || swizzle.value == ""
    ensures SwizzleCoordinates(k, position, time, swizzle) == Ok(Extended(position, time))
  {
    var n := Dimensions(k);
    var d := DefaultSwizzle(n, time.Some?);
    assert Chosen(swizzle, d) == d;
    assert forall i :: 0 <= i < n ==> d[i] in d;
    VectorLength(position);
    var e := Extended(position, time);
    var r := SwizzleCoordinates(k, position, time, swizzle);
    assert |e| == n == |r.value|;
    forall i | 0 <= i < n
      ensures r.value[i] == e[i]
    {
      if time.Some? && i == n - 1 {
        assert d[i] == 't';
      } else {
        AxisTranslation(i);
        assert d[i] == AXES[i];
      }
    }
    assert r.value == e;
  }

  /** Each axis character translates back to its own position. */
  lemma AxisTranslation(i: nat)
    requires i < 4
    ensures AXES[i] != 't' && Translation(AXES[i]) == i
  {
    assert AXES == ['x', 'y', 'z', 'w'];
  }

  /** Without a time no swizzle may name 't'. */
  lemma TimeNeedsATime(k: Kind, position: NdArray, s: string, i: nat)
    requires WellShaped(position) && i < |s| && s[i] == 't'
    ensures SwizzleCoordinates(k, position, None, Some(s)).Err?
  {
    var d := DefaultSwizzle(Dimensions(k), false);
    assert forall j :: 0 <= j < |d| ==> d[j] != 't';
  }
}
