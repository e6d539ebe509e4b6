/**
 * laser/color.py: colours that carry both their RGB and their HSV
 * components, and the waypoint gradient that shapes are coloured with.
 */
module Colors {
  import opened Numeric
  import opened Wrappers

  /** A colour; every constructor fills all six components, as the source's do. */
  datatype Color = Color(r: real, g: real, b: real, h: real, s: real, v: real)

  datatype Hsv = Hsv(h: real, s: real, v: real)

  datatype Rgb = Rgb(r: real, g: real, b: real)

  function Max3(a: real, b: real, c: real): (r: real)
    ensures a <= r && b <= r && c <= r && (r == a || r == b || r == c)
  {
    Max(Max(a, b), c)
  }

  function Min3(a: real, b: real, c: real): (r: real)
    ensures r <= a && r <= b && r <= c && (r == a || r == b || r == c)
  {
    Min(Min(a, b), c)
  }

  predicate InUnit(x: real) { 0.0 <= x <= 1.0 }

  /** `_compute_hsv`. */
  function ComputeHsv(r: real, g: real, b: real): Hsv {
    var cMax := Max3(r, g, b);
    var cMin := Min3(r, g, b);
    var delta := cMax - cMin;
    var h :=
      if delta == 0.0 then 0.0
      else if cMax == r then 60.0 * FloorMod((g - b) / delta, 6.0)
      else if cMax == g then 60.0 * ((b - r) / delta + 2.0)
      else 60.0 * ((r - g) / delta + 4.0);
    Hsv(h / 360.0, if cMax == 0.0 then 0.0 else delta / cMax, cMax)
  }

  /** The sextant of the hue circle `_compute_rgb` selects; hues outside [0, 5/6) fall in the last one. */
  function Sextant(h: real): (k: int)
    ensures 0 <= k <= 5
    ensures 0.0 <= h < 1.0 ==> k as real <= h * 6.0 < k as real + 1.0
  {
    if 0.0 <= h < 1.0 / 6.0 then 0
    else if 1.0 / 6.0 <= h < 2.0 / 6.0 then 1
    else if 2.0 / 6.0 <= h < 3.0 / 6.0 then 2
    else if 3.0 / 6.0 <= h < 4.0 / 6.0 then 3
    else if 4.0 / 6.0 <= h < 5.0 / 6.0 then 4
    else 5
  }

  /** Where the chroma `c` and the second component `x` go in each sextant. */
  function Arrange(k: int, c: real, x: real): Rgb {
    match k
    case 0 => Rgb(c, x, 0.0)
    case 1 => Rgb(x, c, 0.0)
    case 2 => Rgb(0.0, c, x)
    case 3 => Rgb(0.0, x, c)
    case 4 => Rgb(x, 0.0, c)
    case _ => Rgb(c, 0.0, x)
  }

  /** `_compute_rgb`: the sextant arrangement of chroma and second component, shifted by m = v - c. */
  function ComputeRgb(h: real, s: real, v: real): Rgb {
    FromChroma(h, v, v * s)
  }

  /** The rest of `_compute_rgb` once the chroma c = v * s is known. */
  function FromChroma(h: real, v: real, c: real): Rgb {
    var x := SecondOf(h, c);
    var m := v - c;
    var base := Arrange(Sextant(h), c, x);
    Rgb(base.r + m, base.g + m, base.b + m)
  }

  /** The second-largest component before the shift: c (1 - |h * 6 mod 2 - 1|). */
  function SecondOf(h: real, c: real): real {
    c * (1.0 - Abs(FloorMod(h * 6.0, 2.0) - 1.0))
  }

  /** `Color(r, g, b)`: an RGB colour with its HSV components computed. */
  function FromRgb(r: real, g: real, b: real): (c: Color)
    ensures c.r == r && c.g == g && c.b == b
    ensures c.v == Max3(r, g, b)
  {
    var hsv := ComputeHsv(r, g, b);
    Color(r, g, b, hsv.h, hsv.s, hsv.v)
  }

  /** `Color(h, s, v, is_rgb=False)`: an HSV colour with its RGB components computed. */
  function FromHsv(h: real, s: real, v: real): (c: Color)
    ensures c.h == h && c.s == s && c.v == v
  {
    var rgb := ComputeRgb(h, s, v);
    Color(rgb.r, rgb.g, rgb.b, h, s, v)
  }

  /** `Color.black()`. */
  function Black(): (c: Color)
    ensures c.r == 0.0 && c.g == 0.0 && c.b == 0.0 && c.v == 0.0
  {
    FromRgb(0.0, 0.0, 0.0)
  }

  /** `__eq__` compares the RGB components only. */
  predicate SameRgb(a: Color, b: Color) {
    a.r == b.r && a.g == b.g && a.b == b.b
  }

  /** `copy()` rebuilds the colour from its RGB components. */
  function CopyColor(c: Color): (d: Color)
    ensures SameRgb(c, d)
  {
    FromRgb(c.r, c.g, c.b)
  }

  /** `interpolate_rgb`: each RGB channel moves linearly by `ratio`. */
  function InterpolateRgb(a: Color, b: Color, ratio: real): Color {
    FromRgb(a.r + (b.r - a.r) * ratio, a.g + (b.g - a.g) * ratio, a.b + (b.b - a.b) * ratio)
  }

  /** `interpolate_hsv`: each HSV channel moves linearly by `ratio`. */
  function InterpolateHsv(a: Color, b: Color, ratio: real): Color {
    FromHsv(a.h + (b.h - a.h) * ratio, a.s + (b.s - a.s) * ratio, a.v + (b.v - a.v) * ratio)
  }

  // ---------------------------------------------------------------------
  // Properties of the HSV conversion

  /** For components in [0,1]: v is the maximum, s is 0 exactly when the maximum is, h is 0 for greys, h in [0,1), s in [0,1]. */
  lemma HsvRanges(r: real, g: real, b: real)
    requires InUnit(r) && InUnit(g) && InUnit(b)
    ensures var hsv := ComputeHsv(r, g, b);
      && hsv.v == Max3(r, g, b)
      && (Max3(r, g, b) == 0.0 ==> hsv.s == 0.0)
      && (Max3(r, g, b) != 0.0 ==> hsv.s == (Max3(r, g, b) - Min3(r, g, b)) / Max3(r, g, b))
      && (Max3(r, g, b) == Min3(r, g, b) ==> hsv.h == 0.0)
      && 0.0 <= hsv.h < 1.0
      && 0.0 <= hsv.s <= 1.0
  {
    var cMax, cMin := Max3(r, g, b), Min3(r, g, b);
    var delta := cMax - cMin;
    if delta != 0.0 {
      if cMax == r {
        FractionBounds(g - b, delta);
      } else if cMax == g {
        FractionBounds(b - r, delta);
      } else {
        FractionBounds(r - g, delta);
      }
      assert 0.0 < cMax;
      DivAtMostOne(delta, cMax);
    }
  }

  lemma FractionBounds(n: real, d: real)
    requires 0.0 < d && -d <= n <= d
    ensures -1.0 <= n / d <= 1.0 && (n / d) * d == n
    ensures (0.0 <= n) == (0.0 <= n / d)
  {
    assert n / d * d == n;
  }

  lemma DivAtMostOne(a: real, b: real)
    requires 0.0 <= a <= b && 0.0 < b
    ensures 0.0 <= a / b <= 1.0
    ensures 0.0 < a ==> 0.0 < a / b
  {
    assert a / b * b == a;
  }

  /** FloorMod with a literal modulus is the shift by the integer part. */
  lemma FloorModAt(x: real, m: real, k: int)
    requires 0.0 < m && k as real * m <= x < (k + 1) as real * m
    ensures FloorMod(x, m) == x - k as real * m
  {
    var q := (x / m).Floor;
    FloorDivBounds(x, m);
    assert (k + 1) as real * m == k as real * m + m;
    SameQuotient(x, m, q, k, m * q as real, k as real * m);
  }

  /** Two integer multiples of `m` within `m` of the same `x` from below are the same multiple. */
  lemma SameQuotient(x: real, m: real, q: int, k: int, a: real, b: real)
    requires 0.0 < m && a == m * q as real && b == k as real * m
    requires 0.0 <= x - a < m && b <= x < b + m
    ensures q == k
  {
    var z := q as real - k as real;
    assert a - b == m * z;
    PositiveFactor(m, z + 1.0);
    PositiveFactor(m, 1.0 - z);
  }

  lemma PositiveFactor(m: real, z: real)
    requires 0.0 < m && 0.0 < m * z
    ensures 0.0 < z
  {
  }

  /** Converting an RGB colour to HSV and back reproduces it. */
  lemma HsvRoundTrip(r: real, g: real, b: real)
    requires InUnit(r) && InUnit(g) && InUnit(b)
    ensures var hsv := ComputeHsv(r, g, b); ComputeRgb(hsv.h, hsv.s, hsv.v) == Rgb(r, g, b)
  {
    var cMax, cMin := Max3(r, g, b), Min3(r, g, b);
    var hsv := ComputeHsv(r, g, b);
    if cMax == cMin {
      GreyRoundTrip(r, g, b);
    } else {
      HueCases(r, g, b);
      HueRoundTrip(r, g, b, hsv.h, hsv.s, hsv.v, cMax - cMin);
    }
  }

  /** Back from the hue, saturation and value of a colour that is not grey, by the largest component. */
  lemma HueRoundTrip(r: real, g: real, b: real, h: real, s: real, v: real, d: real)
    requires NonGreyHsv(r, g, b, h, s, v, d)
    ensures ComputeRgb(h, s, v) == Rgb(r, g, b)
  {
    if Max3(r, g, b) == r {
      RedHueRoundTrip(r, g, b, h, s, v, d);
    } else if Max3(r, g, b) == g {
      GreenHueRoundTrip(r, g, b, h, s, v, d);
    } else {
      BlueHueRoundTrip(r, g, b, h, s, v, d);
    }
  }

  lemma GreyRoundTrip(r: real, g: real, b: real)
    requires Max3(r, g, b) == Min3(r, g, b)
    ensures var hsv := ComputeHsv(r, g, b); ComputeRgb(hsv.h, hsv.s, hsv.v) == Rgb(r, g, b)
  {
    var hsv := ComputeHsv(r, g, b);
    assert r == g == b == hsv.v;
    assert hsv.s == 0.0 && hsv.h == 0.0;
    FloorModAt(0.0, 2.0, 0);
    ComputeRgbFrom(0.0, 0.0, r, 0.0, 0.0);
  }

  /** For a colour that is not grey: v is the largest component, v * s the spread, and the hue is the branch for the largest component. */
  lemma HueCases(r: real, g: real, b: real)
    requires InUnit(r) && InUnit(g) && InUnit(b) && Min3(r, g, b) < Max3(r, g, b)
    ensures var hsv := ComputeHsv(r, g, b); NonGreyHsv(r, g, b, hsv.h, hsv.s, hsv.v, Max3(r, g, b) - Min3(r, g, b))
  {
    Chroma(r, g, b);
  }

  /** What `_compute_hsv` yields for a colour with spread d > 0 between its largest and smallest component. */
  predicate NonGreyHsv(r: real, g: real, b: real, h: real, s: real, v: real, d: real) {
    && d == Max3(r, g, b) - Min3(r, g, b) && 0.0 < d && v == Max3(r, g, b) && v * s == d
    && (Max3(r, g, b) == r ==> h == FloorMod((g - b) / d, 6.0) / 6.0)
    && (Max3(r, g, b) == g != r ==> h * 6.0 == (b - r) / d + 2.0)
    && (Max3(r, g, b) != r && Max3(r, g, b) != g ==> h * 6.0 == (r - g) / d + 4.0)
  }

  /** The chroma v * s of a colour that is not grey is the spread between its largest and smallest component. */
  lemma Chroma(r: real, g: real, b: real)
    requires InUnit(r) && InUnit(g) && InUnit(b) && Min3(r, g, b) < Max3(r, g, b)
    ensures var hsv := ComputeHsv(r, g, b); hsv.v * hsv.s == Max3(r, g, b) - Min3(r, g, b)
  {
    var cMax := Max3(r, g, b);
    var d := cMax - Min3(r, g, b);
    assert ComputeHsv(r, g, b).s == d / cMax;
    assert cMax * (d / cMax) == d;
  }

  /** Red largest: the hue is (g - b) / d mod 6 over 6, and the conversion back lands on (r, g, b). */
  lemma RedHueRoundTrip(r: real, g: real, b: real, h: real, s: real, v: real, d: real)
    requires Max3(r, g, b) == r && d == r - Min3(r, g, b) && 0.0 < d
    requires v == r && v * s == d && h == FloorMod((g - b) / d, 6.0) / 6.0
    ensures ComputeRgb(h, s, v) == Rgb(r, g, b)
  {
    var q := (g - b) / d;
    FractionBounds(g - b, d);
    RoundTripRedMax(r, g, b, h, s, v, q);
  }

  lemma RoundTripRedMax(r: real, g: real, b: real, h: real, s: real, v: real, q: real)
    requires Max3(r, g, b) == r && Min3(r, g, b) < r && v == r && v * s == r - Min3(r, g, b)
    requires -1.0 <= q <= 1.0 && (0.0 <= q) == (b <= g)
    requires q * (r - Min3(r, g, b)) == g - b && h == FloorMod(q, 6.0) / 6.0
    ensures ComputeRgb(h, s, v) == Rgb(r, g, b)
  {
    if g >= b {
      FloorModAt(q, 6.0, 0);
      RedMaxUpper(r, g, b, h, s, v, q);
    } else {
      FloorModAt(q, 6.0, -1);
      RedMaxLower(r, g, b, h, s, v, q);
    }
  }

  lemma RedMaxUpper(r: real, g: real, b: real, h: real, s: real, v: real, q: real)
    requires r >= g >= b && b < r && v == r && v * s == r - b
    requires 0.0 <= q <= 1.0 && q * (r - b) == g - b && h * 6.0 == q
    ensures ComputeRgb(h, s, v) == Rgb(r, g, b)
  {
    FloorModAt(h * 6.0, 2.0, 0);
    SecondComponent(r - b, q, FloorMod(h * 6.0, 2.0), true);
    ComputeRgbFrom(h, s, v, r - b, g - b);
  }

  lemma RedMaxLower(r: real, g: real, b: real, h: real, s: real, v: real, q: real)
    requires r >= b > g && v == r && v * s == r - g
    requires -1.0 <= q < 0.0 && q * (r - g) == g - b && h * 6.0 == q + 6.0
    ensures ComputeRgb(h, s, v) == Rgb(r, g, b)
  {
    FloorModAt(h * 6.0, 2.0, 2);
    SecondComponent(r - g, q, FloorMod(h * 6.0, 2.0), false);
    ComputeRgbFrom(h, s, v, r - g, b - g);
  }

  /** Green largest: the hue is (b - r) / d + 2 over 6. */
  lemma GreenHueRoundTrip(r: real, g: real, b: real, h: real, s: real, v: real, d: real)
    requires Max3(r, g, b) == g != r && d == g - Min3(r, g, b) && 0.0 < d
    requires v == g && v * s == d && h * 6.0 == (b - r) / d + 2.0
    ensures ComputeRgb(h, s, v) == Rgb(r, g, b)
  {
    var q := (b - r) / d;
    FractionBounds(b - r, d);
    if r <= b {
      GreenMaxUpper(h, s, v, d, q, b - r);
    } else {
      GreenMaxLower(h, s, v, d, q, r - b);
    }
  }

  lemma GreenMaxUpper(h: real, s: real, v: real, d: real, q: real, x: real)
    requires 0.0 <= q <= 1.0 && h * 6.0 == q + 2.0 && v * s == d && d * q == x
    ensures var base := Arrange(Sextant(h), d, x);
      ComputeRgb(h, s, v) == Rgb(base.r + (v - d), base.g + (v - d), base.b + (v - d))
  {
    FloorModAt(h * 6.0, 2.0, 1);
    SecondComponent(d, q, FloorMod(h * 6.0, 2.0), true);
    ComputeRgbFrom(h, s, v, d, x);
  }

  lemma GreenMaxLower(h: real, s: real, v: real, d: real, q: real, x: real)
    requires -1.0 <= q < 0.0 && h * 6.0 == q + 2.0 && v * s == d && -(d * q) == x
    ensures var base := Arrange(Sextant(h), d, x);
      ComputeRgb(h, s, v) == Rgb(base.r + (v - d), base.g + (v - d), base.b + (v - d))
  {
    FloorModAt(h * 6.0, 2.0, 0);
    SecondComponent(d, q, FloorMod(h * 6.0, 2.0), false);
    ComputeRgbFrom(h, s, v, d, x);
  }

  /** Blue largest: the hue is (r - g) / d + 4 over 6. */
  lemma BlueHueRoundTrip(r: real, g: real, b: real, h: real, s: real, v: real, d: real)
    requires Max3(r, g, b) == b != r && b != g && d == b - Min3(r, g, b) && 0.0 < d
    requires v == b && v * s == d && h * 6.0 == (r - g) / d + 4.0
    ensures ComputeRgb(h, s, v) == Rgb(r, g, b)
  {
    var q := (r - g) / d;
    FractionBounds(r - g, d);
    if g <= r {
      BlueMaxUpper(h, s, v, d, q, r - g);
    } else {
      BlueMaxLower(h, s, v, d, q, g - r);
    }
  }

  lemma BlueMaxUpper(h: real, s: real, v: real, d: real, q: real, x: real)
    requires 0.0 <= q <= 1.0 && h * 6.0 == q + 4.0 && v * s == d && d * q == x
    ensures var base := Arrange(Sextant(h), d, x);
      ComputeRgb(h, s, v) == Rgb(base.r + (v - d), base.g + (v - d), base.b + (v - d))
  {
    FloorModAt(h * 6.0, 2.0, 2);
    SecondComponent(d, q, FloorMod(h * 6.0, 2.0), true);
    ComputeRgbFrom(h, s, v, d, x);
  }

  lemma BlueMaxLower(h: real, s: real, v: real, d: real, q: real, x: real)
    requires -1.0 <= q < 0.0 && h * 6.0 == q + 4.0 && v * s == d && -(d * q) == x
    ensures var base := Arrange(Sextant(h), d, x);
      ComputeRgb(h, s, v) == Rgb(base.r + (v - d), base.g + (v - d), base.b + (v - d))
  {
    FloorModAt(h * 6.0, 2.0, 1);
    SecondComponent(d, q, FloorMod(h * 6.0, 2.0), false);
    ComputeRgbFrom(h, s, v, d, x);
  }

  /** `_compute_rgb` in terms of its named intermediate values. */
  lemma ComputeRgbFrom(h: real, s: real, v: real, c: real, x: real)
    requires c == v * s && x == SecondOf(h, c)
    ensures var base := Arrange(Sextant(h), c, x);
      ComputeRgb(h, s, v) == Rgb(base.r + (v - c), base.g + (v - c), base.b + (v - c))
  {
    assert ComputeRgb(h, s, v) == FromChroma(h, v, c);
  }

  /** The second component is c times the fractional distance q, whatever side of 1 the folded hue lies on. */
  lemma SecondComponent(c: real, q: real, fm: real, upper: bool)
    requires -1.0 <= q <= 1.0
    requires upper ==> fm == q && 0.0 <= q
    requires !upper ==> fm == q + 2.0 && q <= 0.0
    ensures c * (1.0 - Abs(fm - 1.0)) == if upper then c * q else -(c * q)
  {
  }

  // ---------------------------------------------------------------------
  // Gradients

  /** One `(position, colour)` entry of a gradient. */
  datatype Waypoint = Waypoint(position: real, color: Color)

  /** The value of a gradient: its waypoints and its interpolation mode. */
  datatype Gradient = Gradient(colors: seq<Waypoint>, mode: string)

  predicate SortedByPosition(ws: seq<Waypoint>) {
    forall i, j :: 0 <= i < j < |ws| ==> ws[i].position <= ws[j].position
  }

  /**
   * Where a stable sort puts an entry appended to a sorted list: after every
   * entry whose position is at most its own.
   */
  function InsertionIndex(ws: seq<Waypoint>, w: Waypoint): (k: nat)
    ensures k <= |ws|
    ensures forall i :: k <= i < |ws| ==> w.position < ws[i].position
    ensures 0 < k ==> ws[k - 1].position <= w.position
  {
    if |ws| == 0 then 0
    else if ws[|ws| - 1].position <= w.position then |ws|
    else InsertionIndex(ws[..|ws| - 1], w)
  }

  /** `add_color`'s append-then-sort on a list that is already sorted. */
  function InsertStable(ws: seq<Waypoint>, w: Waypoint): seq<Waypoint> {
    var k := InsertionIndex(ws, w);
    ws[..k] + [w] + ws[k..]
  }

  /**
   * Inserting adds exactly the new entry, places it after every entry at or
   * before its position and before every entry past it, and keeps the others
   * in their order.
   */
  lemma InsertStablePlacement(ws: seq<Waypoint>, w: Waypoint)
    requires SortedByPosition(ws)
    ensures var r := InsertStable(ws, w); var k := InsertionIndex(ws, w);
      && |r| == |ws| + 1
      && multiset(r) == multiset(ws) + multiset{w}
      && r[k] == w
      && r[..k] == ws[..k] && r[k + 1..] == ws[k..]
      && (forall i :: 0 <= i < k ==> ws[i].position <= w.position)
      && (forall i :: k <= i < |ws| ==> w.position < ws[i].position)
  {
    var k := InsertionIndex(ws, w);
    var r := InsertStable(ws, w);
    InsertStableMultiset(ws, w);
    assert r == ws[..k] + [w] + ws[k..];
    assert r[..k] == ws[..k];
    assert r[k + 1..] == ws[k..];
    InsertionIndexBelow(ws, w);
  }

  /** Every entry before the insertion index is at or before the new position. */
  lemma InsertionIndexBelow(ws: seq<Waypoint>, w: Waypoint)
    requires SortedByPosition(ws)
    ensures forall i :: 0 <= i < InsertionIndex(ws, w) ==> ws[i].position <= w.position
  {
    var k := InsertionIndex(ws, w);
    forall i | 0 <= i < k
      ensures ws[i].position <= w.position
    {
      assert ws[i].position <= ws[k - 1].position;
    }
  }

  lemma InsertStableMultiset(ws: seq<Waypoint>, w: Waypoint)
    ensures multiset(InsertStable(ws, w)) == multiset(ws) + multiset{w}
  {
    var k := InsertionIndex(ws, w);
    assert ws == ws[..k] + ws[k..];
  }

  /** Inserting into a sorted list keeps it sorted. */
  lemma InsertStableSorted(ws: seq<Waypoint>, w: Waypoint)
    requires SortedByPosition(ws)
    ensures SortedByPosition(InsertStable(ws, w))
  {
    var r := InsertStable(ws, w);
    var k := InsertionIndex(ws, w);
    InsertStablePlacement(ws, w);
    forall i, j | 0 <= i < j < |r|
      ensures r[i].position <= r[j].position
    {
      var pi := if i < k then ws[i].position else if i == k then w.position else ws[i - 1].position;
      var pj := if j < k then ws[j].position else if j == k then w.position else ws[j - 1].position;
      assert r[i].position == pi;
      assert r[j].position == pj;
    }
  }

  /**
   * The first bracket i >= from with p_i < s <= p_{i+1}, as `get_color`'s
   * loop finds it.
   */
  function FindBracket(ws: seq<Waypoint>, s: real, from: nat): (r: Option<nat>)
    decreases |ws| - from
  {
    if from + 1 >= |ws| then None
    else if ws[from].position < s <= ws[from + 1].position then Some(from)
    else FindBracket(ws, s, from + 1)
  }

  predicate IsBracket(ws: seq<Waypoint>, s: real, i: int) {
    0 <= i && i + 1 < |ws| && ws[i].position < s <= ws[i + 1].position
  }

  /** The search returns the first bracket at or after `from`, and None exactly when there is none. */
  lemma {:induction false} FindBracketSpec(ws: seq<Waypoint>, s: real, from: nat)
    ensures FindBracket(ws, s, from).Some? ==>
      var i := FindBracket(ws, s, from).value;
      from <= i && IsBracket(ws, s, i) && forall j :: from <= j < i ==> !IsBracket(ws, s, j)
    ensures FindBracket(ws, s, from).None? <==> forall j :: from <= j ==> !IsBracket(ws, s, j)
    decreases |ws| - from
  {
    if from + 1 >= |ws| {
    } else if ws[from].position < s <= ws[from + 1].position {
    } else {
      FindBracketSpec(ws, s, from + 1);
      forall j | from <= j
        ensures FindBracket(ws, s, from).None? ==> !IsBracket(ws, s, j)
      {
        if j == from {
        }
      }
    }
  }

  /** Where `s` falls between waypoints i and i+1, as a fraction of their spacing. */
  function Ratio(ws: seq<Waypoint>, s: real, i: nat): real
    requires IsBracket(ws, s, i)
  {
    (s - ws[i].position) / (ws[i + 1].position - ws[i].position)
  }

  /** `get_color`: interpolate inside the first bracket, else the first waypoint's colour. */
  function GetColor(g: Gradient, s: real): Color
    requires 1 <= |g.colors|
  {
    match FindBracket(g.colors, s, 0)
    case None => g.colors[0].color
    case Some(i) =>
      FindBracketSpec(g.colors, s, 0);
      var ratio := Ratio(g.colors, s, i);
      if g.mode == "rgb" then InterpolateRgb(g.colors[i].color, g.colors[i + 1].color, ratio)
      else InterpolateHsv(g.colors[i].color, g.colors[i + 1].color, ratio)
  }

  /** The ratio of a bracket lies in (0, 1]; equal adjacent positions form no bracket. */
  lemma RatioBounds(ws: seq<Waypoint>, s: real, i: nat)
    requires IsBracket(ws, s, i)
    ensures 0.0 < Ratio(ws, s, i) <= 1.0
    ensures ws[i].position != ws[i + 1].position
  {
    DivAtMostOne(s - ws[i].position, ws[i + 1].position - ws[i].position);
  }

  /** At or before the first position, and beyond the last, the gradient gives its first colour. */
  lemma GetColorOutside(g: Gradient, s: real)
    requires 1 <= |g.colors| && SortedByPosition(g.colors)
    requires s <= g.colors[0].position || g.colors[|g.colors| - 1].position < s
    ensures GetColor(g, s) == g.colors[0].color
  {
    FindBracketSpec(g.colors, s, 0);
  }

  /** In 'rgb' mode each channel of the result lies between the bracket's two colours. */
  lemma GetColorRgbBetween(g: Gradient, s: real, i: nat)
    requires 1 <= |g.colors| && g.mode == "rgb" && FindBracket(g.colors, s, 0) == Some(i)
    ensures FindBracket(g.colors, s, 0) == Some(i) && i + 1 < |g.colors|
    ensures var a, b, c := g.colors[i].color, g.colors[i + 1].color, GetColor(g, s);
      Between(c.r, a.r, b.r) && Between(c.g, a.g, b.g) && Between(c.b, a.b, b.b)
  {
    FindBracketSpec(g.colors, s, 0);
    var ratio := Ratio(g.colors, s, i);
    RatioBounds(g.colors, s, i);
    InterpolateRgbBetween(g.colors[i].color, g.colors[i + 1].color, ratio);
  }

  /** `interpolate_rgb` with a ratio in [0,1] keeps each channel between the two colours'. */
  lemma InterpolateRgbBetween(a: Color, b: Color, t: real)
    requires 0.0 <= t <= 1.0
    ensures var c := InterpolateRgb(a, b, t);
      Between(c.r, a.r, b.r) && Between(c.g, a.g, b.g) && Between(c.b, a.b, b.b)
  {
    InterpolateRgbChannels(a, b, t);
    LerpBetween3(a.r, a.g, a.b, b.r, b.g, b.b, t);
  }

  lemma LerpBetween3(r0: real, g0: real, b0: real, r1: real, g1: real, b1: real, t: real)
    requires 0.0 <= t <= 1.0
    ensures Between(r0 + (r1 - r0) * t, r0, r1)
    ensures Between(g0 + (g1 - g0) * t, g0, g1)
    ensures Between(b0 + (b1 - b0) * t, b0, b1)
  {
    LerpBetween(r0, r1, t);
    LerpBetween(g0, g1, t);
    LerpBetween(b0, b1, t);
  }

  lemma InterpolateRgbChannels(a: Color, b: Color, t: real)
    ensures var c := InterpolateRgb(a, b, t);
      c.r == a.r + (b.r - a.r) * t && c.g == a.g + (b.g - a.g) * t && c.b == a.b + (b.b - a.b) * t
  {
  }

  /** `x` lies between `a` and `b`, in either order. */
  predicate Between(x: real, a: real, b: real) {
    (a <= x <= b) || (b <= x <= a)
  }

  lemma LerpBetween(x: real, y: real, t: real)
    requires 0.0 <= t <= 1.0
    ensures Between(x + (y - x) * t, x, y)
  {
    if x <= y {
      MulNonnegative(y - x, t);
      MulNonnegative(y - x, 1.0 - t);
    } else {
      MulNonnegative(x - y, t);
      MulNonnegative(x - y, 1.0 - t);
    }
  }

  /** A colour built from RGB components in [0,1], as `Color(r, g, b)` builds it. */
  predicate IsUnitRgb(c: Color) {
    InUnit(c.r) && InUnit(c.g) && InUnit(c.b) && c == FromRgb(c.r, c.g, c.b)
  }

  /**
   * At a waypoint's own position (when it closes a bracket) the gradient gives
   * back that waypoint's RGB, in either mode; in HSV mode this is the
   * conversion round trip.
   */
  lemma GetColorAtWaypoint(g: Gradient, i: nat)
    requires 1 <= i < |g.colors| && g.colors[i - 1].position < g.colors[i].position
    requires forall j :: 0 <= j < i - 1 ==> !IsBracket(g.colors, g.colors[i].position, j)
    requires g.mode != "rgb" ==> IsUnitRgb(g.colors[i].color)
    ensures SameRgb(GetColor(g, g.colors[i].position), g.colors[i].color)
  {
    var s := g.colors[i].position;
    FindBracketSpec(g.colors, s, 0);
    assert IsBracket(g.colors, s, i - 1);
    assert FindBracket(g.colors, s, 0) == Some(i - 1);
    var ratio := Ratio(g.colors, s, i - 1);
    assert ratio == 1.0;
    var c := g.colors[i].color;
    if g.mode != "rgb" {
      HsvRoundTrip(c.r, c.g, c.b);
    }
  }

  /** `ColorGradient.__eq__`: same length, same positions, colours equal in RGB, same mode. */
  predicate GradientEq(a: Gradient, b: Gradient) {
    && |a.colors| == |b.colors|
    && (forall i :: 0 <= i < |a.colors| ==>
          a.colors[i].position == b.colors[i].position && SameRgb(a.colors[i].color, b.colors[i].color))
    && a.mode == b.mode
  }

  /** The waypoints `copy()` re-adds: every later waypoint with its colour copied. */
  function CopiedWaypoints(ws: seq<Waypoint>): (r: seq<Waypoint>)
    ensures |r| == |ws|
    ensures forall i :: 0 <= i < |ws| ==> r[i] == Waypoint(ws[i].position, CopyColor(ws[i].color))
  {
    if ws == [] then [] else CopiedWaypoints(ws[..|ws| - 1]) + [Waypoint(ws[|ws| - 1].position, CopyColor(ws[|ws| - 1].color))]
  }

  /** The list after re-adding `rest`, one `add_color` at a time, to `base`. */
  function Rebuild(base: seq<Waypoint>, rest: seq<Waypoint>): seq<Waypoint> {
    if rest == [] then base
    else InsertStable(Rebuild(base, rest[..|rest| - 1]), rest[|rest| - 1])
  }

  /** Re-adding keeps the list sorted and holds exactly the base and the re-added entries. */
  lemma {:induction false} RebuildSpec(base: seq<Waypoint>, rest: seq<Waypoint>)
    requires SortedByPosition(base)
    ensures var r := Rebuild(base, rest);
      && SortedByPosition(r) && |r| == |base| + |rest|
      && multiset(r) == multiset(base) + multiset(rest)
  {
    if rest != [] {
      var front := rest[..|rest| - 1];
      RebuildSpec(base, front);
      InsertStablePlacement(Rebuild(base, front), rest[|rest| - 1]);
      InsertStableSorted(Rebuild(base, front), rest[|rest| - 1]);
      assert rest == front + [rest[|rest| - 1]];
    }
  }

  /** Re-adding one more copied waypoint is one more stable insertion. */
  lemma CopyStep(base: seq<Waypoint>, ws: seq<Waypoint>, i: nat)
    requires 1 <= i < |ws|
    ensures Rebuild(base, CopiedWaypoints(ws[1..i + 1]))
      == InsertStable(Rebuild(base, CopiedWaypoints(ws[1..i])), Waypoint(ws[i].position, CopyColor(ws[i].color)))
  {
    var longer := CopiedWaypoints(ws[1..i + 1]);
    assert longer[..|longer| - 1] == CopiedWaypoints(ws[1..i]);
  }

  /** The two-entry list `ColorGradient(start, end)` starts with. */
  function InitialWaypoints(start: Color, end: Option<Color>): seq<Waypoint> {
    [Waypoint(0.0, start), Waypoint(1.0, if end.Some? then end.value else start)]
  }

  /** The mutable gradient of laser/color.py. */
  class ColorGradient {
    var colors: seq<Waypoint>
    const mode: string

    ghost predicate Valid()
      reads this
    {
      2 <= |colors| && SortedByPosition(colors)
    }

    function Value(): Gradient
      reads this
    {
      Gradient(colors, mode)
    }

    constructor (start: Color, end: Option<Color>, mode: string)
      ensures Valid()
      ensures colors == InitialWaypoints(start, end) && this.mode == mode
    {
      colors := InitialWaypoints(start, end);
      this.mode := mode;
    }

    /** `add_color`: append one entry and re-sort stably. */
    method AddColor(s: real, c: Color)
      requires Valid()
      modifies this
      ensures Valid()
      ensures colors == InsertStable(old(colors), Waypoint(s, c))
      ensures |colors| == |old(colors)| + 1
      ensures multiset(colors) == multiset(old(colors)) + multiset{Waypoint(s, c)}
    {
      InsertStablePlacement(colors, Waypoint(s, c));
      InsertStableSorted(colors, Waypoint(s, c));
      colors := InsertStable(colors, Waypoint(s, c));
    }

    /**
     * `copy()`: a two-point gradient on the first colour (not copied), then
     * every later waypoint re-added with a copied colour.
     */
    method Copy() returns (g: ColorGradient)
      requires Valid()
      ensures fresh(g) && g.Valid() && g.mode == mode
      ensures g.colors == Rebuild(InitialWaypoints(colors[0].color, None), CopiedWaypoints(colors[1..]))
      ensures |g.colors| == |colors| + 1
    {
      var ws, first := colors, colors[0].color;
      ghost var base := InitialWaypoints(first, None);
      g := new ColorGradient(first, None, mode);
      var i := 1;
      while i < |ws|
        invariant 1 <= i <= |ws|
        invariant fresh(g) && g.Valid() && g.mode == mode
        invariant g.colors == Rebuild(base, CopiedWaypoints(ws[1..i]))
      {
        CopyStep(base, ws, i);
        g.AddColor(ws[i].position, CopyColor(ws[i].color));
        i := i + 1;
      }
      assert ws[1..i] == ws[1..];
      RebuildSpec(base, CopiedWaypoints(ws[1..]));
    }

    /** `copy()` as evidently intended: the same waypoints, each later colour copied. */
    method CopyExact() returns (g: ColorGradient)
      requires Valid()
      ensures fresh(g) && g.Valid() && g.mode == mode
      ensures g.colors == ExactCopy(colors) && GradientEq(Value(), g.Value())
    {
      g := new ColorGradient(colors[0].color, None, mode);
      ExactCopyIsEqual(Value());
      g.colors := ExactCopy(colors);
    }
  }

  /**
   * The copy of a red-to-blue 'rgb' gradient gives red at 1.0 where the
   * original gives blue: the re-added end colour sorts after the
   * (1.0, first colour) entry of the two-point start, and no bracket ends on it.
   */
  lemma CopyLosesEndColour()
    ensures var red, blue := FromRgb(1.0, 0.0, 0.0), FromRgb(0.0, 0.0, 1.0);
      var orig := Gradient(InitialWaypoints(red, Some(blue)), "rgb");
      var copy := Gradient(Rebuild(InitialWaypoints(red, None), CopiedWaypoints(orig.colors[1..])), "rgb");
      && SameRgb(GetColor(orig, 1.0), blue)
      && SameRgb(GetColor(copy, 1.0), red)
  {
    var red, blue := FromRgb(1.0, 0.0, 0.0), FromRgb(0.0, 0.0, 1.0);
    var orig := Gradient(InitialWaypoints(red, Some(blue)), "rgb");
    var base := InitialWaypoints(red, None);
    var added := CopiedWaypoints(orig.colors[1..]);
    assert added == [Waypoint(1.0, CopyColor(blue))];
    assert InsertionIndex(base, added[0]) == 2;
    assert added[..|added| - 1] == [];
    assert Rebuild(base, added) == InsertStable(base, added[0]);
    var copy := Gradient(Rebuild(base, added), "rgb");
    assert copy.colors == base + [added[0]];
    assert FindBracket(orig.colors, 1.0, 0) == Some(0);
    assert FindBracket(copy.colors, 1.0, 0) == Some(0);
  }

  /** The list a faithful copy holds: the first waypoint, then every later one with its colour copied. */
  function ExactCopy(ws: seq<Waypoint>): seq<Waypoint>
    requires 1 <= |ws|
  {
    [ws[0]] + CopiedWaypoints(ws[1..])
  }

  /** The corrected copy compares equal to its original and stays sorted. */
  lemma ExactCopyIsEqual(g: Gradient)
    requires 1 <= |g.colors|
    ensures GradientEq(g, Gradient(ExactCopy(g.colors), g.mode))
    ensures SortedByPosition(g.colors) ==> SortedByPosition(ExactCopy(g.colors))
  {
    var c := ExactCopy(g.colors);
    forall i | 0 <= i < |c|
      ensures c[i].position == g.colors[i].position && SameRgb(c[i].color, g.colors[i].color)
    {
      if 0 < i {
        assert c[i] == CopiedWaypoints(g.colors[1..])[i - 1];
      }
    }
  }

  /** A copy never compares equal to its original: it has one more waypoint. */
  lemma CopyIsNotEqual(orig: Gradient, copy: Gradient)
    requires |copy.colors| == |orig.colors| + 1
    ensures !GradientEq(orig, copy)
  {
  }

  /** A fresh gradient gives its start colour at 0 and its end colour at 1, whatever the mode. */
  lemma FreshGradientEnds(start: Color, end: Color, mode: string)
    requires mode != "rgb" ==> IsUnitRgb(end)
    ensures GetColor(Gradient(InitialWaypoints(start, Some(end)), mode), 0.0) == start
    ensures SameRgb(GetColor(Gradient(InitialWaypoints(start, Some(end)), mode), 1.0), end)
  {
    var g := Gradient(InitialWaypoints(start, Some(end)), mode);
    GetColorOutside(g, 0.0);
    GetColorAtWaypoint(g, 1);
  }
}
