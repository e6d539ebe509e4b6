/**
 * The timing helpers of the 2025 show script (2025/2025.py): the show is a
 * list of "mm:ss" cue times, and each pair of consecutive cues becomes one
 * animation with its start time and duration. Two times count as equal when
 * they lie within 2.1 frames of each other.
 */
module ShowTimings {
  import opened Wrappers
  import opened Errors
  import opened Numeric
  import opened Seqs
  import IldxWriter

  /** `FPS`. */
  const FPS: int := 24

  /** `TIMINGS`: the cue times of the show. */
  const TIMINGS: seq<string> := [
    "00:00", "00:01", "04:00", "06:15", "07:30", "08:50",
    "10:20", "11:20", "11:24", "12:25", "13:43", "14:30"
  ]

  /** `ILDX_FRAME_NAMES`: one name per animation. */
  const FRAME_NAMES: seq<string> := [
    "Setup", "PreIntro", "Intro", "Wormhole", "NewSitu", "Attack",
    "Battle", "Freeze", "FinPush", "Aftrmath", "Epilogue"
  ]

  /** `E`: the tolerance of `_eqal_time`, 2.1 frames. */
  const E: real := 2.1 * (1.0 / FPS as real)

  const INVALID_LITERAL := "invalid literal for int() with base 10"
  const NOT_ENOUGH_VALUES := "not enough values to unpack (expected 2)"
  const TOO_MANY_VALUES := "too many values to unpack (expected 2)"

  // ---------------------------------------------------------------------
  // Comparing times

  /** `_time_between(t, t1, t2)`: inclusive at both ends. */
  function TimeBetween(t: real, t1: real, t2: real): (r: bool)
    ensures r ==> t1 <= t2
    ensures t == t1 && t1 <= t2 ==> r
    ensures t == t2 && t1 <= t2 ==> r
  {
    t1 <= t <= t2
  }

  /** `_eqal_time(t1, t2)`: t2 lies in [t1 - E, t1 + E]. */
  function EqualTime(t1: real, t2: real): (r: bool)
    ensures r <==> Abs(t1 - t2) <= E
  {
    TimeBetween(t2, t1 - E, t1 + E)
  }

  /** Equality within the tolerance is reflexive and symmetric. */
  lemma EqualTimeSymmetric(t1: real, t2: real)
    ensures EqualTime(t1, t1)
    ensures EqualTime(t1, t2) == EqualTime(t2, t1)
  {
    assert Abs(t1 - t2) == Abs(t2 - t1);
  }

  /** The tolerance is 2.1 frames of 1/24 s: more than two frames, less than three. */
  lemma ToleranceSpansTwoFrames()
    ensures E == 2.1 / 24.0
    ensures EqualTime(0.0, 2.0 / FPS as real) && !EqualTime(0.0, 3.0 / FPS as real)
  {
  }

  // ---------------------------------------------------------------------
  // Splitting and integer literals

  /** The position of the first c in s. */
  function IndexOf(s: string, c: char): (i: nat)
    requires c in s
    ensures i < |s| && s[i] == c && c !in s[..i]
  {
    if s[0] == c then 0
    else
      assert c in s[1..] by {
        var k :| 0 <= k < |s| && s[k] == c;
        assert s[1..][k - 1] == c;
      }
      var j := IndexOf(s[1..], c);
      assert s[..j + 1] == [s[0]] + s[1..][..j];
      j + 1
  }

  /** `s.split(sep)`: the pieces between the separators, empty ones included. */
  function Split(s: string, sep: char): (parts: seq<string>)
    ensures 1 <= |parts|
    ensures forall i :: 0 <= i < |parts| ==> sep !in parts[i]
    decreases |s|
  {
    if sep !in s then [s]
    else
      var i := IndexOf(s, sep);
      [s[..i]] + Split(s[i + 1..], sep)
  }

  /** `sep.join(parts)`. */
  function Join(parts: seq<string>, sep: char): string
    requires 1 <= |parts|
  {
    if |parts| == 1 then parts[0] else parts[0] + [sep] + Join(parts[1..], sep)
  }

  /** Splitting loses nothing: joining the pieces again gives the string back. */
  lemma {:induction false} JoinSplit(s: string, sep: char)
    ensures Join(Split(s, sep), sep) == s
    decreases |s|
  {
    if sep in s {
      var i := IndexOf(s, sep);
      var parts := Split(s, sep);
      JoinSplit(s[i + 1..], sep);
      assert parts[1..] == Split(s[i + 1..], sep);
      assert s == s[..i] + [sep] + s[i + 1..];
    }
  }

  /** A separator-free piece before the first separator is the first part. */
  lemma SplitFirst(a: string, rest: string, sep: char)
    requires sep !in a
    ensures Split(a + [sep] + rest, sep) == [a] + Split(rest, sep)
  {
    var s := a + [sep] + rest;
    assert s[..|a|] == a && s[|a|] == sep;
    assert s[..|a| + 1][|a|] == sep;
    var i := IndexOf(s, sep);
    assert i == |a|;
    assert s[..i] == a && s[i + 1..] == rest;
  }

  /** Two separator-free pieces joined by the separator split back into the two. */
  lemma SplitTwo(a: string, b: string, sep: char)
    requires sep !in a && sep !in b
    ensures Split(a + [sep] + b, sep) == [a, b]
  {
    SplitFirst(a, b, sep);
  }

  predicate IsDigit(c: char) {
    '0' <= c <= '9'
  }

  predicate AllDigits(s: string) {
    forall k :: 0 <= k < |s| ==> IsDigit(s[k])
  }

  /** The value of a string of decimal digits, the last digit the units. */
  function DigitsValue(s: string): nat
    requires AllDigits(s)
  {
    if s == [] then 0 else DigitsValue(s[..|s| - 1]) * 10 + (s[|s| - 1] as int - '0' as int)
  }

  /**
   * `int(s)` of a string: an optional sign followed by at least one decimal
   * digit; anything else is a ValueError.
   */
  function ParseInt(s: string): (r: Result<int, Error>)
    ensures r.Err? ==> r.error == ValueError(INVALID_LITERAL)
    ensures r.Ok? ==> 0 < |s| && forall k :: 0 <= k < |s| ==> IsDigit(s[k]) || (k == 0 && s[k] in "+-")
    ensures AllDigits(s) && 0 < |s| ==> r == Ok(DigitsValue(s))
  {
    if 0 < |s| && (s[0] == '-' || s[0] == '+') then
      var digits := s[1..];
      if 0 < |digits| && AllDigits(digits) then
        Ok(if s[0] == '-' then -(DigitsValue(digits) as int) else DigitsValue(digits))
      else Err(ValueError(INVALID_LITERAL))
    else if 0 < |s| && AllDigits(s) then Ok(DigitsValue(s))
    else Err(ValueError(INVALID_LITERAL))
  }

  /** The decimal digits of n, without leading zeros. */
  function Show(n: nat): (s: string)
    ensures 0 < |s| && AllDigits(s)
  {
    var d := ['0' + (n % 10) as char];
    if n < 10 then d else Show(n / 10) + d
  }

  /** Reading the digits of n back gives n. */
  lemma {:induction false} ShowReadsBack(n: nat)
    ensures DigitsValue(Show(n)) == n
  {
    var s := Show(n);
    if n >= 10 {
      ShowReadsBack(n / 10);
      assert s[..|s| - 1] == Show(n / 10);
    }
  }

  /** A leading zero does not change the value. */
  lemma {:induction false} LeadingZero(s: string)
    requires AllDigits(s)
    ensures AllDigits("0" + s) && DigitsValue("0" + s) == DigitsValue(s)
    decreases |s|
  {
    if s != [] {
      assert ("0" + s)[..|s|] == "0" + s[..|s| - 1];
      LeadingZero(s[..|s| - 1]);
    }
  }

  /** The two-digit form of a clock field: one leading zero for a single digit. */
  function Pad2(n: nat): (s: string)
    ensures AllDigits(s) && DigitsValue(s) == n && ':' !in s
  {
    ShowReadsBack(n);
    if n < 10 then LeadingZero(Show(n)); "0" + Show(n) else Show(n)
  }

  /** The "mm:ss" text of m minutes and s seconds. */
  function Clock(m: nat, s: nat): string {
    Pad2(m) + ":" + Pad2(s)
  }

  // ---------------------------------------------------------------------
  // Cue times

  /**
   * `_string_to_seconds(t)`: `m, s = map(int, t.split(':'))`, then
   * `m * 60 + s`. The unpacking converts up to three pieces before it
   * counts them, so a bad literal among the first three is reported first.
   */
  function StringToSeconds(t: string): (r: Result<int, Error>)
    ensures r.Err? ==> r.error in {ValueError(INVALID_LITERAL), ValueError(NOT_ENOUGH_VALUES), ValueError(TOO_MANY_VALUES)}
  {
    var parts := Split(t, ':');
    if ParseInt(parts[0]).Err? || (2 <= |parts| && ParseInt(parts[1]).Err?) || (3 <= |parts| && ParseInt(parts[2]).Err?)
    then Err(ValueError(INVALID_LITERAL))
    else if |parts| < 2 then Err(ValueError(NOT_ENOUGH_VALUES))
    else if |parts| > 2 then Err(ValueError(TOO_MANY_VALUES))
    else Ok(ParseInt(parts[0]).value * 60 + ParseInt(parts[1]).value)
  }

  /**
   * A time reads exactly when it splits into two pieces that are both
   * integer literals, and then it is the first times sixty plus the second;
   * a time without a separator never reads.
   */
  lemma StringToSecondsSpec(t: string)
    ensures var r, parts := StringToSeconds(t), Split(t, ':');
      && (r.Ok? <==> |parts| == 2 && ParseInt(parts[0]).Ok? && ParseInt(parts[1]).Ok?)
      && (r.Ok? ==> r.value == 60 * ParseInt(parts[0]).value + ParseInt(parts[1]).value)
      && (':' !in t ==> r.Err?)
  {
  }

  /** Every "mm:ss" text reads as its number of seconds. */
  lemma ClockReadsBack(m: nat, s: nat)
    ensures StringToSeconds(Clock(m, s)) == Ok(60 * m + s)
  {
    SplitTwo(Pad2(m), Pad2(s), ':');
    assert Clock(m, s) == Pad2(m) + [':'] + Pad2(s);
    StringToSecondsSpec(Clock(m, s));
  }

  /** A time with a second separator is refused, like one with none. */
  lemma TwoSeparatorsRefused(a: string, b: string, c: string)
    requires ':' !in a && ':' !in b && ':' !in c
    ensures StringToSeconds(a + ":" + b + ":" + c).Err?
  {
    var t := a + ":" + b + ":" + c;
    assert t == a + [':'] + (b + [':'] + c);
    SplitFirst(a, b + [':'] + c, ':');
    SplitTwo(b, c, ':');
    assert |Split(t, ':')| == 3;
  }

  // ---------------------------------------------------------------------
  // Building the timings

  /**
   * The conversion of one time to seconds. The show's own is
   * `StringToSeconds`; the building below holds for any conversion.
   */
  type Reader = string -> Result<int, Error>

  /** Each time as the conversion reads it. */
  function Reads(timings: seq<string>, read: Reader): (rs: seq<Result<int, Error>>)
    ensures |rs| == |timings| && forall i :: 0 <= i < |timings| ==> rs[i] == read(timings[i])
  {
    seq(|timings|, i requires 0 <= i < |timings| => read(timings[i]))
  }

  /** The differences of consecutive elements. */
  function Differences(secs: seq<int>): (d: seq<int>)
    requires 1 <= |secs|
    ensures |d| == |secs| - 1 && forall i :: 0 <= i < |d| ==> d[i] == secs[i + 1] - secs[i]
  {
    seq(|secs| - 1, i requires 0 <= i < |secs| - 1 => secs[i + 1] - secs[i])
  }

  /**
   * The start times and durations `_build_timings` answers: every time but
   * the last starts an animation that lasts until the next time. The first
   * time that does not read raises its error; fewer than two times give no
   * animation and read nothing.
   */
  function Timings(timings: seq<string>, read: Reader): Result<(seq<int>, seq<int>), Error> {
    TimingsOf(Reads(timings, read))
  }

  /** The start times and durations of a run of times as read. */
  function TimingsOf(rs: seq<Result<int, Error>>): Result<(seq<int>, seq<int>), Error> {
    if |rs| < 2 then Ok(([], []))
    else
      match Collect(rs)
      case Err(e) => Err(e)
      case Ok(secs) => Ok((secs[..|secs| - 1], Differences(secs)))
  }

  predicate AllRead(timings: seq<string>, read: Reader) {
    forall i :: 0 <= i < |timings| ==> read(timings[i]).Ok?
  }

  /**
   * Two or more times give one animation per consecutive pair: the first
   * time's seconds and the difference to the second. The answer is an error
   * exactly when some time does not read, and then it is the error of the
   * first such time.
   */
  lemma TimingsSpec(timings: seq<string>, read: Reader)
    ensures var r := Timings(timings, read);
      && (r.Ok? <==> |timings| < 2 || AllRead(timings, read))
      && (r.Ok? ==> |r.value.0| == |r.value.1| == if |timings| < 2 then 0 else |timings| - 1)
      && (r.Ok? ==> forall i :: 0 <= i < |r.value.0| ==>
            && Ok(r.value.0[i]) == read(timings[i])
            && Ok(r.value.0[i] + r.value.1[i]) == read(timings[i + 1]))
      && (r.Err? ==> exists k :: (0 <= k < |timings| && read(timings[k]) == Err(r.error)
            && forall j :: 0 <= j < k ==> read(timings[j]).Ok?))
  {
    if 2 <= |timings| {
      CollectSpec(Reads(timings, read));
    }
  }

  /** Each animation starts where the previous one ends. */
  lemma AnimationsAreContiguous(timings: seq<string>, read: Reader, i: nat)
    requires Timings(timings, read).Ok? && i + 1 < |Timings(timings, read).value.0|
    ensures var (starts, durations) := Timings(timings, read).value;
      starts[i] + durations[i] == starts[i + 1]
  {
  }

  /** The differences add up to the span from the first element to the last. */
  lemma {:induction false} SumOfDifferences(secs: seq<int>)
    requires 1 <= |secs|
    ensures Sum(Differences(secs)) == secs[|secs| - 1] - secs[0]
  {
    if 1 < |secs| {
      var front := secs[..|secs| - 1];
      var last := secs[|secs| - 1];
      SumOfDifferences(front);
      assert secs == front + [last];
      DifferencesStep(front, last);
      var d := Differences(secs);
      assert d[..|d| - 1] == Differences(front) && d[|d| - 1] == last - front[|front| - 1];
    }
  }

  /** The durations add up to the span from the first time to the last. */
  lemma DurationsSpanTheShow(timings: seq<string>, read: Reader)
    requires 2 <= |timings| && Timings(timings, read).Ok?
    ensures var (starts, durations) := Timings(timings, read).value;
      0 < |starts| && Ok(starts[0] + Sum(durations)) == read(timings[|timings| - 1])
  {
    var secs := Collect(Reads(timings, read)).value;
    CollectSpec(Reads(timings, read));
    SumOfDifferences(secs);
  }

  /** Times that never go backwards give no negative duration. */
  lemma NondecreasingTimesGiveNonnegativeDurations(timings: seq<string>, read: Reader)
    requires AllRead(timings, read)
    requires forall i :: 0 <= i < |timings| - 1 ==> read(timings[i]).value <= read(timings[i + 1]).value
    ensures Timings(timings, read).Ok?
    ensures forall k :: 0 <= k < |Timings(timings, read).value.1| ==> 0 <= Timings(timings, read).value.1[k]
  {
    if 2 <= |timings| {
      var rs := Reads(timings, read);
      CollectSpec(rs);
      var secs := Collect(rs).value;
      assert forall k :: 0 <= k < |secs| ==> secs[k] == read(timings[k]).value;
    }
  }

  /**
   * `_build_timings()`: for each pair of consecutive times, the first time's
   * seconds go to `start_ts` and the difference to `durations`. Each inner
   * time is read twice, as the end of one pair and the start of the next.
   * The show reads with `StringToSeconds`.
   */
  method BuildTimings(timings: seq<string>, read: Reader) returns (r: Result<(seq<int>, seq<int>), Error>)
    ensures r == Timings(timings, read)
  {
    var startTs: seq<int> := [];
    var durations: seq<int> := [];
    ghost var secs: seq<int> := [];
    ghost var rs := Reads(timings, read);
    var i := 0;
    while i + 1 < |timings|
      invariant |timings| == 0 ==> i == 0
      invariant 0 < |timings| ==> i < |timings|
      invariant Built(rs, i, secs, startTs, durations)
      decreases |timings| - i
    {
      var start := read(timings[i]);
      assert rs[i] == start;
      if start.Err? {
        FirstReadFails(rs, i, secs, startTs, durations);
        return Err(start.error);
      }
      var end := read(timings[i + 1]);
      assert rs[i + 1] == end;
      if end.Err? {
        EndReadFails(rs, i, secs, startTs, durations);
        return Err(end.error);
      }
      BuildStep(rs, i, secs, startTs, durations, start.value, end.value);
      secs := Extended(i, secs, start.value, end.value);
      startTs := startTs + [start.value];
      durations := durations + [end.value - start.value];
      i := i + 1;
    }
    BuildDone(rs, i, secs, startTs, durations);
    return Ok((startTs, durations));
  }

  /**
   * What the first i pairs of read times have built: nothing before the
   * first pair, and after it the seconds of the first i + 1 times, all but
   * the last as start times and their differences as durations.
   */
  ghost predicate Built(rs: seq<Result<int, Error>>, i: nat, secs: seq<int>, startTs: seq<int>, durations: seq<int>) {
    && (i == 0 ==> startTs == [] && durations == [])
    && (0 < i ==> i < |rs| && |secs| == i + 1 && (forall k :: 0 <= k <= i ==> rs[k] == Ok(secs[k]))
                  && startTs == secs[..i] && durations == Differences(secs))
  }

  /** The seconds read so far, once the pair (a, b) at i is read. */
  ghost function Extended(i: nat, secs: seq<int>, a: int, b: int): seq<int> {
    if i == 0 then [a, b] else secs + [b]
  }

  /** A pair whose two times read extends what is built by one animation. */
  lemma BuildStep(rs: seq<Result<int, Error>>, i: nat, secs: seq<int>, startTs: seq<int>, durations: seq<int>, a: int, b: int)
    requires i + 1 < |rs| && Built(rs, i, secs, startTs, durations) && rs[i] == Ok(a) && rs[i + 1] == Ok(b)
    ensures Built(rs, i + 1, Extended(i, secs, a, b), startTs + [a], durations + [b - a])
  {
    var next := Extended(i, secs, a, b);
    if i == 0 {
      assert next == [a, b];
      assert Differences([a, b]) == [b - a];
      assert next[..1] == [a];
    } else {
      assert next == secs + [b];
      assert secs[i] == a by { assert rs[i] == Ok(secs[i]); }
      DifferencesStep(secs, b);
      assert next[..i + 1] == secs[..i] + [a] by { assert secs[..i + 1] == secs[..i] + [secs[i]]; }
      assert forall k :: 0 <= k <= i + 1 ==> rs[k] == Ok(next[k]) by {
        forall k | 0 <= k <= i + 1
          ensures rs[k] == Ok(next[k])
        {
          if k <= i {
            assert rs[k] == Ok(secs[k]);
          }
        }
      }
    }
  }

  /**
   * The first time of a pair can only fail to read at the first pair: every
   * later one has already been read as the end of the pair before.
   */
  lemma FirstReadFails(rs: seq<Result<int, Error>>, i: nat, secs: seq<int>, startTs: seq<int>, durations: seq<int>)
    requires i + 1 < |rs| && Built(rs, i, secs, startTs, durations) && rs[i].Err?
    ensures TimingsOf(rs) == Err(rs[i].error)
  {
    if i == 0 {
      CollectStep(rs, 0, []);
    } else {
      assert false;
    }
  }

  /** A pair whose end time does not read fails the whole show with its error. */
  lemma EndReadFails(rs: seq<Result<int, Error>>, i: nat, secs: seq<int>, startTs: seq<int>, durations: seq<int>)
    requires i + 1 < |rs| && Built(rs, i, secs, startTs, durations) && rs[i].Ok? && rs[i + 1].Err?
    ensures TimingsOf(rs) == Err(rs[i + 1].error)
  {
    var read := if i == 0 then [rs[0].value] else secs;
    CollectOk(rs[..i + 1], read);
    CollectStep(rs, i + 1, read);
  }

  /** Once every pair is built, the result is the timings of the read times. */
  lemma BuildDone(rs: seq<Result<int, Error>>, i: nat, secs: seq<int>, startTs: seq<int>, durations: seq<int>)
    requires Built(rs, i, secs, startTs, durations)
    requires (|rs| == 0 ==> i == 0) && (0 < |rs| ==> i + 1 == |rs|)
    ensures TimingsOf(rs) == Ok((startTs, durations))
  {
    if 0 < i {
      CollectOk(rs, secs);
    }
  }

  /** One more element adds one more difference and keeps the prefix. */
  lemma DifferencesStep(secs: seq<int>, e: int)
    requires 1 <= |secs|
    ensures Differences(secs + [e]) == Differences(secs) + [e - secs[|secs| - 1]]
    ensures (secs + [e])[..|secs|] == secs
  {
    var a, b := Differences(secs + [e]), Differences(secs) + [e - secs[|secs| - 1]];
    assert |a| == |b|;
    assert forall k :: 0 <= k < |a| ==> a[k] == b[k];
    assert (secs + [e])[..|secs|] == secs;
  }

  // ---------------------------------------------------------------------
  // The shipped show

  /** The value of a decimal digit. */
  function Digit(c: char): int {
    c as int - '0' as int
  }

  lemma TwoDigits(s: string)
    requires |s| == 2 && IsDigit(s[0]) && IsDigit(s[1])
    ensures AllDigits(s) && DigitsValue(s) == 10 * Digit(s[0]) + Digit(s[1])
  {
    var first := s[..1];
    assert first[..0] == [] && first[0] == s[0];
    assert DigitsValue(first) == Digit(s[0]);
    assert s[..|s| - 1] == first;
  }

  /** A five-character "mm:ss" time of two-digit minutes and seconds. */
  predicate IsClock(t: string) {
    |t| == 5 && t[2] == ':' && IsDigit(t[0]) && IsDigit(t[1]) && IsDigit(t[3]) && IsDigit(t[4])
  }

  /** The seconds an "mm:ss" time stands for. */
  function ClockValue(t: string): int
    requires IsClock(t)
  {
    60 * (10 * Digit(t[0]) + Digit(t[1])) + 10 * Digit(t[3]) + Digit(t[4])
  }

  /** A five-character "mm:ss" time reads as its minutes and seconds. */
  lemma FiveCharacterTime(t: string)
    requires IsClock(t)
    ensures StringToSeconds(t) == Ok(ClockValue(t))
  {
    var m, s := t[..2], t[3..];
    assert t == m + [':'] + s;
    assert ':' !in m && ':' !in s;
    SplitTwo(m, s, ':');
    TwoDigits(m);
    TwoDigits(s);
  }

  /**
   * The twelve shipped times read as a contiguous show of 14:30 in eleven
   * animations, one per frame name.
   */
  lemma ShippedShow()
    ensures Timings(TIMINGS, StringToSeconds) == Ok(([0, 1, 240, 375, 450, 530, 620, 680, 684, 745, 823],
                                    [1, 239, 135, 75, 80, 90, 60, 4, 61, 78, 47]))
    ensures |TIMINGS| - 1 == |FRAME_NAMES|
  {
    var secs := [0, 1, 240, 375, 450, 530, 620, 680, 684, 745, 823, 870];
    ShippedClocks(TIMINGS, secs);
    ShowOfClocks(TIMINGS, secs);
  }

  /** Every shipped time is an "mm:ss" clock. */
  lemma ShippedClocks(ts: seq<string>, secs: seq<int>)
    requires ts == TIMINGS && secs == [0, 1, 240, 375, 450, 530, 620, 680, 684, 745, 823, 870]
    ensures |ts| == |secs| && forall k :: 0 <= k < |ts| ==> IsClock(ts[k]) && ClockValue(ts[k]) == secs[k]
  {
    forall k | 0 <= k < 12
      ensures IsClock(ts[k]) && ClockValue(ts[k]) == secs[k]
    {
      if k == 0 {} else if k == 1 {} else if k == 2 {} else if k == 3 {}
      else if k == 4 {} else if k == 5 {} else if k == 6 {} else if k == 7 {}
      else if k == 8 {} else if k == 9 {} else if k == 10 {} else {}
    }
  }

  /** Twelve clocks of the shipped seconds give the shipped animations. */
  lemma ShowOfClocks(ts: seq<string>, secs: seq<int>)
    requires secs == [0, 1, 240, 375, 450, 530, 620, 680, 684, 745, 823, 870]
    requires |ts| == |secs| && forall k :: 0 <= k < |ts| ==> IsClock(ts[k]) && ClockValue(ts[k]) == secs[k]
    ensures Timings(ts, StringToSeconds) == Ok(([0, 1, 240, 375, 450, 530, 620, 680, 684, 745, 823],
                               [1, 239, 135, 75, 80, 90, 60, 4, 61, 78, 47]))
  {
    ClocksCollect(ts, secs);
    assert secs[..11] == [0, 1, 240, 375, 450, 530, 620, 680, 684, 745, 823];
    ShippedDurations(secs, [1, 239, 135, 75, 80, 90, 60, 4, 61, 78, 47]);
  }

  /** The differences of the shipped seconds. */
  lemma ShippedDurations(secs: seq<int>, d: seq<int>)
    requires secs == [0, 1, 240, 375, 450, 530, 620, 680, 684, 745, 823, 870]
    requires d == [1, 239, 135, 75, 80, 90, 60, 4, 61, 78, 47]
    ensures Differences(secs) == d
  {
    forall k | 0 <= k < 11
      ensures d[k] == secs[k + 1] - secs[k]
    {
      if k == 0 {} else if k == 1 {} else if k == 2 {} else if k == 3 {}
      else if k == 4 {} else if k == 5 {} else if k == 6 {} else if k == 7 {}
      else if k == 8 {} else if k == 9 {} else {}
    }
    DifferencesAre(secs, d);
  }

  /** Differences are determined elementwise. */
  lemma DifferencesAre(secs: seq<int>, d: seq<int>)
    requires 1 <= |secs| && |d| == |secs| - 1 && forall k :: 0 <= k < |d| ==> d[k] == secs[k + 1] - secs[k]
    ensures Differences(secs) == d
  {
  }

  /** "mm:ss" times collect into their seconds. */
  lemma ClocksCollect(ts: seq<string>, secs: seq<int>)
    requires |ts| == |secs| && forall k :: 0 <= k < |ts| ==> IsClock(ts[k]) && ClockValue(ts[k]) == secs[k]
    ensures Collect(Reads(ts, StringToSeconds)) == Ok(secs)
  {
    forall k | 0 <= k < |ts|
      ensures StringToSeconds(ts[k]) == Ok(secs[k])
    {
      FiveCharacterTime(ts[k]);
    }
    AllReadCollect(ts, secs);
  }

  /** Times that all read collect into their seconds. */
  lemma AllReadCollect(ts: seq<string>, secs: seq<int>)
    requires |ts| == |secs| && forall i :: 0 <= i < |ts| ==> StringToSeconds(ts[i]) == Ok(secs[i])
    ensures Collect(Reads(ts, StringToSeconds)) == Ok(secs)
  {
    CollectSpec(Reads(ts, StringToSeconds));
    assert Collect(Reads(ts, StringToSeconds)).value == secs;
  }

  /** No frame name is cut short by the eight-character ILDA name field. */
  lemma FrameNamesFit()
    ensures forall i :: 0 <= i < |FRAME_NAMES| ==>
      |FRAME_NAMES[i]| <= IldxWriter.NAME_LENGTH && IldxWriter.FormatName(FRAME_NAMES[i])[..|FRAME_NAMES[i]|] == FRAME_NAMES[i]
  {
  }
}
