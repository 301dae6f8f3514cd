/**
 * The scrolling time axis of `PitchConverter.animate`: the integer tick
 * positions shown around the current time, and their `m:ss` labels
 * (`PitchConverter._time_format`).
 */
module Ticks {
  import opened Wrappers
  import opened Strings
  import opened Numbers
  import opened Clock

  /** Half the width of the visible time window, in seconds. */
  const TimeRange: real := 2.5
  /** The thresholds on the fractional part of the current time. */
  const LeftXlim: real := 24.0 / 60.0
  const Half: real := 0.5
  const RightXlim: real := 34.0 / 60.0

  // ---------------------------------------------------------------------------
  // _time_format

  /** `_time_format(seconds)`: `-:--` before zero, otherwise `m:ss`. */
  function TimeFormat(seconds: int): string {
    if seconds < 0 then "-:--"
    else NatToDecimal(seconds / 60) + ":" + ZeroPad2(seconds % 60)
  }

  /** A non-negative time is one or more minute digits, a colon and two second digits. */
  lemma TimeFormatShape(seconds: int)
    requires seconds >= 0
    ensures var text := TimeFormat(seconds);
      && text[|text| - 3] == ':'
      && AllDigits(text[..|text| - 3]) && AllDigits(text[|text| - 2..])
  {
    var mm, ss := NatToDecimal(seconds / 60), ZeroPad2(seconds % 60);
    var text := mm + ":" + ss;
    assert text[..|text| - 3] == mm && text[|text| - 2..] == ss;
  }

  lemma DashesAreNoClock()
    ensures ClockValue("-:--") == None
  {
    assert "-:--" == "-" + [':'] + "--";
    SplitAround("-", "--", ':');
    SplitNoSeparator("-", ':');
    SplitNoSeparator("--", ':');
    assert !IsDigit('-');
  }

  /**
   * A non-negative time reads back as itself (so `m * 60 + ss == seconds`
   * with two-digit `ss < 60`); a negative time gives the placeholder, which
   * is no clock text at all.
   */
  lemma TimeFormatReadsBack(seconds: int)
    ensures seconds >= 0 ==> ClockValue(TimeFormat(seconds)) == Some(seconds)
    ensures seconds < 0 ==> TimeFormat(seconds) == "-:--" && ClockValue(TimeFormat(seconds)) == None
  {
    if seconds >= 0 {
      DecimalRoundTrip(seconds / 60);
      ClockReading(NatToDecimal(seconds / 60), seconds % 60);
    } else {
      DashesAreNoClock();
    }
  }

  // ---------------------------------------------------------------------------
  // Tick positions

  /** `np.arange(lo, hi)` with integer ends. */
  function Arange(lo: int, hi: int): (r: seq<int>)
    ensures |r| == if lo < hi then hi - lo else 0
    ensures forall i :: 0 <= i < |r| ==> r[i] == lo + i
  {
    seq(if lo < hi then hi - lo else 0, i => lo + i)
  }

  /** The first candidate tick is dropped when `24/60 <= t % 1 <= 0.5`. */
  predicate DropLow(t: real) { LeftXlim <= Frac(t) <= Half }

  /** The last candidate tick is dropped when `0.5 <= t % 1 <= 34/60`. */
  predicate DropHigh(t: real) { Half <= Frac(t) <= RightXlim }

  /** The ticks shown at time `t`. */
  function TickRange(t: real): seq<int> {
    Arange(Ceil(t - TimeRange) + (if DropLow(t) then 1 else 0),
           Floor(t + TimeRange) + (if DropHigh(t) then 0 else 1))
  }

  /** The window ends in terms of the integer and fractional parts of `t`. */
  lemma WindowEnds(t: real)
    ensures Ceil(t - TimeRange) == if Frac(t) <= Half then Floor(t) - 2 else Floor(t) - 1
    ensures Floor(t + TimeRange) == if Frac(t) < Half then Floor(t) + 2 else Floor(t) + 3
  {
  }

  /**
   * The ticks are consecutive ascending integers inside the window
   * `[t - 2.5, t + 2.5]`: four of them when `24/60 <= t % 1 <= 34/60`,
   * five otherwise.
   */
  lemma TickRangeShape(t: real)
    ensures var ticks := TickRange(t);
      && (forall i :: 0 <= i < |ticks| ==> t - TimeRange <= ticks[i] as real <= t + TimeRange)
      && (forall i :: 0 < i < |ticks| ==> ticks[i] == ticks[i - 1] + 1)
      && |ticks| == if LeftXlim <= Frac(t) <= RightXlim then 4 else 5
  {
    WindowEnds(t);
  }

  /**
   * An integer is a tick exactly when it lies in the window and is neither
   * the dropped lowest nor the dropped highest candidate.
   */
  lemma TickMembership(t: real, k: int)
    ensures k in TickRange(t) <==>
      && t - TimeRange <= k as real <= t + TimeRange
      && !(DropLow(t) && k == Ceil(t - TimeRange))
      && !(DropHigh(t) && k == Floor(t + TimeRange))
  {
    var ticks := TickRange(t);
    var lo := Ceil(t - TimeRange) + (if DropLow(t) then 1 else 0);
    if t - TimeRange <= k as real <= t + TimeRange
       && !(DropLow(t) && k == Ceil(t - TimeRange))
       && !(DropHigh(t) && k == Floor(t + TimeRange)) {
      assert ticks[k - lo] == k;
    }
  }

  /** At the half second both ends are dropped: `t = 10.5` shows 9 to 12. */
  lemma TicksAtHalfSecond()
    ensures TickRange(10.5) == [9, 10, 11, 12]
  {
    assert Floor(10.5) == 10;
    WindowEnds(10.5);
  }

  /** The labels of the ticks. */
  function TickLabels(ticks: seq<int>): (labels: seq<string>)
    ensures |labels| == |ticks|
    ensures forall i :: 0 <= i < |ticks| ==> labels[i] == TimeFormat(ticks[i])
  {
    seq(|ticks|, i requires 0 <= i < |ticks| => TimeFormat(ticks[i]))
  }

  /** On the first frame the two ticks before zero show the placeholder. */
  lemma FirstFrameLabels()
    ensures TickRange(0.0) == [-2, -1, 0, 1, 2]
    ensures TickLabels(TickRange(0.0)) == ["-:--", "-:--", "0:00", "0:01", "0:02"]
  {
    assert Floor(0.0) == 0;
    WindowEnds(0.0);
    assert TickRange(0.0) == [-2, -1, 0, 1, 2];
    assert DigitChar(0) == '0' && DigitChar(1) == '1' && DigitChar(2) == '2';
    assert NatToDecimal(0) == "0" && NatToDecimal(1) == "1" && NatToDecimal(2) == "2";
    assert ZeroPad2(0) == "00" && ZeroPad2(1) == "01" && ZeroPad2(2) == "02";
    assert TimeFormat(0) == "0:00" && TimeFormat(1) == "0:01" && TimeFormat(2) == "0:02";
  }
}
