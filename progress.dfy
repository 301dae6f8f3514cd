/**
 * The two custom columns of the progress display: elapsed time as `mm:ss`
 * and the rendering speed, shown as `?` while unknown.
 */
module Progress {
  import opened Wrappers
  import opened Strings
  import opened Numbers
  import opened Clock

  /** The placeholder shown before any time is known. */
  const NoTime: string := "--:--"

  /** `max(0, int(seconds))`. */
  function WholeSeconds(seconds: real): (n: nat)
    ensures seconds < 1.0 ==> n == 0
    ensures seconds >= 0.0 ==> n as real <= seconds < n as real + 1.0
  {
    if Trunc(seconds) < 0 then 0 else Trunc(seconds)
  }

  /**
   * `CustomTimeElapsedColumn.render`: a finished task shows its finishing
   * time, a running one its elapsed time, both as zero-padded `mm:ss`.
   */
  function ElapsedText(finished: bool, finishedTime: Option<real>, elapsed: Option<real>): (text: string)
    ensures (if finished then finishedTime else elapsed).None? <==> text == NoTime
    ensures (if finished then finishedTime else elapsed).Some? ==>
      && |text| >= 5 && text[|text| - 3] == ':'
      && AllDigits(text[..|text| - 3]) && AllDigits(text[|text| - 2..])
  {
    var shown := if finished then finishedTime else elapsed;
    match shown
    case None => NoTime
    case Some(e) =>
      var total := WholeSeconds(e);
      var mm, ss := ZeroPad2(total / 60), ZeroPad2(total % 60);
      var text := mm + ":" + ss;
      assert text[..|text| - 3] == mm && text[|text| - 2..] == ss;
      assert IsDigit(text[0]) && NoTime[0] == '-';
      text
  }

  lemma NoTimeIsNoClock()
    ensures ClockValue(NoTime) == None
  {
    assert NoTime == "--" + [':'] + "--";
    SplitPair("--", "--", ':');
    assert !IsDigit('-');
  }

  /**
   * The text reads back as `max(0, int(seconds))` of the time the task
   * shows: minutes times sixty plus two-digit seconds below sixty.
   * Without a time it is the placeholder, which is no clock text.
   */
  lemma ElapsedTextReadsBack(finished: bool, finishedTime: Option<real>, elapsed: Option<real>)
    ensures var shown := if finished then finishedTime else elapsed;
      && (shown.Some? ==> ClockValue(ElapsedText(finished, finishedTime, elapsed)) == Some(WholeSeconds(shown.value)))
      && (shown.None? ==> ClockValue(ElapsedText(finished, finishedTime, elapsed)) == None)
  {
    var shown := if finished then finishedTime else elapsed;
    if shown.Some? {
      var total := WholeSeconds(shown.value);
      ClockReading(ZeroPad2(total / 60), total % 60);
    } else {
      NoTimeIsNoClock();
    }
  }

  /** A negative (or sub-second) time is clamped and shows `00:00`. */
  lemma ElapsedTextClamped(finished: bool, finishedTime: Option<real>, elapsed: Option<real>)
    requires var shown := if finished then finishedTime else elapsed; shown.Some? && shown.value < 1.0
    ensures ElapsedText(finished, finishedTime, elapsed) == "00:00"
  {
    assert ZeroPad2(0) == "00" by {
      assert NatToDecimal(0) == [DigitChar(0)];
    }
  }

  /** What the speed column shows: `?` (`Unknown`), or a speed formatted as `{:.2f}frame/s`. */
  datatype SpeedCell = Unknown | Rate(speed: real)

  /**
   * `CustomTransferSpeedColumn.render`: the finishing speed when it is truthy
   * (present and non-zero), otherwise the current speed; `?` when that is absent.
   */
  function SpeedColumn(finishedSpeed: Option<real>, speed: Option<real>): (cell: SpeedCell)
    ensures cell.Unknown? <==> (finishedSpeed.None? || finishedSpeed == Some(0.0)) && speed.None?
    ensures cell.Rate? && finishedSpeed.Some? && finishedSpeed.value != 0.0 ==> cell.speed == finishedSpeed.value
    ensures cell.Rate? && (finishedSpeed.None? || finishedSpeed == Some(0.0)) ==> Some(cell.speed) == speed
  {
    var shown := if finishedSpeed.Some? && finishedSpeed.value != 0.0 then finishedSpeed else speed;
    match shown
    case None => Unknown
    case Some(s) => Rate(s)
  }
}
