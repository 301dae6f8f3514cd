/**
 * Reading back the `minutes:seconds` clock texts that the tick labels and the
 * elapsed-time column produce.
 */
module Clock {
  import opened Wrappers
  import opened Strings

  /**
   * The number of seconds a clock text `m:ss` denotes: one or more minute
   * digits, a colon, and exactly two second digits below 60.
   */
  function ClockValue(text: string): (r: Option<nat>)
    ensures r.Some? ==> ':' in text
  {
    var parts := Split(text, ':');
    if |parts| == 2 && parts[0] != [] && AllDigits(parts[0])
       && |parts[1]| == 2 && AllDigits(parts[1]) && DigitsValue(parts[1]) < 60
    then
      JoinSplit(text, ':');
      assert text == parts[0] + [':'] + parts[1];
      Some(60 * DigitsValue(parts[0]) + DigitsValue(parts[1]))
    else None
  }

  lemma DigitsHaveNoColon(s: string)
    requires AllDigits(s)
    ensures ':' !in s
  {
  }

  /** A minute text and two second digits read back as `60 * minutes + seconds`. */
  lemma ClockReading(minutes: string, seconds: nat)
    requires minutes != [] && AllDigits(minutes) && seconds < 60
    ensures ClockValue(minutes + ":" + ZeroPad2(seconds)) == Some(60 * DigitsValue(minutes) + seconds)
  {
    var ss := ZeroPad2(seconds);
    DigitsHaveNoColon(minutes);
    DigitsHaveNoColon(ss);
    assert minutes + ":" + ss == minutes + [':'] + ss;
    SplitAround(minutes, ss, ':');
    SplitNoSeparator(minutes, ':');
    SplitNoSeparator(ss, ':');
  }
}
