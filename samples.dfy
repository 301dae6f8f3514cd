/**
 * The pitch track that `PitchConverter` plots: (time, pitch) samples with
 * unvoiced frames absent, the samples inside the scrolling window, the local
 * average pitch around the current time, and the number of video frames.
 */
module Samples {
  import opened Wrappers
  import opened Numbers

  /** One analysis frame: its time and its pitch, absent when unvoiced. */
  datatype Sample = Sample(time: real, pitch: Option<real>)

  /** Half the width of the averaging span around the current time, in seconds. */
  const AverageSpan: real := 0.4

  /** Zero frequencies mark unvoiced frames and become absent (NaN). */
  function NormalizeSamples(times: seq<real>, freqs: seq<real>): (samples: seq<Sample>)
    requires |times| == |freqs|
    ensures |samples| == |times|
    ensures forall i :: 0 <= i < |samples| ==>
      && samples[i].time == times[i]
      && (samples[i].pitch.None? <==> freqs[i] == 0.0)
      && (samples[i].pitch.Some? ==> samples[i].pitch.value == freqs[i])
  {
    seq(|times|, i requires 0 <= i < |times| => Sample(times[i], if freqs[i] == 0.0 then None else Some(freqs[i])))
  }

  // ---------------------------------------------------------------------------
  // The plotted window

  /** The samples with `lo <= time <= hi`, in their original order. */
  function Window(samples: seq<Sample>, lo: real, hi: real): (w: seq<Sample>)
    ensures |w| <= |samples|
    decreases |samples|
  {
    if samples == [] then []
    else
      var rest := Window(samples[1..], lo, hi);
      if lo <= samples[0].time <= hi then [samples[0]] + rest else rest
  }

  /** The window holds exactly the samples whose time lies within it. */
  lemma {:induction false} WindowMembers(samples: seq<Sample>, lo: real, hi: real)
    ensures forall s :: s in Window(samples, lo, hi) <==> s in samples && lo <= s.time <= hi
    decreases |samples|
  {
    if samples != [] {
      WindowMembers(samples[1..], lo, hi);
      assert forall s :: s in samples <==> s == samples[0] || s in samples[1..];
    }
  }

  /** Windowing keeps the order: it distributes over concatenation. */
  lemma {:induction false} WindowConcat(a: seq<Sample>, b: seq<Sample>, lo: real, hi: real)
    ensures Window(a + b, lo, hi) == Window(a, lo, hi) + Window(b, lo, hi)
    decreases |a|
  {
    if a == [] {
      assert a + b == b;
    } else {
      assert (a + b)[0] == a[0];
      assert (a + b)[1..] == a[1..] + b;
      WindowConcat(a[1..], b, lo, hi);
    }
  }

  // ---------------------------------------------------------------------------
  // The local average (`np.nanmean`)

  /** The pitches present among the samples with `lo <= time <= hi`, in order. */
  function Voiced(samples: seq<Sample>, lo: real, hi: real): (v: seq<real>)
    ensures |v| <= |samples|
    decreases |samples|
  {
    if samples == [] then []
    else
      var rest := Voiced(samples[1..], lo, hi);
      var s := samples[0];
      if lo <= s.time <= hi && s.pitch.Some? then [s.pitch.value] + rest else rest
  }

  /** The averaged values are exactly the pitches of the voiced samples within the span. */
  lemma {:induction false} VoicedMembers(samples: seq<Sample>, lo: real, hi: real)
    ensures forall s :: s in samples && lo <= s.time <= hi && s.pitch.Some? ==> s.pitch.value in Voiced(samples, lo, hi)
    ensures forall p :: p in Voiced(samples, lo, hi) ==>
      exists s :: s in samples && lo <= s.time <= hi && s.pitch == Some(p)
    decreases |samples|
  {
    if samples != [] {
      VoicedMembers(samples[1..], lo, hi);
      assert forall s :: s in samples <==> s == samples[0] || s in samples[1..];
    }
  }

  function Sum(xs: seq<real>): real
    decreases |xs|
  {
    if xs == [] then 0.0 else xs[0] + Sum(xs[1..])
  }

  /** The arithmetic mean; absent for no values, as `np.nanmean` gives NaN. */
  function Mean(xs: seq<real>): Option<real> {
    if xs == [] then None else Some(Sum(xs) / |xs| as real)
  }

  /** The mean of the present pitches within `AverageSpan` of `t`. */
  function LocalAverage(samples: seq<Sample>, t: real): Option<real> {
    Mean(Voiced(samples, t - AverageSpan, t + AverageSpan))
  }

  lemma {:induction false} SumBounds(xs: seq<real>, lo: real, hi: real)
    requires forall i :: 0 <= i < |xs| ==> lo <= xs[i] <= hi
    ensures |xs| as real * lo <= Sum(xs) <= |xs| as real * hi
    decreases |xs|
  {
    if xs != [] {
      SumBounds(xs[1..], lo, hi);
    }
  }

  lemma {:induction false} SumConstant(xs: seq<real>, c: real)
    requires forall i :: 0 <= i < |xs| ==> xs[i] == c
    ensures Sum(xs) == |xs| as real * c
    decreases |xs|
  {
    if xs != [] {
      SumConstant(xs[1..], c);
    }
  }

  /** The average is defined exactly when some voiced sample lies within the span. */
  lemma LocalAverageDefined(samples: seq<Sample>, t: real)
    ensures LocalAverage(samples, t).Some? <==>
      exists s :: s in samples && t - AverageSpan <= s.time <= t + AverageSpan && s.pitch.Some?
  {
    var v := Voiced(samples, t - AverageSpan, t + AverageSpan);
    VoicedMembers(samples, t - AverageSpan, t + AverageSpan);
    if s :| s in samples && t - AverageSpan <= s.time <= t + AverageSpan && s.pitch.Some? {
      assert s.pitch.value in v;
    }
    if v != [] {
      assert v[0] in v;
    }
  }

  lemma DivideBounds(x: real, n: real, lo: real, hi: real)
    requires n > 0.0 && n * lo <= x <= n * hi
    ensures lo <= x / n <= hi
  {
    assert x / n * n == x;
  }

  /** The average lies between the least and the greatest pitch it averages. */
  lemma LocalAverageBounds(samples: seq<Sample>, t: real, lo: real, hi: real)
    requires forall s :: s in samples && t - AverageSpan <= s.time <= t + AverageSpan && s.pitch.Some? ==>
               lo <= s.pitch.value <= hi
    ensures LocalAverage(samples, t).Some? ==> lo <= LocalAverage(samples, t).value <= hi
  {
    var v := Voiced(samples, t - AverageSpan, t + AverageSpan);
    VoicedMembers(samples, t - AverageSpan, t + AverageSpan);
    if v != [] {
      forall i | 0 <= i < |v|
        ensures lo <= v[i] <= hi
      {
        assert v[i] in v;
      }
      SumBounds(v, lo, hi);
      DivideBounds(Sum(v), |v| as real, lo, hi);
    }
  }

  lemma {:induction false} SumPositive(xs: seq<real>)
    requires xs != [] && forall i :: 0 <= i < |xs| ==> xs[i] > 0.0
    ensures Sum(xs) > 0.0
    decreases |xs|
  {
    if |xs| > 1 {
      SumPositive(xs[1..]);
    }
  }

  /** Positive pitches average to a positive value. */
  lemma LocalAveragePositive(samples: seq<Sample>, t: real)
    requires forall s :: s in samples && s.pitch.Some? ==> s.pitch.value > 0.0
    ensures LocalAverage(samples, t).Some? ==> LocalAverage(samples, t).value > 0.0
  {
    var v := Voiced(samples, t - AverageSpan, t + AverageSpan);
    VoicedMembers(samples, t - AverageSpan, t + AverageSpan);
    if v != [] {
      forall i | 0 <= i < |v|
        ensures v[i] > 0.0
      {
        assert v[i] in v;
      }
      SumPositive(v);
    }
  }

  /** A steady pitch `c` within the span averages to `c`. */
  lemma LocalAverageSteady(samples: seq<Sample>, t: real, c: real)
    requires forall s :: s in samples && t - AverageSpan <= s.time <= t + AverageSpan && s.pitch.Some? ==>
               s.pitch.value == c
    ensures LocalAverage(samples, t).Some? ==> LocalAverage(samples, t) == Some(c)
  {
    var v := Voiced(samples, t - AverageSpan, t + AverageSpan);
    VoicedMembers(samples, t - AverageSpan, t + AverageSpan);
    if v != [] {
      forall i | 0 <= i < |v|
        ensures v[i] == c
      {
        assert v[i] in v;
      }
      SumConstant(v, c);
      var n := |v| as real;
      assert n > 0.0;
      assert Sum(v) == n * c;
      DivideBounds(Sum(v), n, c, c);
    }
  }

  // ---------------------------------------------------------------------------
  // total_frames_count

  /** `int(duration * fps)`. */
  function TotalFrames(duration: real, fps: int): (n: int)
    ensures duration >= 0.0 && fps >= 0 ==> n >= 0
  {
    Trunc(duration * fps as real)
  }

  /** The time of frame `idx`: `frame_idx / fps`. */
  function FrameTime(idx: int, fps: int): real
    requires fps > 0
  {
    idx as real / fps as real
  }

  /**
   * For a non-negative duration the count is pinned: every counted frame
   * starts before the end of the audio, the first uncounted frame starts
   * no later than the end, and the frame after it starts past the end. So
   * `int()` drops the last frame that starts within the audio but would
   * run past its end.
   */
  lemma FramesCoverDuration(duration: real, fps: int)
    requires duration >= 0.0 && fps > 0
    ensures TotalFrames(duration, fps) >= 0
    ensures forall idx :: 0 <= idx < TotalFrames(duration, fps) ==> FrameTime(idx, fps) < duration
    ensures FrameTime(TotalFrames(duration, fps), fps) <= duration < FrameTime(TotalFrames(duration, fps) + 1, fps)
  {
    var n := TotalFrames(duration, fps);
    var f := fps as real;
    assert n as real <= duration * f < n as real + 1.0;
    forall idx | 0 <= idx < n
      ensures FrameTime(idx, fps) < duration
    {
      assert idx as real < duration * f;
      assert idx as real / f < duration * f / f;
    }
    assert n as real / f <= duration * f / f;
    assert duration * f / f < (n as real + 1.0) / f;
  }
}
