/**
 * The per-frame state of the pitch video: `PitchConverter.animate` as a
 * one-step state machine over the values it writes into the figure (the
 * y-limits, the tone labels' positions and visibility, the x-limits, the
 * ticks, the plotted samples, the current-time line) and the progress count.
 */
module Animation {
  import opened Wrappers
  import opened Samples
  import opened Ticks
  import opened Tonality

  /** The initial y-limits, before any average is known. */
  const InitialLow: real := 256.0 * 0.7
  const InitialHigh: real := 256.0 * 1.7
  /** The y-limits around an average pitch: about half an octave below, an octave above. */
  const LowFactor: real := 0.70710678
  const HighFactor: real := 1.81712059
  /** Labels sit this far above their reference line and right of the window start. */
  const LabelOffset: real := 0.02
  /** The x position of the labels before the first frame. */
  const InitialLabelX: real := 1.02

  /** A tone label: its text, position and visibility. */
  datatype Label = Label(text: string, x: real, y: real, visible: bool)

  /** A label is shown exactly when its height lies within the y-limits. */
  predicate Shown(y: real, low: real, high: real) { low <= y <= high }

  /** The labels of the reference points, placed before the first frame. */
  function InitialLabels(points: seq<RefPoint>): (labels: seq<Label>)
    ensures |labels| == |points|
    ensures forall i :: 0 <= i < |points| ==>
      && labels[i].text == points[i].name
      && labels[i].x == InitialLabelX
      && labels[i].y == points[i].freq + LabelOffset
      && labels[i].visible == Shown(labels[i].y, InitialLow, InitialHigh)
  {
    seq(|points|, i requires 0 <= i < |points| =>
      var y := points[i].freq + LabelOffset;
      Label(points[i].name, InitialLabelX, y, Shown(y, InitialLow, InitialHigh)))
  }

  /**
   * When every present pitch is a positive frequency, the local average is
   * positive, so the y-limits a voiced frame sets strictly contain it.
   */
  lemma YLimitsBracket(samples: seq<Sample>, t: real)
    requires forall s :: s in samples && s.pitch.Some? ==> s.pitch.value > 0.0
    ensures var avg := LocalAverage(samples, t);
      avg.Some? ==> 0.0 < avg.value * LowFactor < avg.value < avg.value * HighFactor
  {
    LocalAveragePositive(samples, t);
    var avg := LocalAverage(samples, t);
    if avg.Some? {
      ScaledLimits(avg.value);
    }
  }

  lemma ScaledLimits(a: real)
    requires a > 0.0
    ensures 0.0 < a * LowFactor < a < a * HighFactor
  {
  }

  /** The first label loop of `animate`: each label is shown exactly when it lies within the new y-limits. */
  method SetVisibility(ls: seq<Label>, low: real, high: real) returns (r: seq<Label>)
    ensures |r| == |ls|
    ensures forall k :: 0 <= k < |r| ==> r[k] == ls[k].(visible := Shown(ls[k].y, low, high))
  {
    r := ls;
    for i := 0 to |r|
      invariant |r| == |ls|
      invariant forall k :: 0 <= k < i ==> r[k] == ls[k].(visible := Shown(ls[k].y, low, high))
      invariant forall k :: i <= k < |r| ==> r[k] == ls[k]
    {
      r := r[i := r[i].(visible := Shown(r[i].y, low, high))];
    }
  }

  /** The second label loop of `animate`: every label moves to the same x position. */
  method SetX(ls: seq<Label>, x: real) returns (r: seq<Label>)
    ensures |r| == |ls|
    ensures forall k :: 0 <= k < |r| ==> r[k] == ls[k].(x := x)
  {
    r := ls;
    for j := 0 to |r|
      invariant |r| == |ls|
      invariant forall k :: 0 <= k < j ==> r[k] == ls[k].(x := x)
      invariant forall k :: j <= k < |r| ==> r[k] == ls[k]
    {
      r := r[j := r[j].(x := x)];
    }
  }

  class PitchAxes {
    /** Frames per second of the pitch video. */
    const fps: int
    /** The whole pitch track. */
    const samples: seq<Sample>

    var yLow: real
    var yHigh: real
    var xLow: real
    var xHigh: real
    var ticks: seq<int>
    var tickLabels: seq<string>
    /** The x position of the current-time line. */
    var midLine: real
    /** The samples drawn in the current window. */
    var plotted: seq<Sample>
    var labels: seq<Label>
    /** Frames rendered so far (the progress bar's count). */
    var progress: nat

    /** Every label's visibility agrees with the current y-limits; the tick labels name the ticks. */
    ghost predicate Valid()
      reads this
    {
      && (forall i :: 0 <= i < |labels| ==> labels[i].visible == Shown(labels[i].y, yLow, yHigh))
      && tickLabels == TickLabels(ticks)
    }

    /** The figure as `generate_pitch_video` sets it up before the first frame. */
    constructor (fps: int, samples: seq<Sample>, points: seq<RefPoint>)
      ensures Valid()
      ensures this.fps == fps && this.samples == samples
      ensures yLow == InitialLow && yHigh == InitialHigh
      ensures xLow == -TimeRange && xHigh == TimeRange && midLine == 0.0
      ensures ticks == [] && tickLabels == [] && plotted == samples && progress == 0
      ensures labels == InitialLabels(points)
    {
      this.fps := fps;
      this.samples := samples;
      yLow, yHigh := InitialLow, InitialHigh;
      var ls := [];
      for i := 0 to |points|
        invariant ls == InitialLabels(points[..i])
      {
        var y := points[i].freq + LabelOffset;
        ls := ls + [Label(points[i].name, InitialLabelX, y, Shown(y, InitialLow, InitialHigh))];
      }
      assert points[..|points|] == points;
      labels := ls;
      xLow, xHigh := -TimeRange, TimeRange;
      midLine := 0.0;
      plotted := samples;
      ticks, tickLabels := [], [];
      progress := 0;
    }

    /** `animate(frame_idx)`: draw frame `frameIdx`. */
    method Animate(frameIdx: nat)
      requires Valid() && fps > 0
      modifies this
      ensures Valid()
      ensures var t := FrameTime(frameIdx, fps);
        && midLine == t
        && ticks == TickRange(t) && tickLabels == TickLabels(ticks)
        && plotted == Window(samples, t - TimeRange, t + TimeRange)
        && xLow == t - TimeRange && xHigh == t + TimeRange
        && |labels| == |old(labels)|
        && (forall i :: 0 <= i < |labels| ==>
              && labels[i].text == old(labels[i].text)
              && labels[i].y == old(labels[i].y)
              && labels[i].x == t - TimeRange + LabelOffset)
        && progress == old(progress) + 1
      ensures var avg := LocalAverage(samples, FrameTime(frameIdx, fps));
        && (avg.Some? ==>
              && yLow == avg.value * LowFactor && yHigh == avg.value * HighFactor
              && forall i :: 0 <= i < |labels| ==> labels[i].visible == Shown(labels[i].y, yLow, yHigh))
        && (avg.None? ==>
              && yLow == old(yLow) && yHigh == old(yHigh)
              && forall i :: 0 <= i < |labels| ==> labels[i].visible == old(labels[i].visible))
    {
      var t := FrameTime(frameIdx, fps);
      var start, end := t - TimeRange, t + TimeRange;
      var ts := TickRange(t);
      var avg := LocalAverage(samples, t);
      var ls := labels;
      if avg.Some? {
        var low, high := avg.value * LowFactor, avg.value * HighFactor;
        ls := SetVisibility(ls, low, high);
        yLow, yHigh := low, high;
      }
      ls := SetX(ls, start + LabelOffset);
      midLine, ticks, tickLabels := t, ts, TickLabels(ts);
      plotted := Window(samples, start, end);
      labels, xLow, xHigh := ls, start, end;
      progress := progress + 1;
    }
  }
}
