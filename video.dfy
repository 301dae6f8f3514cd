/**
 * The video side of `PitchConverter`: the cached video resolution
 * (`get_video_resolution`) and the ffmpeg command line that overlays the
 * pitch video on the original one (`combine_video`).
 */
module Video {
  import opened Wrappers
  import opened Strings

  /**
   * A video resolution as the converter stores it: the integers read from the
   * probe's `WxH` output, or a width with the height derived as `w / 16 * 9`.
   */
  datatype Resolution = Probed(dims: seq<int>) | Derived(width: int, height: real)

  /** What the `ffprobe` run returned: its exit status and standard output. */
  datatype ProbeOutcome = ProbeOutcome(exitCode: int, stdout: string)

  // ---------------------------------------------------------------------------
  // Reading the probe output

  /** Piece `i` is not an integer, and every piece before it is. */
  predicate FirstBadPiece(pieces: seq<string>, i: int) {
    0 <= i < |pieces| && ParseInt(pieces[i]).None? && forall j :: 0 <= j < i ==> ParseInt(pieces[j]).Some?
  }

  /** `tuple(map(int, pieces))`: every piece as an integer, or the first piece that is none. */
  function ParseDims(pieces: seq<string>): (r: Result<seq<int>, Error>)
    ensures r.Success? ==>
      |r.value| == |pieces| && forall i :: 0 <= i < |pieces| ==> ParseInt(pieces[i]) == Some(r.value[i])
    ensures r.Failure? <==> exists i :: 0 <= i < |pieces| && ParseInt(pieces[i]).None?
    ensures r.Failure? ==> exists i :: FirstBadPiece(pieces, i) && r.error == InvalidLiteral(pieces[i])
    decreases |pieces|
  {
    if pieces == [] then Success([])
    else match ParseInt(pieces[0])
      case None =>
        assert FirstBadPiece(pieces, 0);
        Failure(InvalidLiteral(pieces[0]))
      case Some(n) =>
        var rest := ParseDims(pieces[1..]);
        if rest.Failure? then
          var i :| FirstBadPiece(pieces[1..], i) && rest.error == InvalidLiteral(pieces[1..][i]);
          assert FirstBadPiece(pieces, i + 1);
          Failure(rest.error)
        else
          assert forall i :: 0 < i < |pieces| ==> pieces[i] == pieces[1..][i - 1];
          Success([n] + rest.value)
  }

  /** `tuple(map(int, text.split("x")))`. */
  function ParseResolution(text: string): (r: Result<seq<int>, Error>)
    ensures r.Success? ==> |r.value| == |Split(text, 'x')| >= 1
  {
    ParseDims(Split(text, 'x'))
  }

  lemma DecimalHasNoX(n: int)
    ensures 'x' !in IntToDecimal(n)
  {
    var s := NatToDecimal(if n < 0 then -n else n);
    assert forall i :: 0 <= i < |s| ==> IsDigit(s[i]);
    assert IntToDecimal(n) == s || IntToDecimal(n) == "-" + s;
  }

  lemma ParseDimsOne(b: string, h: int)
    requires ParseInt(b) == Some(h)
    ensures ParseDims([b]) == Success([h])
  {
    var ps := [b];
    assert ps[1..] == [];
    var rest := ParseDims(ps[1..]);
    assert rest == Success([]);
    assert [h] + rest.value == [h];
  }

  lemma ParseDimsPair(a: string, b: string, w: int, h: int)
    requires ParseInt(a) == Some(w) && ParseInt(b) == Some(h)
    ensures ParseDims([a, b]) == Success([w, h])
  {
    var ps := [a, b];
    assert ps[1..] == [b];
    ParseDimsOne(b, h);
    var rest := ParseDims(ps[1..]);
    assert [w] + rest.value == [w, h];
  }

  lemma NoXInSpace(trailing: string)
    requires forall i :: 0 <= i < |trailing| ==> IsSpace(trailing[i])
    ensures 'x' !in trailing
  {
  }

  /** The probe's `W x H` line reads back as the pair of integers. */
  lemma ParseResolutionOf(w: int, h: int, trailing: string)
    requires forall i :: 0 <= i < |trailing| ==> IsSpace(trailing[i])
    ensures ParseResolution(IntToDecimal(w) + "x" + IntToDecimal(h) + trailing) == Success([w, h])
  {
    var a := IntToDecimal(w);
    var b := IntToDecimal(h) + trailing;
    DecimalHasNoX(w);
    DecimalHasNoX(h);
    NoXInSpace(trailing);
    assert IntToDecimal(w) + "x" + IntToDecimal(h) + trailing == a + ['x'] + b;
    SplitPair(a, b, 'x');
    IntRoundTrip(w, "");
    assert a + "" == a;
    IntRoundTrip(h, trailing);
    ParseDimsPair(a, b, w, h);
  }

  /** A probe line without `x` gives a one-element resolution, not an error. */
  lemma ParseResolutionSingle(w: int)
    ensures ParseResolution(IntToDecimal(w) + "\n") == Success([w])
  {
    var a := IntToDecimal(w) + "\n";
    DecimalHasNoX(w);
    assert 'x' !in a;
    SplitNoSeparator(a, 'x');
    IntRoundTrip(w, "\n");
    ParseDimsOne(a, w);
  }

  /** Empty probe output is not a number. */
  lemma ParseResolutionEmpty()
    ensures ParseResolution("") == Failure(InvalidLiteral(""))
  {
    SplitNoSeparator("", 'x');
    assert ParseInt("") == None;
  }

  /** The resolution a finished probe yields. */
  function ProbeResolution(probe: ProbeOutcome): (r: Result<Resolution, Error>)
    ensures probe.exitCode != 0 <==> r == Failure(ProcessFailed(probe.exitCode))
    ensures probe.exitCode == 0 ==>
      (r.Success? <==> forall i :: 0 <= i < |Split(probe.stdout, 'x')| ==> ParseInt(Split(probe.stdout, 'x')[i]).Some?)
    ensures r.Success? ==> r.value.Probed? && |r.value.dims| == |Split(probe.stdout, 'x')| >= 1
    ensures r.Success? ==> forall i :: 0 <= i < |r.value.dims| ==> ParseInt(Split(probe.stdout, 'x')[i]) == Some(r.value.dims[i])
    ensures r.Failure? && probe.exitCode == 0 ==>
      exists i :: FirstBadPiece(Split(probe.stdout, 'x'), i) && r.error == InvalidLiteral(Split(probe.stdout, 'x')[i])
  {
    if probe.exitCode != 0 then Failure(ProcessFailed(probe.exitCode))
    else match ParseResolution(probe.stdout)
      case Success(dims) => Success(Probed(dims))
      case Failure(e) => Failure(e)
  }

  // ---------------------------------------------------------------------------
  // The ffmpeg filter graph

  const GpuHead: string := "[0:v]" + "hwupload [base];[1:v]hwupload, scale_cuda="
  const GpuMiddle: string := ":-1 [pitch];[base][pitch]overlay_cuda="
  const CpuHead: string := "[1:v]scale="
  const CpuMiddle: string := ":-1 [pitch]; [0:v][pitch]overlay="
  const Tail: string := " [outv]"

  /** The `-filter_complex` argument with `{scale}` and `{position}` filled in. */
  function FilterComplex(gpu: bool, scale: int, position: string): (filter: string)
    ensures gpu <==> |filter| >= |GpuHead| && filter[..|GpuHead|] == GpuHead
    ensures |filter| >= |Tail| && filter[|filter| - |Tail|..] == Tail
  {
    var head := if gpu then GpuHead else CpuHead;
    var filter := head + IntToDecimal(scale) + (if gpu then GpuMiddle else CpuMiddle) + position + Tail;
    assert filter[..|head|] == head;
    assert CpuHead[1] == '1' && GpuHead[1] == '0';
    assert filter[1] == head[1];
    assert |filter| >= |GpuHead| ==> filter[..|GpuHead|][1] == filter[1];
    filter
  }

  lemma DecimalHasNoColon(n: int)
    ensures ':' !in IntToDecimal(n)
  {
    var s := NatToDecimal(if n < 0 then -n else n);
    assert forall i :: 0 <= i < |s| ==> IsDigit(s[i]);
    assert IntToDecimal(n) == s || IntToDecimal(n) == "-" + s;
  }

  /** In `a + x`, with `a` colon-free and `x` starting with a colon, the first colon is at `|a|`. */
  lemma FirstColon(a: string, x: string)
    requires ':' !in a && x != [] && x[0] == ':'
    ensures (a + x)[|a|] == ':'
    ensures forall i :: 0 <= i < |a| ==> (a + x)[i] != ':'
  {
    forall i | 0 <= i < |a|
      ensures (a + x)[i] != ':'
    {
      assert (a + x)[i] == a[i];
    }
  }

  /** Two colon-free prefixes followed by a colon are equal when the whole texts are. */
  lemma PrefixBeforeColon(a: string, x: string, b: string, y: string)
    requires ':' !in a && ':' !in b && x != [] && y != [] && x[0] == ':' && y[0] == ':'
    requires a + x == b + y
    ensures a == b && x == y
  {
    FirstColon(a, x);
    FirstColon(b, y);
    assert |a| == |b|;
    assert a == (a + x)[..|a|];
    assert b == (b + y)[..|b|];
    assert x == (a + x)[|a|..];
    assert y == (b + y)[|b|..];
  }

  /** `head + d + mid + p + tail` determines a colon-free `d` and `p` once `mid` starts with a colon. */
  lemma TemplateInjective(head: string, mid: string, tail: string, d1: string, p1: string, d2: string, p2: string)
    requires mid != [] && mid[0] == ':' && ':' !in d1 && ':' !in d2
    requires head + d1 + mid + p1 + tail == head + d2 + mid + p2 + tail
    ensures d1 == d2 && p1 == p2
  {
    assert head + d1 + mid + p1 + tail == head + (d1 + (mid + (p1 + tail)));
    assert head + d2 + mid + p2 + tail == head + (d2 + (mid + (p2 + tail)));
    DropCommonPrefix(head, d1 + (mid + (p1 + tail)), d2 + (mid + (p2 + tail)));
    PrefixBeforeColon(d1, mid + (p1 + tail), d2, mid + (p2 + tail));
    DropCommonPrefix(mid, p1 + tail, p2 + tail);
    DropCommonSuffix(p1, p2, tail);
  }

  /**
   * The filter graph carries the scale and the position verbatim: different
   * settings give different filter strings.
   */
  lemma FilterComplexInjective(gpu: bool, s1: int, p1: string, s2: int, p2: string)
    requires FilterComplex(gpu, s1, p1) == FilterComplex(gpu, s2, p2)
    ensures s1 == s2 && p1 == p2
  {
    var head := if gpu then GpuHead else CpuHead;
    var mid := if gpu then GpuMiddle else CpuMiddle;
    var d1, d2 := IntToDecimal(s1), IntToDecimal(s2);
    DecimalHasNoColon(s1);
    DecimalHasNoColon(s2);
    assert mid[0] == ':';
    TemplateInjective(head, mid, Tail, d1, p1, d2, p2);
    IntRoundTrip(s1, "");
    IntRoundTrip(s2, "");
    assert d1 + "" == d1 && d2 + "" == d2;
  }

  // ---------------------------------------------------------------------------
  // The ffmpeg inputs

  const HwAccel: seq<string> := ["-hwaccel", "cuvid", "-hwaccel_output_format", "cuda"]
  const Encoder: seq<string> := ["-c:v", "h264_nvenc"]

  /** The arguments for one input file. */
  function InputFlags(gpu: bool, path: string): seq<string> {
    (if gpu then HwAccel else []) + ["-i", path]
  }

  /** The arguments for all input files, in order. */
  function PathInputs(gpu: bool, paths: seq<string>): seq<string>
    decreases |paths|
  {
    if paths == [] then [] else PathInputs(gpu, paths[..|paths| - 1]) + InputFlags(gpu, paths[|paths| - 1])
  }

  /** The `inputs` list, encoder choice included. */
  function Inputs(gpu: bool, paths: seq<string>): (args: seq<string>)
    ensures |args| == if gpu then 6 * |paths| + 2 else 2 * |paths|
    ensures gpu ==> args[|args| - |Encoder|..] == Encoder
  {
    InputsLayout(gpu, paths);
    PathInputs(gpu, paths) + (if gpu then Encoder else [])
  }

  /** Arguments per input: 6 with the hardware-decoding flags, 2 without. */
  function Stride(gpu: bool): nat { if gpu then 6 else 2 }

  /**
   * Each input `k` occupies its own block of the arguments: the hardware
   * flags first when decoding on the GPU, then `-i` and the path.
   */
  lemma {:induction false} InputsLayout(gpu: bool, paths: seq<string>)
    ensures |PathInputs(gpu, paths)| == Stride(gpu) * |paths|
    ensures forall k :: 0 <= k < |paths| ==>
      PathInputs(gpu, paths)[Stride(gpu) * k .. Stride(gpu) * (k + 1)] == InputFlags(gpu, paths[k])
    decreases |paths|
  {
    if paths != [] {
      var n := |paths| - 1;
      var w := Stride(gpu);
      var init := paths[..n];
      InputsLayout(gpu, init);
      var pre := PathInputs(gpu, init);
      var all := PathInputs(gpu, paths);
      assert all == pre + InputFlags(gpu, paths[n]);
      assert |InputFlags(gpu, paths[n])| == w;
      forall k | 0 <= k < |paths|
        ensures all[w * k .. w * (k + 1)] == InputFlags(gpu, paths[k])
      {
        if k < n {
          assert w * (k + 1) <= w * n;
          assert all[w * k .. w * (k + 1)] == pre[w * k .. w * (k + 1)];
          assert init[k] == paths[k];
        } else {
          assert all[w * k .. w * (k + 1)] == all[|pre|..];
        }
      }
    }
  }

  /** Without GPU, a video and one pitch video give `-i video -i pitch`. */
  lemma PlainInputs(video: string, pitch: string)
    ensures Inputs(false, [video, pitch]) == ["-i", video, "-i", pitch]
  {
    assert [video, pitch][..1] == [video];
    assert [video][..0] == [];
    assert PathInputs(false, [video]) == ["-i", video];
    assert PathInputs(false, [video, pitch]) == ["-i", video] + ["-i", pitch];
  }

  // ---------------------------------------------------------------------------
  // The converter

  class PitchConverter {
    const videoPath: string
    const outputPath: string
    const gpu: bool
    const ffmpeg: string
    /** `--pitch-width`; 0 stands for "not given" (falsy). */
    const pitchWidth: int
    const pitchPosition: string
    /** The cached resolution, unset until first asked for. */
    var resolution: Option<Resolution>

    /** A probed resolution always holds at least one number. */
    ghost predicate Valid()
      reads this
    {
      resolution.Some? && resolution.value.Probed? ==> |resolution.value.dims| >= 1
    }

    constructor (videoPath: string, outputPath: string, gpu: bool, ffmpeg: string, pitchWidth: int, pitchPosition: string)
      ensures Valid() && resolution == None
      ensures this.videoPath == videoPath && this.outputPath == outputPath && this.gpu == gpu
      ensures this.ffmpeg == ffmpeg && this.pitchWidth == pitchWidth && this.pitchPosition == pitchPosition
    {
      this.videoPath := videoPath;
      this.outputPath := outputPath;
      this.gpu := gpu;
      this.ffmpeg := ffmpeg;
      this.pitchWidth := pitchWidth;
      this.pitchPosition := pitchPosition;
      resolution := None;
    }

    /**
     * `get_video_resolution`: the cached value if there is one; otherwise the
     * pitch width and its 16:9 height; otherwise the probe's `WxH` output.
     * `probe` stands for the result of running `ffprobe` on the video.
     */
    method GetVideoResolution(probe: ProbeOutcome) returns (r: Result<Resolution, Error>)
      requires Valid()
      modifies this
      ensures Valid()
      ensures old(resolution).Some? ==> r == Success(old(resolution).value) && resolution == old(resolution)
      ensures old(resolution).None? && pitchWidth != 0 ==>
        r == Success(Derived(pitchWidth, pitchWidth as real / 16.0 * 9.0)) && resolution == Some(r.value)
      ensures old(resolution).None? && pitchWidth == 0 ==>
        r == ProbeResolution(probe) && resolution == (if r.Success? then Some(r.value) else None)
    {
      if resolution.Some? {
        return Success(resolution.value);
      }
      if pitchWidth != 0 {
        resolution := Some(Derived(pitchWidth, pitchWidth as real / 16.0 * 9.0));
        return Success(resolution.value);
      }
      r := ProbeResolution(probe);
      if r.Success? {
        resolution := Some(r.value);
      }
    }

    /** `pitch_width or resolution[0] // 2`; indexing an unset resolution fails. */
    function Scale(): (r: Result<int, Error>)
      requires Valid()
      reads this
      ensures pitchWidth != 0 ==> r == Success(pitchWidth)
      ensures pitchWidth == 0 && resolution.None? ==> r == Failure(NotSubscriptable)
      ensures pitchWidth == 0 && resolution.Some? && resolution.value.Probed? ==>
        r.Success? && 2 * r.value <= resolution.value.dims[0] < 2 * r.value + 2
    {
      if pitchWidth != 0 then Success(pitchWidth)
      else match resolution
        case None => Failure(NotSubscriptable)
        case Some(Probed(dims)) => Success(dims[0] / 2)
        case Some(Derived(w, _)) => Success(w / 2)
    }

    /** The argument list of the ffmpeg run, once the scale is known. */
    function Command(pitchPaths: seq<string>, scale: int): (args: seq<string>)
      reads this
      ensures |args| == |Inputs(gpu, [videoPath] + pitchPaths)| + 11
      ensures args[0] == ffmpeg && args[|args| - 1] == outputPath
    {
      [ffmpeg, "-loglevel", "error", "-stats"]
        + Inputs(gpu, [videoPath] + pitchPaths)
        + ["-filter_complex", FilterComplex(gpu, scale, pitchPosition), "-map", "[outv]", "-map", "0:a", outputPath]
    }

    /** The `inputs` loop of `combine_video`. */
    method BuildInputs(paths: seq<string>) returns (inputs: seq<string>)
      ensures inputs == Inputs(gpu, paths)
    {
      inputs := [];
      for i := 0 to |paths|
        invariant inputs == PathInputs(gpu, paths[..i])
      {
        if gpu {
          inputs := inputs + HwAccel;
        }
        inputs := inputs + ["-i", paths[i]];
        assert paths[..i + 1][..i] == paths[..i];
      }
      assert paths[..|paths|] == paths;
      if gpu {
        inputs := inputs + Encoder;
      }
    }

    /** `combine_video`: the ffmpeg command line, or the error building it raises. */
    method CombineVideo(pitchPaths: seq<string>) returns (r: Result<seq<string>, Error>)
      requires Valid()
      ensures Scale().Failure? ==> r == Failure(Scale().error)
      ensures Scale().Success? ==> r == Success(Command(pitchPaths, Scale().value))
    {
      var inputs := BuildInputs([videoPath] + pitchPaths);
      var scale := Scale();
      if scale.Failure? {
        return Failure(scale.error);
      }
      var filter := FilterComplex(gpu, scale.value, pitchPosition);
      r := Success([ffmpeg, "-loglevel", "error", "-stats"] + inputs
                   + ["-filter_complex", filter, "-map", "[outv]", "-map", "0:a", outputPath]);
    }
  }

  /**
   * The command starts with the ffmpeg path and the logging flags, gives the
   * video as the first input, and ends with the filter, the two stream maps
   * and the output path.
   */
  lemma CommandLayout(c: PitchConverter, pitchPaths: seq<string>, scale: int)
    ensures var cmd := c.Command(pitchPaths, scale);
      var n := 4 + Stride(c.gpu) * (1 + |pitchPaths|) + (if c.gpu then 2 else 0);
      && |cmd| == n + 7
      && cmd[..4] == [c.ffmpeg, "-loglevel", "error", "-stats"]
      && cmd[4 + Stride(c.gpu) - 2] == "-i" && cmd[4 + Stride(c.gpu) - 1] == c.videoPath
      && cmd[n..] == ["-filter_complex", FilterComplex(c.gpu, scale, c.pitchPosition),
                      "-map", "[outv]", "-map", "0:a", c.outputPath]
  {
    var paths := [c.videoPath] + pitchPaths;
    InputsLayout(c.gpu, paths);
    var w := Stride(c.gpu);
    var pi := PathInputs(c.gpu, paths);
    assert paths[0] == c.videoPath;
    assert w * 0 == 0 && w * (0 + 1) == w;
    assert pi[0 .. w] == InputFlags(c.gpu, c.videoPath);
    assert pi[w - 2] == "-i" && pi[w - 1] == c.videoPath;
  }
}
