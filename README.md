# pitch-visualizer in Dafny

pitch-visualizer overlays a scrolling pitch graph on a singing video. The singer can compare the pitch they sang with the reference tones of a chosen key. This project models the deterministic core of that program and proves properties about it:

- **The tonal reference model** (`tone.py`): the twelve tone names; the pitch-name to frequency table for octaves 0 to 7; a key's major scale; bound normalisation (`normalize_to_freq`); and the in-range reference lines of a key (`get_tone_and_freq`).
- **The per-frame state of the pitch video** (`PitchConverter.animate`): the current time, the scrolling x-window, and the tick positions with their `m:ss` labels (`_time_format`). It also covers the plotted samples, the local average pitch and the y-limits derived from it, the tone labels' visibility and position, and the progress count. The figure set-up that precedes the first frame is modelled too.
- **The compositing side of `PitchConverter`**: the cached video resolution (`get_video_resolution`), and the ffmpeg argument list and filter graph of `combine_video`.
- **The two custom progress columns** (`progress.py`): elapsed time as `mm:ss`, and the speed column's `?` when no speed is known.
- **The command-line entry point** (`__main__.py`): the default output path, and the guard that stops when no ffmpeg executable exists.

Modules, one per concern:

| module | file | role |
|---|---|---|
| `Wrappers` | `wrappers.dfy` | `Option`, `Result` and the Python exceptions the core raises |
| `Strings` | `strings.dfy` | `str.split`/`join`, `str(n)`, `f"{n:02d}"`, `int(text)` |
| `Numbers` | `numbers.dfy` | floor, `np.ceil`, `x % 1`, truncating `int(x)` on exact reals |
| `Clock` | `clock.dfy` | reads a `m:ss` clock text back into seconds (the partner of both time formatters) |
| `Tone` | `tone.dfy` | `TONES`, `BASE_DIFF`, `TONE_FREQ_MAP` and pitch-name parsing |
| `Tonality` | `tonality.dfy` | `Tonality.__init__`, `normalize_to_freq`, `get_tone_and_freq` |
| `Ticks` | `ticks.dfy` | tick positions and `_time_format` |
| `Samples` | `samples.dfy` | the pitch track, the plotted window, `np.nanmean` of the span, `total_frames_count` |
| `Animation` | `animation.dfy` | the figure state as a class; `animate` as a method that updates it |
| `Video` | `video.dfy` | `PitchConverter`'s resolution cache and the ffmpeg command |
| `Progress` | `progress.dfy` | the two `render` methods |
| `Cli` | `cli.dfy` | the output-path default and the ffmpeg guard |

A pitch is identified by its semitone number `12 * octave + toneIndex`. The table maps `f"{tone}{octave}"` to `BaseFreq * 2^octave * SemitoneRatio[toneIndex]`. Here `SemitoneRatio[k]` is 2^(k/12), rounded to six decimals, as an exact real.

Two behaviours of the code are easy to misread:

- **Tick boundary correction.** When `24/60 <= t % 1 <= 0.5`, the code adds 1 to the low end of the `arange`, so it drops the lowest candidate tick. When `0.5 <= t % 1 <= 34/60`, it adds 0 instead of 1 to the high end, so it drops the highest candidate. The correction only ever drops a tick; it never adds one.
- **Probe output without an `x`.** Probe output such as `1920` gives a one-element tuple rather than an error (`Video.ParseResolutionSingle`).

## Model

| member | source | states |
|---|---|---|
| Tone.IndexOf | pitch-visualizer/tone.py:12 | `list.index`: absent exactly when the value is not in the list, otherwise a position that holds the value |
| Tone.IndexOfFirst | pitch-visualizer/tone.py:12 | the position `index` finds is the first occurrence |
| Tone.ToneIndex | pitch-visualizer/tone.py:10-12 | a tone's position in `TONES`, absent exactly when it is not one of the twelve names |
| Tone.ToneIndexOf | pitch-visualizer/tone.py:1 | the twelve names are distinct, so `TONES.index(TONES[k]) == k` |
| Tone.Freq | pitch-visualizer/tone.py:4 | every table frequency is positive |
| Tone.FreqStep | pitch-visualizer/tone.py:4 | one semitone up, also across an octave boundary, is a strictly higher frequency |
| Tone.FreqStrictlyIncreasing | pitch-visualizer/tone.py:4 | frequency is strictly increasing in the semitone number |
| Tone.ParseNameIn | pitch-visualizer/tone.py:4 | reading a name `f"{t}{i}"` back yields a semitone below 96 or nothing |
| Tone.ParseNameInOf | pitch-visualizer/tone.py:4 | for any twelve distinct tone names, the name of tone `t` in octave `o` reads back as `12 * o + t` |
| Tone.ParseNameInSound | pitch-visualizer/tone.py:4 | a name that reads back as semitone `s` is exactly the name of `s`: no other text parses |
| Tone.PitchNameInInjective | pitch-visualizer/tone.py:3-5 | distinct semitones have distinct names |
| Tone.ParsePitchNameOf | pitch-visualizer/tone.py:3-5 | the key of semitone `s` reads back as `s` |
| Tone.PitchNameOf | pitch-visualizer/tone.py:4 | the key of semitone `12 * o + t` is `f"{TONES[t]}{o}"` |
| Tone.PitchNameInjective | pitch-visualizer/tone.py:3-5 | the comprehension never writes two pitches to one key |
| Tone.ToneFreqMap | pitch-visualizer/tone.py:3-5 | every frequency in `TONE_FREQ_MAP` is positive; its keys and values are stated by `ToneFreqMapKeys` and `ToneFreqMapByParse` |
| Tone.ToneFreqMapKeys | pitch-visualizer/tone.py:3-5 | `TONE_FREQ_MAP` has exactly 96 keys, and a text is a key exactly when it parses as a pitch name |
| Tone.ToneFreqMapSize | pitch-visualizer/tone.py:3-5 | the table has 12 * 8 entries |
| Tone.ToneFreqMapKey | pitch-visualizer/tone.py:3-5 | a text is a key exactly when it parses as a pitch name |
| Tone.ToneFreqMapLookup | pitch-visualizer/tone.py:3-5 | `f"{t}{i}"` is a key for every tone and octave 0..7, mapped to the frequency of semitone `12 * i + index(t)` |
| Tone.PitchValue | pitch-visualizer/tone.py:3-5 | the key of semitone `s` maps to `Freq(s)` |
| Tone.ToneFreqMapByParse | pitch-visualizer/tone.py:3-5 | every key maps to the frequency of the semitone its name denotes |
| Tonality.NormalizeToFreq | pitch-visualizer/tone.py:14-18 | a number is returned unchanged; a name succeeds exactly when it is a key of `TONE_FREQ_MAP`, and otherwise fails with `KeyError` of that name |
| Tonality.NormalizeByParse | pitch-visualizer/tone.py:14-18 | a name normalises to the frequency of the pitch it names, and fails exactly when it names none |
| Tonality.ConcertPitch | pitch-visualizer/tone.py:3-5 | `"A4"` normalises to within 0.1 Hz of 440 Hz |
| Tonality.NewTonality | pitch-visualizer/tone.py:9-12 | fails with `AssertionError` exactly when the root is not one of `TONES`; otherwise the root is kept and the scale is the root's major scale |
| Tonality.MajorScale | pitch-visualizer/tone.py:12 | the scale comprehension: one tone per `BASE_DIFF` entry, degree `k` being `TONES[(index(root) + BASE_DIFF[k]) % 12]` |
| Tonality.MajorScaleShape | pitch-visualizer/tone.py:12 | a major scale has seven distinct tones from `TONES`, root first |
| Tonality.ScaleShape | pitch-visualizer/tone.py:9-12 | the scale of a constructed tonality has seven distinct tones and starts with its root |
| Tonality.DegreesDistinct | pitch-visualizer/tone.py:12 | two different scale degrees are different tones |
| Tonality.ScaleMembership | pitch-visualizer/tone.py:12 | tone `i` is in the major scale on `root` exactly when `(i - root) % 12` is one of `BASE_DIFF` |
| Tonality.SlotNameParts | pitch-visualizer/tone.py:27 | `f"{base_tone}{i}"` is the tone followed by the one digit of the octave |
| Tonality.TableCovers | pitch-visualizer/tone.py:27-28 | every scale tone in every octave 0..7 is a key, so the lookup in the loop never raises |
| Tonality.SlotPoint | pitch-visualizer/tone.py:27-30 | the pair appended for a scale degree and octave is its name with the table frequency of that name |
| Tonality.ReferencePoints | pitch-visualizer/tone.py:24-32 | the reference definition of the nested loops: octave by octave, the in-range tones of the scale in scale order; no contract of its own, its meaning is proved by `ReferencePointsSound`, `ReferencePointsComplete`, `ReferencePointsOrdered` and `ReferencePointsEmpty` |
| Tonality.CollectReferencePoints | pitch-visualizer/tone.py:24-32 | the two nested loops build the octave-major list of in-range `(tone, freq)` pairs |
| Tonality.GetToneAndFreq | pitch-visualizer/tone.py:20-32 | a bound that fails to normalise makes the call fail with that error, minimum first; otherwise the result is the in-range reference points of the key's scale |
| Tonality.ReferencePointsSound | pitch-visualizer/tone.py:24-32 | each returned pair carries the table frequency of its name, lies within `[min_freq, max_freq]` and names a scale tone |
| Tonality.ReferencePointsComplete | pitch-visualizer/tone.py:24-32 | scale degree `k` in octave `o` is returned exactly when its frequency is within the bounds |
| Tonality.ReferencePointsOrdered | pitch-visualizer/tone.py:25-30 | the pairs are in octave order, then scale order within an octave, and no pair appears twice |
| Tonality.ReferencePointsEmpty | pitch-visualizer/tone.py:29 | bounds with `min_freq > max_freq` give an empty list |
| Tonality.ScaleOrderWithinOctave | pitch-visualizer/tone.py:26-30 | two in-range degrees of one octave appear in scale order |
| Tonality.RootANotFrequencySorted | pitch-visualizer/tone.py:25-30 | with root A and the default range, A0 is listed before C#0 although its frequency is higher: the list is not sorted by frequency |
| Numbers.Floor | pitch-visualizer/pitch.py:214 | the greatest integer not above `x` |
| Numbers.Ceil | pitch-visualizer/pitch.py:213 | `np.ceil`: the least integer not below `x` |
| Numbers.Frac | pitch-visualizer/pitch.py:211 | `x % 1` lies in `[0, 1)` and differs from `x` by an integer |
| Numbers.Trunc | pitch-visualizer/pitch.py:96 | `int(x)` rounds toward zero |
| Strings.Split | pitch-visualizer/pitch.py:83 | `split` yields at least one piece, and no piece contains the separator |
| Strings.Join | pitch-visualizer/__main__.py:65 | `str.join`: the first piece starts the result, followed by the separator when there are more pieces |
| Strings.JoinSplit | pitch-visualizer/__main__.py:65 | joining the pieces of a split gives back the text |
| Strings.SplitJoin | pitch-visualizer/__main__.py:65 | splitting the join of separator-free pieces gives back the pieces |
| Strings.SplitAround | pitch-visualizer/__main__.py:65 | splitting `a + sep + b` splits `a` and `b` separately |
| Strings.NatToDecimal | pitch-visualizer/pitch.py:253 | `str(n)`: only digits, no leading zero, one digit exactly when `n < 10` |
| Strings.DecimalRoundTrip | pitch-visualizer/pitch.py:253 | the digits of `str(n)` denote `n` |
| Strings.ZeroPad2 | pitch-visualizer/progress.py:25 | `f"{n:02d}"` has at least two digits, exactly two below 100, and denotes `n` |
| Strings.IntToDecimal | pitch-visualizer/pitch.py:290 | `str(n)` of any integer: a minus sign exactly for negatives, then the digits of the magnitude |
| Strings.ParseInt | pitch-visualizer/pitch.py:83 | `int(text)`: a text that parses ends, once stripped, with a digit, and a negative result comes from a leading minus |
| Strings.IntRoundTrip | pitch-visualizer/pitch.py:83 | `int(str(n) + whitespace) == n`, so a probe line with a trailing newline reads back |
| Clock.ClockReading | pitch-visualizer/pitch.py:252-253 | minutes, a colon and two-digit seconds below 60 read back as `60 * minutes + seconds` |
| Ticks.TimeFormat | pitch-visualizer/pitch.py:249-253 | `_time_format`: `-:--` below zero, otherwise unpadded minutes, a colon and two-digit seconds; no contract of its own, its meaning is proved by `TimeFormatShape` and `TimeFormatReadsBack` |
| Ticks.TimeFormatShape | pitch-visualizer/pitch.py:252-253 | a non-negative time is one or more minute digits, a colon and exactly two second digits |
| Ticks.TimeFormatReadsBack | pitch-visualizer/pitch.py:249-253 | `_time_format(s)` reads back as `s` for `s >= 0` (so `m * 60 + ss == s` with `ss < 60`); negative times give `-:--`, which is no clock text |
| Ticks.DashesAreNoClock | pitch-visualizer/pitch.py:250-251 | the placeholder `-:--` reads as no time |
| Ticks.Arange | pitch-visualizer/pitch.py:212-215 | `np.arange(lo, hi)` holds `lo, lo + 1, ...` below `hi`, and nothing when `hi <= lo` |
| Ticks.TickRange | pitch-visualizer/pitch.py:211-215 | the tick list of time `t`; no contract of its own, its meaning is proved by `TickRangeShape` and `TickMembership` |
| Ticks.TickRangeShape | pitch-visualizer/pitch.py:211-215 | the ticks are consecutive integers inside `[t - 2.5, t + 2.5]`: four when `24/60 <= t % 1 <= 34/60`, five otherwise |
| Ticks.TickMembership | pitch-visualizer/pitch.py:211-215 | an integer is a tick exactly when it lies in the window and is not a dropped end |
| Ticks.TicksAtHalfSecond | pitch-visualizer/pitch.py:213-214 | at `t = 10.5` both ends are dropped: ticks 9 to 12 |
| Ticks.TickLabels | pitch-visualizer/pitch.py:216 | one label per tick, each `_time_format` of its tick |
| Ticks.FirstFrameLabels | pitch-visualizer/pitch.py:216 | on frame 0 the ticks are -2..2, labelled `-:--, -:--, 0:00, 0:01, 0:02` |
| Samples.NormalizeSamples | pitch-visualizer/pitch.py:92-95 | one sample per time; a zero frequency becomes absent, any other is kept |
| Samples.Window | pitch-visualizer/pitch.py:219-220 | the plotted samples are no more than the track |
| Samples.WindowMembers | pitch-visualizer/pitch.py:219-220 | a sample is plotted exactly when its time lies within `[time_start, time_end]` |
| Samples.WindowConcat | pitch-visualizer/pitch.py:219-220 | the mask keeps the samples' order |
| Samples.Voiced | pitch-visualizer/pitch.py:226 | the values averaged are no more than the samples; which values they are is stated by `VoicedMembers` |
| Samples.VoicedMembers | pitch-visualizer/pitch.py:226 | the averaged values are exactly the present pitches within 0.4 s of the current time |
| Samples.Mean | pitch-visualizer/pitch.py:227 | `np.nanmean` of the present values: absent for none, as NaN is; no contract of its own, its meaning is proved by `LocalAverageBounds` and `LocalAverageSteady` |
| Samples.LocalAverage | pitch-visualizer/pitch.py:226-227 | the mean of the present pitches within 0.4 s of `t`; no contract of its own, its meaning is proved by `LocalAverageDefined`, `LocalAverageBounds`, `LocalAverageSteady` and `LocalAveragePositive` |
| Samples.LocalAverageDefined | pitch-visualizer/pitch.py:226-229 | the average is defined (not NaN) exactly when a voiced sample lies within the span |
| Samples.LocalAverageBounds | pitch-visualizer/pitch.py:227 | the average lies between bounds on the pitches it averages |
| Samples.LocalAverageSteady | pitch-visualizer/pitch.py:227 | a constant pitch within the span averages to itself |
| Samples.LocalAveragePositive | pitch-visualizer/pitch.py:227 | positive pitches average to a positive value |
| Samples.TotalFrames | pitch-visualizer/pitch.py:96 | `int(duration * fps)` is never negative for a non-negative duration and fps |
| Samples.FramesCoverDuration | pitch-visualizer/pitch.py:96 | the count is pinned: every counted frame starts before the end of the audio, the first uncounted frame starts no later than the end, and the frame after it starts past the end; so `int()` drops the frame that starts within the audio but would run past its end |
| Animation.InitialLabels | pitch-visualizer/pitch.py:124-132 | one label per reference point: its name, at x 1.02 and 0.02 above its frequency, visible exactly within the initial y-limits |
| Animation.YLimitsBracket | pitch-visualizer/pitch.py:226-231 | when every present pitch is positive, the local average is positive and strictly inside the y-limits `avg * 0.70710678 .. avg * 1.81712059` that a voiced frame sets |
| Animation.SetVisibility | pitch-visualizer/pitch.py:235-237 | each label's visibility becomes whether it lies within the new y-limits; nothing else changes |
| Animation.SetX | pitch-visualizer/pitch.py:239-241 | every label moves to the same x; nothing else changes |
| Animation.PitchAxes.constructor | pitch-visualizer/pitch.py:120-140 | initial y-limits `256 * 0.7 .. 256 * 1.7`, x-limits `-2.5 .. 2.5`, mid line at 0, every sample plotted, the initial labels |
| Animation.PitchAxes.Animate | pitch-visualizer/pitch.py:196-247 | the full new figure state of frame `frameIdx`; labels keep text and height; the y-limits and visibilities change only when the average is defined; the label invariant is kept |
| Video.ParseDims | pitch-visualizer/pitch.py:83 | `tuple(map(int, pieces))`: every piece as an integer, or a `ValueError` exactly when some piece is not one, naming the first such piece |
| Video.ParseResolution | pitch-visualizer/pitch.py:83 | on success, one integer per `x`-separated piece of the output, at least one |
| Video.ParseResolutionOf | pitch-visualizer/pitch.py:83 | probe output `WxH` plus trailing whitespace reads back as `(W, H)` |
| Video.ParseResolutionSingle | pitch-visualizer/pitch.py:83 | output without `x` gives a one-element tuple |
| Video.ParseResolutionEmpty | pitch-visualizer/pitch.py:83 | empty output raises `ValueError` |
| Video.ProbeResolution | pitch-visualizer/pitch.py:68-83 | a non-zero exit raises `CalledProcessError`; after exit 0 the probe succeeds exactly when every `x`-separated piece is an integer, each number is `int` of its piece, and otherwise the error names the first piece that is not one |
| Video.FilterComplex | pitch-visualizer/pitch.py:270-280 | the filter starts with the hardware-upload graph exactly when on GPU, and always ends with the `[outv]` label |
| Video.FilterComplexInjective | pitch-visualizer/pitch.py:270-280 | the filter graph carries the scale and position verbatim: different settings give different filters |
| Video.Inputs | pitch-visualizer/pitch.py:259-268 | six arguments per input file plus the two encoder flags last on GPU, two per input otherwise |
| Video.InputsLayout | pitch-visualizer/pitch.py:259-264 | each input file occupies its own block of arguments: the hardware flags when on GPU, then `-i` and the path |
| Video.PlainInputs | pitch-visualizer/pitch.py:259-264 | without GPU, one video and one pitch video give `-i video -i pitch` |
| Video.PitchConverter.constructor | pitch-visualizer/pitch.py:26-52 | the settings are stored and no resolution is cached |
| Video.PitchConverter.GetVideoResolution | pitch-visualizer/pitch.py:60-84 | a cached resolution is returned unchanged; else a truthy pitch width gives `(w, w / 16 * 9)`; else the probe's answer, cached only on success |
| Video.PitchConverter.Scale | pitch-visualizer/pitch.py:290 | `pitch_width or resolution[0] // 2`, and `TypeError` when the resolution was never set |
| Video.PitchConverter.BuildInputs | pitch-visualizer/pitch.py:259-268 | the `inputs` loop builds the per-file flags followed by the encoder flags on GPU |
| Video.PitchConverter.CombineVideo | pitch-visualizer/pitch.py:255-297 | the full ffmpeg argument list, or the error computing the scale raises |
| Video.PitchConverter.Command | pitch-visualizer/pitch.py:282-297 | ffmpeg first, the output path last, and eleven fixed arguments around the inputs |
| Video.CommandLayout | pitch-visualizer/pitch.py:282-297 | the command starts with ffmpeg and the logging flags, gives the video as first input, and ends with the filter, the two maps and the output path |
| Progress.WholeSeconds | pitch-visualizer/progress.py:24 | `max(0, int(elapsed))`: 0 below one second, otherwise the whole seconds elapsed |
| Progress.ElapsedText | pitch-visualizer/progress.py:19-25 | the placeholder `--:--` exactly when the shown time (finishing time when finished, elapsed time otherwise) is absent; otherwise minutes zero-padded to at least two digits, a colon and two second digits |
| Progress.ElapsedTextReadsBack | pitch-visualizer/progress.py:21-25 | the `mm:ss` text reads back as `max(0, int(elapsed))` seconds |
| Progress.ElapsedTextClamped | pitch-visualizer/progress.py:24-25 | a negative or sub-second time shows `00:00` |
| Progress.NoTimeIsNoClock | pitch-visualizer/progress.py:22-23 | the placeholder reads as no time |
| Progress.SpeedColumn | pitch-visualizer/progress.py:31-36 | `?` exactly when the finishing speed is falsy and the current speed is absent; otherwise the truthy finishing speed, else the current one |
| Cli.DefaultOutput | pitch-visualizer/__main__.py:65 | a non-empty `--output` is kept; otherwise the path ends with `_with_pitch.mp4` |
| Cli.DefaultStripsLastExtension | pitch-visualizer/__main__.py:65 | only the last extension is removed: `stem.ext` gives `stem_with_pitch.mp4`, dots in the stem included |
| Cli.DefaultWithoutDot | pitch-visualizer/__main__.py:65 | a video path without a dot gives just `_with_pitch.mp4`, losing its directory |
| Cli.ResolveFfmpeg | pitch-visualizer/__main__.py:56-60 | exit with status 1 exactly when neither the given nor the found ffmpeg path exists; otherwise run with that path |

## Left out

- Floating point: times, frequencies and thresholds are exact reals. The `np.float32` rounding of the current time, of `24/60` and of `34/60` is not modelled, and neither are NaN payloads. `np.nanmean`'s NaN result is `None`.
- Tone.Freq: the table value `2 ** (index / 12 + octave) * 16.3516` uses `2^(k/12)` rounded to six decimals, so the frequencies are approximations. Only their order and the closeness of A4 to 440 Hz are proved.
- Audio analysis (`parselmouth`), plotting and video encoding (`matplotlib`, `FuncAnimation`, `FFMpegWriter`), the temporary directory, and the process runs (`subprocess.run`, `shutil.which`, `os.path.exists`) are not modelled. Their results enter as parameters: the pitch track as samples, the probe run as a `ProbeOutcome`, the located ffmpeg and the existing paths as an `Option` and a set.
- `generate_pitch_video`, `generate_animate`, `run`, `ProgressBar` and `main.py` are not modelled beyond the figure set-up and the progress count. The plotting styles, themes and `print` output are not modelled either.
- Animation.PitchAxes.Animate: requires `fps > 0`. With a non-positive fps, `total_frames_count` is at most 0 and `animate` is never called.
- Animation.PitchAxes.constructor: matplotlib's automatic ticks before the first frame are not modelled; the tick list starts empty.
- Progress.SpeedColumn: the `{speed:.2f}frame/s` text is not built; the column yields the speed it would format.
- Strings.ParseInt: accepts ASCII whitespace, an optional sign and ASCII digits. Python's `int` also accepts underscores between digits and Unicode digits, which the model rejects.
- Video.ProbeResolution: the bytes-to-text `decode` of the probe output is not modelled; the output is text.
- Video.PitchConverter: `--pitch_width` is an integer in which `None` and 0 are both represented by 0 (falsy).
- Click's option parsing and choices are not modelled. The tone and pitch-name choices are covered by `NewTonality` and `NormalizeToFreq` failing on unknown names.
