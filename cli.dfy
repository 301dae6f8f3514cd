/**
 * The command-line entry point: the default output path derived from the
 * video path, and the check that an ffmpeg executable exists before the
 * conversion starts.
 */
module Cli {
  import opened Wrappers
  import opened Strings

  /** Appended to the video path, without its last extension. */
  const Suffix: string := "_with_pitch.mp4"

  /** `output or ".".join(video.split(".")[:-1]) + "_with_pitch.mp4"`. */
  function DefaultOutput(output: Option<string>, video: string): (path: string)
    ensures output.Some? && output.value != "" ==> path == output.value
    ensures output.None? || output.value == "" ==> |path| >= |Suffix| && path[|path| - |Suffix|..] == Suffix
  {
    if output.Some? && output.value != "" then output.value
    else
      var path := Join(DropLast(Split(video, '.')), '.') + Suffix;
      assert path[|path| - |Suffix|..] == Suffix;
      path
  }

  /**
   * Only the last extension is removed: a stem (which may itself contain
   * dots) followed by `.ext` gives the stem plus the suffix.
   */
  lemma DefaultStripsLastExtension(output: Option<string>, stem: string, ext: string)
    requires output.None? || output.value == ""
    requires '.' !in ext
    ensures DefaultOutput(output, stem + "." + ext) == stem + Suffix
  {
    assert stem + "." + ext == stem + ['.'] + ext;
    SplitAround(stem, ext, '.');
    SplitNoSeparator(ext, '.');
    var pieces := Split(stem, '.');
    assert DropLast(pieces + [ext]) == pieces;
    JoinSplit(stem, '.');
  }

  /** A video path without any dot gives just the suffix: the directory is lost. */
  lemma DefaultWithoutDot(output: Option<string>, video: string)
    requires output.None? || output.value == ""
    requires '.' !in video
    ensures DefaultOutput(output, video) == Suffix
  {
    SplitNoSeparator(video, '.');
    assert DropLast([video]) == [];
  }

  /** How `_main_` ends: exit status 1, or the conversion with an ffmpeg path. */
  datatype Launch = Exit(status: int) | Convert(ffmpeg: string)

  /**
   * The ffmpeg guard: the given path, or else the one found on the search
   * path (`found`); the conversion runs only if that path exists, where
   * `existing` is the set of paths that exist.
   */
  function ResolveFfmpeg(given: Option<string>, found: Option<string>, existing: set<string>): (l: Launch)
    ensures var path := if given.Some? then given else found;
      && (l.Exit? <==> path.None? || path.value !in existing)
      && (l.Exit? ==> l.status == 1)
      && (l.Convert? ==> Some(l.ffmpeg) == path && l.ffmpeg in existing)
  {
    var path := if given.None? then found else given;
    if path.None? || path.value !in existing then Exit(1) else Convert(path.value)
  }
}
