/**
 * The image converter of src/ffmpeg_utils.py. The encoder itself, the PATH
 * lookup, the temporary directory and the subprocess are outside the model:
 * their outcomes arrive as parameters (`which`, `setup`, `run`).
 */
module Ffmpeg {
  import opened Wrappers
  import opened Text
  import opened Bytes
  import opened Constants

  const NOT_INSTALLED: string := "FFmpeg is not installed or not found in PATH"
  const UNSUPPORTED_PREFIX: string := "Unsupported output format: "
  const CONVERSION_FAILED: string := "FFmpeg conversion failed"
  const NO_OUTPUT: string := "Output file not created"
  const TIMED_OUT: string := "FFmpeg conversion timed out after 30 seconds"
  const ERROR_PREFIX: string := "Error during conversion: "

  // ---------------------------------------------------------------------
  // Quality mappings

  /** `int(n / d)` in Python: true division, then truncation toward zero. */
  function TruncDiv(n: int, d: nat): (r: int)
    requires d > 0
    ensures n >= 0 ==> 0 <= r && r * d <= n < r * d + d
    ensures n < 0 ==> r <= 0 && r * d - d < n <= r * d
  {
    if n >= 0 then n / d
    else
      var q := (-n) / d;
      NegatedQuotient(n, d, q);
      -q
  }

  /** Rounding `-n` down is rounding `n` up: the quotient's negation brackets `n` from above. */
  lemma NegatedQuotient(n: int, d: nat, q: int)
    requires n < 0 && d > 0 && q == (-n) / d
    ensures (-q) * d - d < n <= (-q) * d
  {
    assert q * d <= -n < q * d + d;
    assert (-q) * d == -(q * d);
  }

  /** The JPEG `-q:v` value: the 0-100 quality turned into the encoder's inverted 1-31 scale. */
  function JpegScale(quality: int): (r: int)
    ensures 1 <= r <= 31
    ensures TruncDiv(100 - quality, 3) <= 1 ==> r == 1
    ensures TruncDiv(100 - quality, 3) >= 31 ==> r == 31
    ensures 1 <= TruncDiv(100 - quality, 3) <= 31 ==> r == TruncDiv(100 - quality, 3)
  {
    var t := TruncDiv(100 - quality, 3);
    var lowered := if t < 31 then t else 31;
    if lowered > 1 then lowered else 1
  }

  /** Higher quality never gives a larger (worse) JPEG scale value. */
  lemma JpegScaleMonotone(q1: int, q2: int)
    requires q1 <= q2
    ensures JpegScale(q2) <= JpegScale(q1)
  {
    assert TruncDiv(100 - q2, 3) <= TruncDiv(100 - q1, 3);
  }

  /** The end points: quality 0 is scale 31, quality 100 is scale 1. */
  lemma JpegScaleEnds()
    ensures JpegScale(0) == 31 && JpegScale(100) == 1
  {
  }

  /** The PNG `-compression_level`: quality / 11, capped at 9. */
  function PngCompression(quality: int): (r: int)
    ensures r <= 9
    ensures quality >= 0 ==> 0 <= r
    ensures 0 <= quality < 99 ==> r == quality / 11
    ensures quality >= 99 ==> r == 9
    ensures quality < 0 ==> r == TruncDiv(quality, 11) && r * 11 - 11 < quality <= r * 11
  {
    var t := TruncDiv(quality, 11);
    if t < 9 then t else 9
  }

  /** A negative quality rounds toward zero, as Python's `int(q / 11)` does: -5 gives 0, -12 gives -1. */
  lemma PngCompressionNegative()
    ensures PngCompression(-5) == 0 && PngCompression(-12) == -1
  {
  }

  /** WebP switches to lossless encoding at the top of the scale. */
  predicate WebpLossless(quality: int) {
    quality >= 100
  }

  /** The format-specific encoder arguments. */
  function EncoderOptions(format: string, quality: int): (opts: seq<string>)
    ensures opts != [] <==> SupportedFormat(format)
    ensures |opts| == 4 <==> format == "webp" && WebpLossless(quality)
    ensures opts != [] ==> |opts| >= 2 && ParseInt(opts[1]) == Some(
      if format == "webp" then quality else if format == "png" then PngCompression(quality) else JpegScale(quality))
  {
    if format == "webp" then
      ["-quality", IntToString(quality)] + (if WebpLossless(quality) then ["-lossless", "1"] else [])
    else if format == "jpg" || format == "jpeg" then
      ["-q:v", IntToString(JpegScale(quality))]
    else if format == "png" then
      ["-compression_level", IntToString(PngCompression(quality))]
    else []
  }

  /** The full encoder command line for converting `dir/input` into `dir/output.<format>`. */
  function Command(path: string, dir: string, format: string, quality: int): (cmd: seq<string>)
    ensures |cmd| >= 5 && cmd[0] == path && cmd[1] == "-i" && cmd[3] == "-y"
    ensures StartsWith(cmd[2], dir + "/") && StartsWith(cmd[|cmd| - 1], dir + "/output.")
  {
    [path, "-i", dir + "/input", "-y"] + EncoderOptions(format, quality) + [dir + "/output." + format]
  }

  /** Where the encoder is told to write, and where it is told the options are. */
  lemma CommandShape(path: string, dir: string, format: string, quality: int)
    requires format in {"webp", "png", "jpg", "jpeg"}
    ensures var cmd := Command(path, dir, format, quality);
      && cmd[..4] == [path, "-i", dir + "/input", "-y"]
      && cmd[|cmd| - 1] == dir + "/output." + format
      && (format == "webp" ==> cmd[4..6] == ["-quality", IntToString(quality)])
      && (format == "webp" && WebpLossless(quality) ==> |cmd| == 9 && cmd[6..8] == ["-lossless", "1"])
      && (format == "webp" && !WebpLossless(quality) ==> |cmd| == 7)
      && (format in {"jpg", "jpeg"} ==> cmd[4] == "-q:v" && ParseInt(cmd[5]) == Some(JpegScale(quality)))
      && (format == "png" ==> cmd[4] == "-compression_level" && ParseInt(cmd[5]) == Some(PngCompression(quality)))
  {
  }

  // ---------------------------------------------------------------------
  // Formats

  /** `format.lower().strip()` */
  function NormalizeFormat(format: string): (r: string)
    ensures |r| <= |format|
    ensures r == [] || (!IsSpace(r[0]) && !IsSpace(r[|r| - 1]))
  {
    StripEnds(Lower(format));
    Strip(Lower(format))
  }

  predicate SupportedFormat(format: string) {
    format in {"webp", "png", "jpg", "jpeg"}
  }

  /** `get_format_extension`: the file extension of a format name, `.jpg` for anything unknown. */
  function GetFormatExtension(formatName: string): (ext: string)
    ensures ext in {".jpg", ".png", ".webp"}
    ensures ext == ".png" <==> NormalizeFormat(formatName) == "png"
    ensures ext == ".webp" <==> NormalizeFormat(formatName) == "webp"
  {
    var f := NormalizeFormat(formatName);
    if f == "jpg" || f == "jpeg" then ".jpg"
    else if f == "png" then ".png"
    else if f == "webp" then ".webp"
    else ".jpg"
  }

  lemma LowerCharIdempotent(c: char)
    ensures LowerChar(LowerChar(c)) == LowerChar(c)
  {
    if 'A' <= c <= 'Z' {
      assert 'a' as int <= LowerChar(c) as int <= 'z' as int;
    }
  }

  /** Every slice of a lower-cased text is already lower case. */
  lemma LowerOfLoweredSlice(s: string, i: nat, j: nat)
    requires i <= j <= |s|
    ensures Lower(Lower(s)[i..j]) == Lower(s)[i..j]
  {
    var low := Lower(s);
    var t := low[i..j];
    var lt := Lower(t);
    forall k | 0 <= k < |t|
      ensures lt[k] == t[k]
    {
      assert t[k] == low[i + k] == LowerChar(s[i + k]);
      LowerCharIdempotent(s[i + k]);
    }
    assert lt == t;
  }

  /** A stripped text starts and ends with a non-blank character. */
  lemma StripEnds(s: string)
    ensures var n := Strip(s); n == [] || (!IsSpace(n[0]) && !IsSpace(n[|n| - 1]))
  {
    var left := StripLeft(s);
    var n := StripRight(left);
    StripLeftHead(s);
    StripRightLast(left);
    if n != [] {
      assert n[0] == left[0];
    }
  }

  /** A stripped text is a slice of the original, starting at `a`. */
  lemma StripIsSlice(s: string) returns (a: nat)
    ensures a + |Strip(s)| <= |s| && Strip(s) == s[a..a + |Strip(s)|]
  {
    var left := StripLeft(s);
    a := |s| - |left|;
  }

  /** A text without blank ends strips to itself. */
  lemma StripOfTrimmed(n: string)
    requires n == [] || (!IsSpace(n[0]) && !IsSpace(n[|n| - 1]))
    ensures Strip(n) == n
  {
    StripLeftOfTrimmed(n);
    StripRightOfTrimmed(n);
  }

  /** A normalised name is lower case. */
  lemma NormalizedIsLower(s: string)
    ensures Lower(NormalizeFormat(s)) == NormalizeFormat(s)
  {
    var low := Lower(s);
    var n := Strip(low);
    var a := StripIsSlice(low);
    LowerOfLoweredSlice(s, a, a + |n|);
  }

  /** A normalised name has no blank ends. */
  lemma NormalizedIsStripped(s: string)
    ensures Strip(NormalizeFormat(s)) == NormalizeFormat(s)
  {
    StripOfTrimmed(NormalizeFormat(s));
  }

  /** Normalising a normalised name changes nothing. */
  lemma NormalizeFormatIdempotent(s: string)
    ensures NormalizeFormat(NormalizeFormat(s)) == NormalizeFormat(s)
  {
    NormalizedIsLower(s);
    NormalizedIsStripped(s);
  }

  /** Case and surrounding whitespace never change the extension. */
  lemma FormatExtensionIgnoresCase(s: string)
    ensures GetFormatExtension(NormalizeFormat(s)) == GetFormatExtension(s)
  {
    NormalizeFormatIdempotent(s);
  }

  // ---------------------------------------------------------------------
  // Oracles standing for the operating system

  /** Preparing the temporary directory: `mkdtemp` and writing the input file. */
  datatype TempSetup =
    | MkdtempFails(message: string)
    | InputWriteFails(dir: string, message: string)
    | Ready(dir: string)

  /** What the encoder left behind at the output path. */
  datatype OutputFile = Missing | Present(bytes: seq<byte>) | Unreadable(message: string)

  /** The outcome of `subprocess.run` on a command line. */
  datatype RunOutcome =
    | Exited(returnCode: int, stderr: string, output: OutputFile)
    | TimedOut
    | RunRaised(message: string)

  /** The outcome of `ffmpeg -version`. */
  datatype VersionRun = VersionExited(returnCode: int, stdout: string) | VersionRaised

  /**
   * What `convert_image` returns once the encoder has been started: the
   * output bytes only for a zero exit with an output file that could be
   * read, a message for every other outcome.
   */
  function RunResult(outcome: RunOutcome): (r: (Option<seq<byte>>, Option<string>))
    ensures r.0.Some? != r.1.Some?
    ensures r.1.Some? ==> r.1.value != ""
    ensures r.0.Some? <==> outcome.Exited? && outcome.returnCode == 0 && outcome.output.Present?
    ensures r.0.Some? ==> r.0.value == outcome.output.bytes
    ensures outcome.TimedOut? ==> r.1 == Some(TIMED_OUT)
    ensures outcome.Exited? && outcome.returnCode != 0 ==>
      r.1 == Some(if outcome.stderr != "" then outcome.stderr else CONVERSION_FAILED)
    ensures outcome.Exited? && outcome.returnCode == 0 && outcome.output.Missing? ==> r.1 == Some(NO_OUTPUT)
  {
    match outcome
    case TimedOut => (None, Some(TIMED_OUT))
    case RunRaised(m) => (None, Some(ERROR_PREFIX + m))
    case Exited(code, stderr, output) =>
      if code != 0 then (None, Some(if stderr != "" then stderr else CONVERSION_FAILED))
      else match output
        case Missing => (None, Some(NO_OUTPUT))
        case Unreadable(m) => (None, Some(ERROR_PREFIX + m))
        case Present(bytes) => (Some(bytes), None)
  }

  /**
   * What `convert_image` returns once the encoder has been found at `path`:
   * an error for a format it cannot produce or a temporary directory that
   * could not be prepared, otherwise the outcome of running the encoder on
   * the command for that directory.
   */
  function ConversionResult(path: string, outputFormat: string, quality: int, setup: TempSetup,
                            run: seq<string> -> RunOutcome): (r: (Option<seq<byte>>, Option<string>))
    ensures r.0.Some? != r.1.Some?
    ensures r.1.Some? ==> r.1.value != ""
    ensures !SupportedFormat(NormalizeFormat(outputFormat)) ==>
      r == (None, Some(UNSUPPORTED_PREFIX + NormalizeFormat(outputFormat)))
    ensures SupportedFormat(NormalizeFormat(outputFormat)) && !setup.Ready? ==>
      r == (None, Some(ERROR_PREFIX + setup.message))
    ensures r.0.Some? <==>
      && SupportedFormat(NormalizeFormat(outputFormat)) && setup.Ready?
      && RunResult(run(Command(path, setup.dir, NormalizeFormat(outputFormat), quality))).0.Some?
    ensures SupportedFormat(NormalizeFormat(outputFormat)) && setup.Ready? ==>
      r == RunResult(run(Command(path, setup.dir, NormalizeFormat(outputFormat), quality)))
  {
    var format := NormalizeFormat(outputFormat);
    if !SupportedFormat(format) then (None, Some(UNSUPPORTED_PREFIX + format))
    else match setup
      case MkdtempFails(m) => (None, Some(ERROR_PREFIX + m))
      case InputWriteFails(_, m) => (None, Some(ERROR_PREFIX + m))
      case Ready(dir) => RunResult(run(Command(path, dir, format, quality)))
  }

  /** The version line `get_version` reports: the first line of the output of a zero exit. */
  function VersionLine(versionRun: VersionRun): (v: Option<string>)
    ensures v.Some? <==> versionRun.VersionExited? && versionRun.returnCode == 0
    ensures v.Some? ==> v.value == FirstLine(versionRun.stdout)
  {
    match versionRun
    case VersionRaised => None
    case VersionExited(code, stdout) => if code == 0 then Some(Split(stdout, '\n')[0]) else None
  }

  /** `stdout.split("\n")[0]`: everything before the first line break. */
  function FirstLine(stdout: string): (line: string)
    ensures '\n' !in line && |line| <= |stdout| && line == stdout[..|line|]
    ensures |line| < |stdout| ==> stdout[|line|] == '\n'
  {
    Split(stdout, '\n')[0]
  }

  /** The command list as `convert_image` builds it, piece by piece. */
  method BuildCommand(path: string, dir: string, format: string, quality: int) returns (cmd: seq<string>)
    ensures cmd == Command(path, dir, format, quality)
  {
    cmd := [path, "-i", dir + "/input", "-y"];
    if format == "webp" {
      cmd := cmd + ["-quality", IntToString(quality)];
      if quality >= 100 {
        cmd := cmd + ["-lossless", "1"];
      }
    } else if format == "jpg" || format == "jpeg" {
      cmd := cmd + ["-q:v", IntToString(JpegScale(quality))];
    } else if format == "png" {
      var compression := PngCompression(quality);
      cmd := cmd + ["-compression_level", IntToString(compression)];
    }
    cmd := cmd + [dir + "/output." + format];
  }

  /**
   * The part of `convert_image` inside its `try`/`finally`: with the
   * directory created and the input written, run the encoder, then remove
   * the directory.
   */
  method RunInTempDir(path: string, dir: string, format: string, quality: int, temp: TempSpace,
                      run: seq<string> -> RunOutcome)
    returns (data: Option<seq<byte>>, error: Option<string>)
    requires dir !in temp.live
    modifies temp
    ensures temp.live == old(temp.live)
    ensures (data, error) == RunResult(run(Command(path, dir, format, quality)))
  {
    temp.MakeDir(dir);
    var cmd := BuildCommand(path, dir, format, quality);
    var result := RunResult(run(cmd));
    data, error := result.0, result.1;
    temp.RemoveTree(dir);
  }

  /**
   * The part of `convert_image` after the encoder is found: the format
   * check, the temporary directory and the encoder run.
   */
  method ConvertWith(path: string, outputFormat: string, quality: int, temp: TempSpace, setup: TempSetup,
                     run: seq<string> -> RunOutcome)
    returns (data: Option<seq<byte>>, error: Option<string>)
    requires setup.InputWriteFails? ==> setup.dir !in temp.live
    requires setup.Ready? ==> setup.dir !in temp.live
    modifies temp
    ensures temp.live == old(temp.live)
    ensures (data, error) == ConversionResult(path, outputFormat, quality, setup, run)
  {
    var format := NormalizeFormat(outputFormat);
    if !SupportedFormat(format) {
      return None, Some(UNSUPPORTED_PREFIX + format);
    }
    match setup {
      case MkdtempFails(m) =>
        return None, Some(ERROR_PREFIX + m);
      case InputWriteFails(dir, m) =>
        temp.MakeDir(dir);
        data, error := None, Some(ERROR_PREFIX + m);
        temp.RemoveTree(dir);
      case Ready(dir) =>
        data, error := RunInTempDir(path, dir, format, quality, temp, run);
    }
  }

  /** The set of temporary directories currently on disk. */
  class TempSpace {
    var live: set<string>

    constructor ()
      ensures live == {}
    {
      live := {};
    }

    method MakeDir(name: string)
      modifies this
      ensures live == old(live) + {name}
    {
      live := live + {name};
    }

    /** `shutil.rmtree(name, ignore_errors=True)` */
    method RemoveTree(name: string)
      modifies this
      ensures live == old(live) - {name}
    {
      live := live - {name};
    }
  }

  class FFmpegConverter {
    var ffmpegAvailable: Option<bool>
    var ffmpegPath: Option<string>
    /** How often the PATH has been searched. */
    ghost var probes: nat

    ghost predicate Valid()
      reads this
    {
      && probes <= 1
      && (ffmpegAvailable.None? <==> probes == 0)
      && (ffmpegAvailable.None? ==> ffmpegPath.None?)
      && (ffmpegAvailable.Some? ==> ffmpegAvailable.value == ffmpegPath.Some?)
    }

    constructor ()
      ensures Valid() && ffmpegAvailable.None? && ffmpegPath.None? && probes == 0
    {
      ffmpegAvailable := None;
      ffmpegPath := None;
      probes := 0;
    }

    /**
     * `is_available`: the first call searches the PATH (`which` is what the
     * search would find); every later call returns the cached answer.
     */
    method IsAvailable(which: Option<string>) returns (ok: bool)
      requires Valid()
      modifies this
      ensures Valid()
      ensures old(ffmpegAvailable).Some? ==>
        ok == old(ffmpegAvailable).value && ffmpegAvailable == old(ffmpegAvailable)
        && ffmpegPath == old(ffmpegPath) && probes == old(probes)
      ensures old(ffmpegAvailable).None? ==>
        ffmpegPath == which && ok == which.Some? && ffmpegAvailable == Some(ok) && probes == 1
      ensures ok <==> ffmpegPath.Some?
    {
      if ffmpegAvailable.Some? {
        return ffmpegAvailable.value;
      }
      ffmpegPath := which;
      ffmpegAvailable := Some(which.Some?);
      probes := probes + 1;
      ok := ffmpegAvailable.value;
    }

    /**
     * `convert_image`: exactly one of `data` and `error` is present; every
     * failure carries a non-empty message, and the temporary directory, once
     * created, is gone again on every exit path.
     */
    method ConvertImage(inputData: seq<byte>, outputFormat: string, quality: int,
                        which: Option<string>, temp: TempSpace, setup: TempSetup,
                        run: seq<string> -> RunOutcome)
      returns (data: Option<seq<byte>>, error: Option<string>)
      requires Valid()
      requires setup.InputWriteFails? ==> setup.dir !in temp.live
      requires setup.Ready? ==> setup.dir !in temp.live
      modifies this, temp
      ensures Valid()
      ensures data.Some? != error.Some?
      ensures error.Some? ==> error.value != ""
      ensures temp.live == old(temp.live)
      ensures old(ffmpegAvailable).Some? ==> ffmpegAvailable == old(ffmpegAvailable) && probes == old(probes)
      ensures ffmpegPath == if old(ffmpegAvailable).Some? then old(ffmpegPath) else which
      ensures ffmpegPath.None? ==> data.None? && error == Some(NOT_INSTALLED)
      ensures ffmpegPath.Some? ==>
        (data, error) == ConversionResult(ffmpegPath.value, outputFormat, quality, setup, run)
    {
      var available := IsAvailable(which);
      if !available {
        return None, Some(NOT_INSTALLED);
      }
      data, error := ConvertWith(ffmpegPath.value, outputFormat, quality, temp, setup, run);
    }

    /** `get_version`: the first line of `ffmpeg -version` when it exits with 0. */
    method GetVersion(which: Option<string>, versionRun: VersionRun) returns (version: Option<string>)
      requires Valid()
      modifies this
      ensures Valid()
      ensures old(ffmpegAvailable).Some? ==> ffmpegAvailable == old(ffmpegAvailable) && probes == old(probes)
      ensures ffmpegPath.None? ==> version.None?
      ensures ffmpegPath == if old(ffmpegAvailable).Some? then old(ffmpegPath) else which
      ensures ffmpegPath.Some? ==> version == VersionLine(versionRun)
    {
      var available := IsAvailable(which);
      if !available {
        return None;
      }
      match versionRun {
        case VersionRaised =>
          version := None;
        case VersionExited(code, stdout) =>
          version := if code == 0 then Some(Split(stdout, '\n')[0]) else None;
      }
    }
  }

  /** The module-level `_converter` slot behind `get_converter`. */
  class ConverterRegistry {
    var converter: FFmpegConverter?

    constructor ()
      ensures converter == null
    {
      converter := null;
    }

    /** `get_converter`: created on first use, the same instance afterwards. */
    method GetConverter() returns (c: FFmpegConverter)
      modifies this
      ensures old(converter) != null ==> c == old(converter)
      ensures old(converter) == null ==> fresh(c) && c.Valid() && c.ffmpegAvailable.None?
      ensures converter == c
    {
      if converter == null {
        converter := new FFmpegConverter();
      }
      c := converter;
    }
  }

  /**
   * `check_ffmpeg`: availability with a message; a found encoder is
   * reported with its version line when that line is non-empty.
   */
  method CheckFfmpeg(registry: ConverterRegistry, which: Option<string>, versionRun: VersionRun)
    returns (available: bool, message: string)
    requires registry.converter != null ==> registry.converter.Valid()
    modifies registry, registry.converter
    ensures registry.converter != null && registry.converter.Valid()
    ensures old(registry.converter) != null ==> registry.converter == old(registry.converter)
    ensures available <==> registry.converter.ffmpegPath.Some?
    ensures old(registry.converter) == null || old(registry.converter.ffmpegAvailable).None? ==>
      available == which.Some?
    ensures old(registry.converter) != null && old(registry.converter.ffmpegAvailable).Some? ==>
      available == old(registry.converter.ffmpegAvailable).value
    ensures !available ==> message == "FFmpeg not found in system PATH"
    ensures available ==>
      message == if VersionLine(versionRun).Some? && VersionLine(versionRun).value != ""
                 then "FFmpeg found: " + VersionLine(versionRun).value else "FFmpeg is available"
  {
    var converter := registry.GetConverter();
    available := converter.IsAvailable(which);
    if available {
      var version := converter.GetVersion(which, versionRun);
      if version.Some? && version.value != "" {
        message := "FFmpeg found: " + version.value;
      } else {
        message := "FFmpeg is available";
      }
    } else {
      message := "FFmpeg not found in system PATH";
    }
  }
}
