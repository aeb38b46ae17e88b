/** The `FFMpegInput` implementations of the ffmpeg namespace: `FileInput`
    (FFMpeg-Wrapper/ffmpeg/FileInput.cs), a file with public trim fields,
    and `AudioNullSrcInput` (FFMpeg-Wrapper/ffmpeg/AudioNullSrcInput.cs),
    a silent lavfi source. Neither has a method that changes it, so both
    are values; the interface becomes a tagged datatype. */
module Inputs {
  import opened Wrappers
  import opened Utils
  import opened Tokens
  import opened OutputFiles
  import Ffprobe

  /** `FileInput`: optional trims, the path, and the length of the file. */
  datatype FileInput = FileInput(
    StartTime: Option<int>,
    StopTime: Option<int>,
    Duration: Option<int>,
    FilePath: string,
    FileLength: int)

  /** `new FileInput(filePath, fileLength)`: no trims, the arguments stored. */
  function NewFileInput(filePath: string, fileLength: int): (f: FileInput)
    ensures f.FilePath == filePath && f.FileLength == fileLength
    ensures f.StartTime.None? && f.StopTime.None? && f.Duration.None?
  {
    FileInput(None, None, None, filePath, fileLength)
  }

  /** `new FileInput(MediaAnalysis)`: the analysed path and overall duration. */
  function FileInputOf(file: Ffprobe.MediaAnalysis): (f: FileInput)
    reads file
    ensures f.FilePath == file.FilePath && f.FileLength == file.Duration()
    ensures f.StartTime.None? && f.StopTime.None? && f.Duration.None?
    ensures f.FileLength >= file.FormatDuration
  {
    FileInput(None, None, None, file.FilePath, file.Duration())
  }

  const TrimFlags: seq<string> := ["-ss", "-to", "-t"]

  lemma {:induction false} TrimFlagsDistinct()
    ensures DistinctFlags(TrimFlags)
  {
  }

  /** The trim values of a file input, formatted. */
  function TrimValues(f: FileInput): seq<Option<string>> {
    [FormatTime(f.StartTime), FormatTime(f.StopTime), FormatTime(f.Duration)]
  }

  /** `FileInput.GetArguments()`: the set trims, then `-i "<path>"`. */
  function FileInputArguments(f: FileInput): (args: seq<string>)
    ensures |args| >= 1 && args[|args| - 1] == PathOption("-i", f.FilePath)
    ensures forall i :: 0 <= i < |args| ==> |args[i]| > 0 && args[i][0] == '-'
  {
    TrimFlagsDistinct();
    OptsShape(TrimFlags, TrimValues(f));
    Opts(TrimFlags, TrimValues(f)) + [PathOption("-i", f.FilePath)]
  }

  /** Each trim reads back as its formatted field, the input path reads
      back quoted, the `-i` token is last and every token before it is a
      trim, one per set field. */
  lemma {:induction false} FileInputArgumentsReadBack(f: FileInput)
    ensures var args := FileInputArguments(f);
      && FlagValue(args, "-ss") == FormatTime(f.StartTime)
      && FlagValue(args, "-to") == FormatTime(f.StopTime)
      && FlagValue(args, "-t") == FormatTime(f.Duration)
      && FlagValue(args, "-i") == Some(Quoted(f.FilePath))
      && |args| == CountPresent(TrimValues(f)) + 1
      && args[|args| - 1] == PathOption("-i", f.FilePath)
  {
    var values := TrimValues(f);
    var opts := Opts(TrimFlags, values);
    var last := [PathOption("-i", f.FilePath)];
    TrimFlagsDistinct();
    OptsShape(TrimFlags, values);
    forall k | 0 <= k < 3
      ensures FlagValue(opts + last, TrimFlags[k]) == values[k]
    {
      FlagValueOpts(TrimFlags, values, k);
      FlagValueAppend(opts, last, TrimFlags[k]);
      FlagValueOpt("-i", Some(Quoted(f.FilePath)), TrimFlags[k]);
      assert Opt("-i", Some(Quoted(f.FilePath))) == last;
    }
    assert FileInputArguments(f) == opts + last;
    assert TrimFlags[0] == "-ss" && values[0] == FormatTime(f.StartTime);
    assert TrimFlags[1] == "-to" && values[1] == FormatTime(f.StopTime);
    assert TrimFlags[2] == "-t" && values[2] == FormatTime(f.Duration);
    FlagValueOptsAbsent(TrimFlags, values, "-i");
    FlagValueAppend(opts, last, "-i");
    FlagValueOpt("-i", Some(Quoted(f.FilePath)), "-i");
    assert Opt("-i", Some(Quoted(f.FilePath))) == last;
  }

  /** Every trim token comes before the single `-i` token. */
  lemma {:induction false} FileInputTrimsPrecedeInput(f: FileInput)
    ensures var args := FileInputArguments(f);
      forall i :: 0 <= i < |args| - 1 ==> IsTrimToken(args[i]) && !Text.StartsWith(args[i], "-i ")
  {
    var values := TrimValues(f);
    var opts := Opts(TrimFlags, values);
    TrimFlagsDistinct();
    OptsShape(TrimFlags, values);
    TrimTokens(TrimFlags, values);
    assert forall i :: 0 <= i < |opts| ==> FileInputArguments(f)[i] == opts[i];
  }

  /** A trim token starts with `-ss `, `-to ` or `-t `. */
  predicate IsTrimToken(t: string) {
    Text.StartsWith(t, "-ss ") || Text.StartsWith(t, "-to ") || Text.StartsWith(t, "-t ")
  }

  /** The tokens built from the trim flags are trim tokens. */
  lemma {:induction false} TrimTokens(flags: seq<string>, values: seq<Option<string>>)
    requires |flags| == |values|
    requires forall i :: 0 <= i < |flags| ==> flags[i] in TrimFlags
    ensures forall i :: 0 <= i < |Opts(flags, values)| ==>
      IsTrimToken(Opts(flags, values)[i]) && !Text.StartsWith(Opts(flags, values)[i], "-i ")
  {
    if flags != [] {
      TrimTokens(flags[1..], values[1..]);
      var head, rest := Opt(flags[0], values[0]), Opts(flags[1..], values[1..]);
      assert Opts(flags, values) == head + rest;
      forall i | 0 <= i < |head + rest|
        ensures IsTrimToken((head + rest)[i]) && !Text.StartsWith((head + rest)[i], "-i ")
      {
        if i < |head| {
          var t := flags[0] + " " + values[0].value;
          assert (head + rest)[i] == t;
          assert t[..|flags[0]| + 1] == flags[0] + " ";
          assert t[1] != 'i';
        } else {
          assert (head + rest)[i] == rest[i - |head|];
        }
      }
    }
  }

  /** `FFMpegInput.Duration` of a file input: its length, whatever the trims. */
  function FileInputDuration(f: FileInput): int {
    f.FileLength
  }

  /** The reported duration does not depend on the trim fields. */
  lemma {:induction false} FileInputDurationIgnoresTrims(f: FileInput, start: Option<int>, stop: Option<int>, duration: Option<int>)
    ensures FileInputDuration(f.(StartTime := start, StopTime := stop, Duration := duration)) == FileInputDuration(f)
    ensures FileInputDuration(f) == f.FileLength
  {
  }

  /** `AudioNullSrcInput`: a readonly duration. */
  datatype AudioNullSrcInput = AudioNullSrcInput(Duration: int)

  /** `AudioNullSrcInput.GetArguments()`: the lavfi format, the length and
      the `anullsrc` source, always three tokens. */
  function AudioNullSrcArguments(a: AudioNullSrcInput): (args: seq<string>)
    ensures |args| == 3 && forall i :: 0 <= i < 3 ==> |args[i]| > 3 && args[i][0] == '-'
  {
    ["-f lavfi", "-t " + GetFFMpegFormat(a.Duration), "-i anullsrc"]
  }

  /** The three tokens read back as format `lavfi`, the formatted duration
      and source `anullsrc`. */
  lemma {:induction false} AudioNullSrcReadBack(a: AudioNullSrcInput)
    ensures var args := AudioNullSrcArguments(a);
      && |args| == 3
      && FlagValue(args, "-f") == Some("lavfi")
      && FlagValue(args, "-t") == Some(GetFFMpegFormat(a.Duration))
      && FlagValue(args, "-i") == Some("anullsrc")
  {
    var args := AudioNullSrcArguments(a);
    var x, y, z := Opt("-f", Some("lavfi")), Opt("-t", Some(GetFFMpegFormat(a.Duration))), Opt("-i", Some("anullsrc"));
    assert "-f" + " " + "lavfi" == "-f lavfi";
    assert "-i" + " " + "anullsrc" == "-i anullsrc";
    assert "-t" + " " + GetFFMpegFormat(a.Duration) == "-t " + GetFFMpegFormat(a.Duration);
    assert args == x + y + z;
    FlagValueAppend(x + y, z, "-f");
    FlagValueAppend(x + y, z, "-t");
    FlagValueAppend(x + y, z, "-i");
    FlagValueAppend(x, y, "-f");
    FlagValueAppend(x, y, "-t");
    FlagValueAppend(x, y, "-i");
    FlagValueOpt("-f", Some("lavfi"), "-f");
    FlagValueOpt("-f", Some("lavfi"), "-t");
    FlagValueOpt("-f", Some("lavfi"), "-i");
    FlagValueOpt("-t", Some(GetFFMpegFormat(a.Duration)), "-t");
    FlagValueOpt("-t", Some(GetFFMpegFormat(a.Duration)), "-i");
    FlagValueOpt("-i", Some("anullsrc"), "-i");
  }

  /** An input of a transcode: `FFMpegInput`. */
  datatype Input = File(file: FileInput) | NullAudio(nullAudio: AudioNullSrcInput)

  /** `FFMpegInput.Duration`. */
  function InputDuration(i: Input): (d: int)
    ensures i.File? ==> d == i.file.FileLength
    ensures i.NullAudio? ==> d == i.nullAudio.Duration
  {
    match i
    case File(f) => FileInputDuration(f)
    case NullAudio(a) => a.Duration
  }

  /** `IFFMpegArgs.GetArguments()` of an input. */
  function InputArguments(i: Input): seq<string> {
    match i
    case File(f) => FileInputArguments(f)
    case NullAudio(a) => AudioNullSrcArguments(a)
  }

  /** Every input ends its tokens with the `-i` token that names its source. */
  lemma {:induction false} InputArgumentsEndWithSource(i: Input)
    ensures var args := InputArguments(i);
      |args| > 0 && Text.StartsWith(args[|args| - 1], "-i ")
  {
    if i.File? {
      FileInputArgumentsReadBack(i.file);
    }
  }
}
