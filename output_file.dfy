/** The output side of an ffmpeg command: `Path.GetExtension`, the
    container extensions that get `-movflags +faststart`, and `OutputFile`
    (FFMpeg-Wrapper/ffmpeg/OutputFile.cs), a record of optional output
    settings that renders its tokens. */
module OutputFiles {
  import opened Wrappers
  import opened Text
  import opened Utils
  import opened Tokens

  /** The character `Path.GetExtension` stops at: the directory separator
      of a platform that uses `/`, as `Concat.ListFilePath` also assumes. */
  predicate IsDirectorySeparator(c: char) {
    c == '/'
  }

  /** Where the extension of `path` starts: the last `.` after the last
      directory separator, if any. */
  function ExtensionStart(path: string): (r: Option<nat>)
    ensures r.Some? ==> r.value < |path| && path[r.value] == '.'
    ensures r.Some? ==> forall j :: r.value < j < |path| ==> path[j] != '.' && !IsDirectorySeparator(path[j])
  {
    if path == [] then None
    else if path[|path| - 1] == '.' then Some(|path| - 1)
    else if IsDirectorySeparator(path[|path| - 1]) then None
    else ExtensionStart(path[..|path| - 1])
  }

  /** `Path.GetExtension`: from the last `.` of the file name to the end,
      empty when there is none or when the name ends in the `.`. */
  function GetExtension(path: string): (ext: string)
    ensures ext == [] || (|ext| >= 2 && ext[0] == '.' && EndsWith(path, ext))
  {
    match ExtensionStart(path)
    case None => ""
    case Some(i) => if i == |path| - 1 then "" else path[i..]
  }

  /** The lower-cased extensions for which the moov atom is moved to the front. */
  predicate IsFastStartExtension(ext: string) {
    ext == ".m4v" || ext == ".mov" || ext == ".m4a" || ext == ".mp4"
  }

  /** The `switch` on `Path.GetExtension(path).ToLower()`. */
  predicate FastStart(path: string)
    ensures FastStart(path) ==> |GetExtension(path)| == 4 && EndsWith(path, GetExtension(path))
  {
    IsFastStartExtension(ToLower(GetExtension(path)))
  }

  /** A `.` at i with only name characters after it starts the extension. */
  lemma {:induction false} ExtensionStartAt(path: string, i: nat)
    requires i < |path| && path[i] == '.'
    requires forall j :: i < j < |path| ==> path[j] != '.' && !IsDirectorySeparator(path[j])
    ensures ExtensionStart(path) == Some(i)
    decreases |path|
  {
    if i < |path| - 1 {
      var p := path[..|path| - 1];
      assert forall j :: i < j < |p| ==> p[j] == path[j];
      ExtensionStartAt(p, i);
    }
  }

  /** The lower-cased path ends in the lower-cased extension. */
  lemma {:induction false} LowerExtensionIsSuffix(path: string)
    ensures var ext := GetExtension(path);
      |ext| <= |path| && ToLower(path)[|path| - |ext|..] == ToLower(ext)
  {
    var ext := GetExtension(path);
    assert ext == path[|path| - |ext|..];
  }

  /** When the lower-cased path ends in `.` followed by name characters, that
      is the lower-cased extension. */
  lemma {:induction false} ExtensionOfSuffix(path: string, e: string)
    requires |e| >= 2 && e[0] == '.' && |path| >= |e|
    requires forall j :: 1 <= j < |e| ==> e[j] != '.' && !IsDirectorySeparator(e[j])
    requires ToLower(path)[|path| - |e|..] == e
    ensures ToLower(GetExtension(path)) == e
  {
    var i := |path| - |e|;
    var x := path[i..];
    ToLowerSuffix(path, i);
    LowerKeepsNameChars(x, e);
    assert path[i] == x[0];
    forall j | i < j < |path|
      ensures path[j] != '.' && !IsDirectorySeparator(path[j])
    {
      assert path[j] == x[j - i];
    }
    ExtensionStartAt(path, i);
    assert GetExtension(path) == x;
  }

  /** Lower-casing a suffix gives the suffix of the lower-cased text. */
  lemma {:induction false} ToLowerSuffix(s: string, i: nat)
    requires i <= |s|
    ensures ToLower(s[i..]) == ToLower(s)[i..]
  {
    var a, b := ToLower(s[i..]), ToLower(s)[i..];
    forall k | 0 <= k < |a|
      ensures a[k] == b[k]
    {
      assert s[i..][k] == s[i + k];
    }
  }

  /** Lower-casing maps only letters, so a `.` followed by name characters
      after lower-casing was one before. */
  lemma {:induction false} LowerKeepsNameChars(x: string, e: string)
    requires ToLower(x) == e && |e| >= 1 && e[0] == '.'
    requires forall j :: 1 <= j < |e| ==> e[j] != '.' && !IsDirectorySeparator(e[j])
    ensures x[0] == '.' && forall j :: 1 <= j < |x| ==> x[j] != '.' && !IsDirectorySeparator(x[j])
  {
    forall j | 0 <= j < |x|
      ensures LowerChar(x[j]) == e[j]
    {
    }
  }

  /** The four extensions are a `.` and three name characters. */
  lemma {:induction false} FastStartExtensionShape(e: string)
    requires IsFastStartExtension(e)
    ensures |e| == 4 && e[0] == '.'
    ensures forall j :: 1 <= j < |e| ==> e[j] != '.' && !IsDirectorySeparator(e[j])
  {
    assert forall j :: 1 <= j < 4 ==> 'a' <= ".m4v"[j] <= 'z' || '0' <= ".m4v"[j] <= '9';
  }

  /** A path that ends, lower-cased, in one of the four extensions gets faststart. */
  lemma {:induction false} FastStartOfSuffix(path: string)
    requires |path| >= 4 && IsFastStartExtension(ToLower(path)[|path| - 4..])
    ensures FastStart(path)
  {
    var e := ToLower(path)[|path| - 4..];
    FastStartExtensionShape(e);
    ExtensionOfSuffix(path, e);
  }

  /** A path that gets faststart ends, lower-cased, in one of the four extensions. */
  lemma {:induction false} SuffixOfFastStart(path: string)
    requires FastStart(path)
    ensures |path| >= 4 && IsFastStartExtension(ToLower(path)[|path| - 4..])
  {
    LowerExtensionIsSuffix(path);
  }

  /** Faststart is chosen exactly when the path, lower-cased, ends in one of
      the four extensions, whatever the directory part. */
  lemma {:induction false} FastStartIffSuffix(path: string)
    ensures FastStart(path) <==> |path| >= 4 && IsFastStartExtension(ToLower(path)[|path| - 4..])
  {
    if FastStart(path) {
      SuffixOfFastStart(path);
    }
    if |path| >= 4 && IsFastStartExtension(ToLower(path)[|path| - 4..]) {
      FastStartOfSuffix(path);
    }
  }

  /** A set time as the text ffmpeg is given. */
  function FormatTime(t: Option<int>): Option<string> {
    if t.Some? then Some(GetFFMpegFormat(t.value)) else None
  }

  /** `OutputFile`: public settings of the output file; the path is fixed by
      the constructor. */
  datatype OutputFile = OutputFile(
    StartTime: Option<int>,
    StopTime: Option<int>,
    Duration: Option<int>,
    FileSizeLimit: Option<int>,
    Title: Option<string>,
    FilePath: string)

  /** `new OutputFile(filePath)`: every setting unset. */
  function NewOutputFile(filePath: string): (o: OutputFile)
    ensures o.FilePath == filePath
    ensures o.StartTime.None? && o.StopTime.None? && o.Duration.None?
    ensures o.FileSizeLimit.None? && o.Title.None?
  {
    OutputFile(None, None, None, None, None, filePath)
  }

  const OutputFlags: seq<string> := ["-ss", "-to", "-t", "-fs", "-metadata", "-movflags"]

  lemma {:induction false} OutputFlagsDistinct()
    ensures DistinctFlags(OutputFlags)
  {
  }

  /** `OutputFile.GetArguments()`: the seek, stop, duration, size, title and
      faststart options in that order, each only when it applies, then the
      quoted output path. The path is the last token and the only one that
      is not an option, so it is emitted exactly once. */
  function OutputFileArguments(o: OutputFile): (args: seq<string>)
    ensures |args| >= 1 && args[|args| - 1] == Quoted(o.FilePath)
    ensures forall i :: 0 <= i < |args| - 1 ==> |args[i]| > 0 && args[i][0] == '-'
  {
    var values := [
      FormatTime(o.StartTime),
      FormatTime(o.StopTime),
      FormatTime(o.Duration),
      if o.FileSizeLimit.Some? then Some(IntToString(o.FileSizeLimit.value)) else None,
      if o.Title.Some? then Some("title=\"" + GetEscapedString(o.Title.value) + "\"") else None,
      if FastStart(o.FilePath) then Some("+faststart") else None];
    OutputFlagsDistinct();
    OptsShape(OutputFlags, values);
    Opts(OutputFlags, values) + [Quoted(o.FilePath)]
  }

  /** Reading the output tokens back the way ffmpeg does gives every setting:
      each option is present exactly when its field is set, with the value
      formatted from that field (so `-to` and `-t` both appear when both are
      set), and the faststart flag exactly for the four containers. */
  lemma {:induction false} OutputFileArgumentsReadBack(o: OutputFile)
    ensures var args := OutputFileArguments(o);
      && FlagValue(args, "-ss") == FormatTime(o.StartTime)
      && FlagValue(args, "-to") == FormatTime(o.StopTime)
      && FlagValue(args, "-t") == FormatTime(o.Duration)
      && FlagValue(args, "-fs") == (if o.FileSizeLimit.Some? then Some(IntToString(o.FileSizeLimit.value)) else None)
      && FlagValue(args, "-metadata") == (if o.Title.Some? then Some("title=\"" + GetEscapedString(o.Title.value) + "\"") else None)
      && FlagValue(args, "-movflags") == (if FastStart(o.FilePath) then Some("+faststart") else None)
  {
    var values := [
      FormatTime(o.StartTime),
      FormatTime(o.StopTime),
      FormatTime(o.Duration),
      if o.FileSizeLimit.Some? then Some(IntToString(o.FileSizeLimit.value)) else None,
      if o.Title.Some? then Some("title=\"" + GetEscapedString(o.Title.value) + "\"") else None,
      if FastStart(o.FilePath) then Some("+faststart") else None];
    OutputFlagsDistinct();
    var opts := Opts(OutputFlags, values);
    forall k | 0 <= k < 6
      ensures FlagValue(opts + [Quoted(o.FilePath)], OutputFlags[k]) == values[k]
    {
      FlagValueOpts(OutputFlags, values, k);
      FlagValueAppend(opts, [Quoted(o.FilePath)], OutputFlags[k]);
      FlagValueNonOption(Quoted(o.FilePath), OutputFlags[k]);
    }
    assert OutputFlags[0] == "-ss" && OutputFlags[1] == "-to" && OutputFlags[2] == "-t";
    assert OutputFlags[3] == "-fs" && OutputFlags[4] == "-metadata" && OutputFlags[5] == "-movflags";
  }
}
