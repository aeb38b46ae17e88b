/** `ConcatArguments` of the ffmpeg namespace
    (FFMpeg-Wrapper/ffmpeg/ConcatArguments.cs): a concat-demuxer job. The
    files to join and the chapters are collected as the lines of a manifest
    (`FileData`) that ffmpeg reads as its only input; the streams of input 0
    are mapped to the output, and the processing time is the sum of the
    added files' durations. */
module Concat {
  import opened Wrappers
  import opened Text
  import opened Utils
  import opened Tokens
  import opened FileOptions
  import OutputFiles
  import Streams
  import Ffprobe
  import Transcode

  /* ---------------------------------------------------------------------- */
  /* The manifest                                                            */
  /* ---------------------------------------------------------------------- */

  /** `file '<path>'`, every `'` of the path escaped with a backslash. */
  function FileLine(path: string): (line: string)
    ensures IsFileLine(line) && line[6..|line| - 1] == EscapeChar(path, '\'')
  {
    "file '" + EscapeChar(path, '\'') + "'"
  }

  /** `<keyword> <time>` when the time is given, nothing otherwise; the
      `lead` is the keyword and its space. */
  function TimeLine(lead: string, t: Option<int>): (lines: seq<string>)
    ensures |lines| == if t.Some? then 1 else 0
  {
    if t.Some? then [lead + GetFFMpegFormat(t.value)] else []
  }

  /** The lines `AddFile` writes: the file, then its duration, in point
      and out point, each when given. */
  function FileEntryLines(path: string, duration: Option<int>, inPoint: Option<int>, outPoint: Option<int>): seq<string> {
    [FileLine(path)] + TimeLine("duration ", duration) + TimeLine("inpoint ", inPoint) + TimeLine("outpoint ", outPoint)
  }

  /** The line `AddChapter` writes. */
  function ChapterLine(id: string, start: int, end: int): (line: string)
    ensures |line| > 8 + |id| && line[..8] == "chapter " && line[8..8 + |id|] == id && line[8 + |id|] == ' '
  {
    "chapter " + id + " " + GetFFMpegFormat(start) + " " + GetFFMpegFormat(end)
  }

  /** One call that wrote to the manifest: an added file (with the length
      its analysis reported) or a chapter. */
  datatype ManifestEntry =
    | FileEntry(Path: string, Length: int, Duration: Option<int>, InPoint: Option<int>, OutPoint: Option<int>)
    | ChapterEntry(ID: string, Start: int, End: int)

  /** The lines one call writes. */
  function EntryLines(e: ManifestEntry): seq<string> {
    match e
    case FileEntry(path, _, duration, inPoint, outPoint) => FileEntryLines(path, duration, inPoint, outPoint)
    case ChapterEntry(id, start, end) => [ChapterLine(id, start, end)]
  }

  /** The manifest written by a sequence of calls, in call order. */
  function Manifest(entries: seq<ManifestEntry>): seq<string> {
    if entries == [] then []
    else Manifest(entries[..|entries| - 1]) + EntryLines(entries[|entries| - 1])
  }

  /** The accumulated duration: the sum of the lengths of the added files;
      chapters add nothing. */
  function TotalDuration(entries: seq<ManifestEntry>): int {
    if entries == [] then 0
    else
      var e := entries[|entries| - 1];
      TotalDuration(entries[..|entries| - 1]) + (if e.FileEntry? then e.Length else 0)
  }

  /** The paths of the added files, in call order. */
  function FilePaths(entries: seq<ManifestEntry>): seq<string> {
    if entries == [] then []
    else
      var e := entries[|entries| - 1];
      FilePaths(entries[..|entries| - 1]) + (if e.FileEntry? then [e.Path] else [])
  }

  /** Later calls only append to the manifest: the manifest of two call
      sequences is the first one's followed by the second one's. */
  lemma {:induction false} ManifestAppend(a: seq<ManifestEntry>, b: seq<ManifestEntry>)
    ensures Manifest(a + b) == Manifest(a) + Manifest(b)
  {
    if b == [] {
      assert a + b == a;
    } else {
      var front := b[..|b| - 1];
      ManifestAppend(a, front);
      assert (a + b)[..|a + b| - 1] == a + front;
      SeqAppendAssoc(Manifest(a), Manifest(front), EntryLines(b[|b| - 1]));
    }
  }

  /** The duration of two call sequences is the sum of their durations. */
  lemma {:induction false} TotalDurationAppend(a: seq<ManifestEntry>, b: seq<ManifestEntry>)
    ensures TotalDuration(a + b) == TotalDuration(a) + TotalDuration(b)
  {
    if b == [] {
      assert a + b == a;
    } else {
      var front := b[..|b| - 1];
      TotalDurationAppend(a, front);
      assert (a + b)[..|a + b| - 1] == a + front;
    }
  }

  /* ---------------------------------------------------------------------- */
  /* Reading the manifest back                                               */
  /* ---------------------------------------------------------------------- */

  /** A line naming a file: `file '`, the escaped path, `'`. */
  predicate IsFileLine(line: string) {
    |line| >= 7 && StartsWith(line, "file '") && line[|line| - 1] == '\''
  }

  /** The path a file line names, with its escapes removed. */
  function LinePath(line: string): string
    requires IsFileLine(line)
  {
    UnescapeChar(line[6..|line| - 1], '\'')
  }

  /** The paths a manifest names under the wrapper's own convention: the
      paths of its file lines, in order, each with the escaping `AddFile`
      applies undone (`\'` back to `'`). This is the inverse of that
      escaping, not ffmpeg's reading of the line. */
  function ManifestFiles(lines: seq<string>): seq<string> {
    if lines == [] then []
    else (if IsFileLine(lines[0]) then [LinePath(lines[0])] else []) + ManifestFiles(lines[1..])
  }

  lemma {:induction false} ManifestFilesAppend(a: seq<string>, b: seq<string>)
    ensures ManifestFiles(a + b) == ManifestFiles(a) + ManifestFiles(b)
  {
    if a == [] {
      assert a + b == b;
    } else {
      var ab := a + b;
      assert ab[0] == a[0] && ab[1..] == a[1..] + b;
      var head := if IsFileLine(a[0]) then [LinePath(a[0])] else [];
      assert ManifestFiles(ab) == head + ManifestFiles(a[1..] + b);
      ManifestFilesAppend(a[1..], b);
      assert ManifestFiles(a) == head + ManifestFiles(a[1..]);
      assert head + (ManifestFiles(a[1..]) + ManifestFiles(b)) == (head + ManifestFiles(a[1..])) + ManifestFiles(b);
    }
  }

  /** A file line gives back the path it was written for, quotes and all. */
  lemma {:induction false} FileLineReadBack(path: string)
    ensures IsFileLine(FileLine(path)) && LinePath(FileLine(path)) == path
  {
    var line := FileLine(path);
    var escaped := EscapeChar(path, '\'');
    assert line[..6] == "file '";
    assert line[6..|line| - 1] == escaped;
    EscapeRoundTrip(path, '\'');
  }

  /** A line that does not start with `f` names no file. */
  lemma {:induction false} NoFileLine(line: string)
    requires |line| > 0 && line[0] != 'f'
    ensures ManifestFiles([line]) == []
  {
    assert |[line][1..]| == 0;
  }

  /** Time and chapter lines name no file. */
  lemma {:induction false} OtherLinesNameNoFile(duration: Option<int>, inPoint: Option<int>, outPoint: Option<int>, id: string, start: int, end: int)
    ensures ManifestFiles(TimeLine("duration ", duration)) == []
    ensures ManifestFiles(TimeLine("inpoint ", inPoint)) == []
    ensures ManifestFiles(TimeLine("outpoint ", outPoint)) == []
    ensures ManifestFiles([ChapterLine(id, start, end)]) == []
  {
    if duration.Some? {
      NoFileLine("duration " + GetFFMpegFormat(duration.value));
    }
    if inPoint.Some? {
      NoFileLine("inpoint " + GetFFMpegFormat(inPoint.value));
    }
    if outPoint.Some? {
      NoFileLine("outpoint " + GetFFMpegFormat(outPoint.value));
    }
    NoFileLine(ChapterLine(id, start, end));
  }

  /** Undoing `AddFile`'s escaping gives back exactly the added files, in
      the order they were added, whatever chapters and trims were written
      between. */
  lemma {:induction false} ManifestFilesAreAddedFiles(entries: seq<ManifestEntry>)
    ensures ManifestFiles(Manifest(entries)) == FilePaths(entries)
  {
    if entries != [] {
      var front, e := entries[..|entries| - 1], entries[|entries| - 1];
      ManifestFilesAreAddedFiles(front);
      ManifestFilesAppend(Manifest(front), EntryLines(e));
      match e {
        case FileEntry(path, _, duration, inPoint, outPoint) =>
          var l0, l1, l2, l3 := [FileLine(path)], TimeLine("duration ", duration), TimeLine("inpoint ", inPoint), TimeLine("outpoint ", outPoint);
          OtherLinesNameNoFile(duration, inPoint, outPoint, "", 0, 0);
          FileLineReadBack(path);
          ManifestFilesAppend(l0 + l1 + l2, l3);
          ManifestFilesAppend(l0 + l1, l2);
          ManifestFilesAppend(l0, l1);
          assert ManifestFiles(l0) == [path];
        case ChapterEntry(id, start, end) =>
          OtherLinesNameNoFile(None, None, None, id, start, end);
      }
    }
  }

  /** The time lines of a file read back, keyword by keyword, as the
      formatted time given for it, and only when one was given. */
  lemma {:induction false} FileEntryTimesReadBack(path: string, duration: Option<int>, inPoint: Option<int>, outPoint: Option<int>)
    ensures var lines := FileEntryLines(path, duration, inPoint, outPoint);
      && lines[0] == FileLine(path)
      && FlagValue(lines, "duration") == OutputFiles.FormatTime(duration)
      && FlagValue(lines, "inpoint") == OutputFiles.FormatTime(inPoint)
      && FlagValue(lines, "outpoint") == OutputFiles.FormatTime(outPoint)
  {
    FileEntryTimeValue(path, duration, inPoint, outPoint, "duration");
    FileEntryTimeValue(path, duration, inPoint, outPoint, "inpoint");
    FileEntryTimeValue(path, duration, inPoint, outPoint, "outpoint");
  }

  /** The value a file's lines give for one time keyword. */
  lemma {:induction false} FileEntryTimeValue(path: string, duration: Option<int>, inPoint: Option<int>, outPoint: Option<int>, g: string)
    requires IsTimeKeyword(g)
    ensures FlagValue(FileEntryLines(path, duration, inPoint, outPoint), g)
      == if g == "duration" then OutputFiles.FormatTime(duration)
         else if g == "inpoint" then OutputFiles.FormatTime(inPoint)
         else OutputFiles.FormatTime(outPoint)
  {
    var l0, l1, l2, l3 := [FileLine(path)], TimeLine("duration ", duration), TimeLine("inpoint ", inPoint), TimeLine("outpoint ", outPoint);
    FlagValueAppend(l0 + l1 + l2, l3, g);
    FlagValueAppend(l0 + l1, l2, g);
    FlagValueAppend(l0, l1, g);
    FileLineHasNoTime(path, g);
    TimeLineValue("duration ", "duration", duration, g);
    TimeLineValue("inpoint ", "inpoint", inPoint, g);
    TimeLineValue("outpoint ", "outpoint", outPoint, g);
  }

  /** A file line answers for no time keyword. */
  lemma {:induction false} FileLineHasNoTime(path: string, g: string)
    requires IsTimeKeyword(g)
    ensures FlagValue([FileLine(path)], g) == None
  {
    var line := FileLine(path);
    assert line[0] == 'f';
    assert (g + " ")[0] == g[0];
    assert g[0] != 'f';
    var rest: seq<string> := [line][1..];
    assert rest == [];
  }

  /** The keywords of the time lines of a file. */
  predicate IsTimeKeyword(g: string) {
    g == "duration" || g == "inpoint" || g == "outpoint"
  }

  /** A time line answers for its own keyword only. */
  lemma {:induction false} TimeLineValue(lead: string, keyword: string, t: Option<int>, g: string)
    requires IsTimeKeyword(keyword) && IsTimeKeyword(g) && lead == keyword + " "
    ensures FlagValue(TimeLine(lead, t), g) == if keyword == g then OutputFiles.FormatTime(t) else None
  {
    if t.Some? {
      var line := keyword + " " + GetFFMpegFormat(t.value);
      assert TimeLine(lead, t)[1..] == [];
      if keyword == g {
        assert line[..|g| + 1] == g + " ";
        assert line[|g| + 1..] == GetFFMpegFormat(t.value);
      } else {
        assert line[0] == keyword[0] != g[0];
      }
    }
  }

  /** The path of the manifest inside the temporary folder:
      `Path.Combine(folder, "FileList.txt")` where the directory separator
      is `/`. */
  function ListFilePath(folder: string): (path: string)
    ensures |path| == |folder| + (if folder == "" || folder[|folder| - 1] == '/' then 12 else 13)
    ensures path[..|folder|] == folder && path[|path| - 12..] == "FileList.txt"
    ensures folder != "" ==> path[|path| - 13] == '/'
  {
    if folder == "" || folder[|folder| - 1] == '/' then folder + "FileList.txt"
    else folder + "/" + "FileList.txt"
  }

  /* ---------------------------------------------------------------------- */
  /* ConcatArguments                                                         */
  /* ---------------------------------------------------------------------- */

  /** `ConcatArguments`. */
  class ConcatArguments {
    var Duration: int
    const TempFolder: string
    var Arguments: seq<string>
    const OutputFile: OutputFileOptions
    var FileData: seq<string>
    var OutputStreamCount: int
    /** The calls that wrote to the manifest so far. */
    ghost var Entries: seq<ManifestEntry>

    /** The manifest and the duration are those of the calls made. */
    ghost predicate Valid()
      reads this
    {
      FileData == Manifest(Entries) && Duration == TotalDuration(Entries)
    }

    /** `new ConcatArguments(core, outputFile)`: faststart for the four
        MP4-family extensions; `tempFolder` is the folder created for the
        manifest. */
    constructor (outputFile: OutputFileOptions, tempFolder: string)
      ensures Valid()
      ensures OutputFile == outputFile && TempFolder == tempFolder
      ensures Entries == [] && Duration == 0 && FileData == [] && OutputStreamCount == 0
      ensures Arguments == if OutputFiles.FastStart(outputFile.FilePath) then ["-movflags +faststart"] else []
    {
      Duration := 0;
      Arguments := [];
      OutputFile := outputFile;
      FileData := [];
      OutputStreamCount := 0;
      TempFolder := tempFolder;
      Entries := [];
      if OutputFiles.FastStart(outputFile.FilePath) {
        Arguments := Arguments + ["-movflags +faststart"];
      }
    }

    /** `DetermineProcessTime()`: the sum of the added files' durations. */
    method DetermineProcessTime() returns (t: int)
      requires Valid()
      ensures t == TotalDuration(Entries)
    {
      return Duration;
    }

    /** `AddFile`: adds the file's duration and writes its manifest lines. */
    method AddFile(file: Ffprobe.MediaAnalysis, duration: Option<int>, startTime: Option<int>, stopTime: Option<int>)
      requires Valid()
      modifies this
      ensures Valid()
      ensures Entries == old(Entries) + [FileEntry(file.FilePath, file.Duration(), duration, startTime, stopTime)]
      ensures FileData == old(FileData) + FileEntryLines(file.FilePath, duration, startTime, stopTime)
      ensures Duration == old(Duration) + file.Duration()
      ensures Arguments == old(Arguments) && OutputStreamCount == old(OutputStreamCount)
    {
      ghost var entry := FileEntry(file.FilePath, file.Duration(), duration, startTime, stopTime);
      Duration := Duration + file.Duration();
      var filePath := EscapeChar(file.FilePath, '\'');
      FileData := FileData + ["file '" + filePath + "'"];
      ghost var written := [FileLine(file.FilePath)];
      if duration.Some? {
        SeqAppendAssoc(old(FileData), written, ["duration " + GetFFMpegFormat(duration.value)]);
        FileData := FileData + ["duration " + GetFFMpegFormat(duration.value)];
        written := written + ["duration " + GetFFMpegFormat(duration.value)];
      }
      assert written == [FileLine(file.FilePath)] + TimeLine("duration ", duration);
      if startTime.Some? {
        SeqAppendAssoc(old(FileData), written, ["inpoint " + GetFFMpegFormat(startTime.value)]);
        FileData := FileData + ["inpoint " + GetFFMpegFormat(startTime.value)];
        written := written + ["inpoint " + GetFFMpegFormat(startTime.value)];
      }
      assert written == [FileLine(file.FilePath)] + TimeLine("duration ", duration) + TimeLine("inpoint ", startTime);
      if stopTime.Some? {
        SeqAppendAssoc(old(FileData), written, ["outpoint " + GetFFMpegFormat(stopTime.value)]);
        FileData := FileData + ["outpoint " + GetFFMpegFormat(stopTime.value)];
        written := written + ["outpoint " + GetFFMpegFormat(stopTime.value)];
      }
      assert written == [FileLine(file.FilePath)] + TimeLine("duration ", duration) + TimeLine("inpoint ", startTime) + TimeLine("outpoint ", stopTime);
      assert EntryLines(entry) == FileEntryLines(file.FilePath, duration, startTime, stopTime);
      Entries := Entries + [entry];
      assert Entries[..|Entries| - 1] == old(Entries);
      assert Manifest(Entries) == Manifest(old(Entries)) + EntryLines(entry);
    }

    /** `AddChapter`: writes one chapter line. */
    method AddChapter(id: string, start: int, end: int)
      requires Valid()
      modifies this
      ensures Valid()
      ensures Entries == old(Entries) + [ChapterEntry(id, start, end)]
      ensures FileData == old(FileData) + [ChapterLine(id, start, end)]
      ensures Duration == old(Duration)
      ensures Arguments == old(Arguments) && OutputStreamCount == old(OutputStreamCount)
    {
      FileData := FileData + ["chapter " + id + " " + GetFFMpegFormat(start) + " " + GetFFMpegFormat(end)];
      Entries := Entries + [ChapterEntry(id, start, end)];
      assert Entries[..|Entries| - 1] == old(Entries);
    }

    /** `AddVideoStream` / `AddAudioStream` / `AddSubtitleStream`: maps the
        stream of input 0 (the manifest) and appends the options' tokens for
        the next output stream. The file options are accepted and ignored. */
    method AddStream(stream: Ffprobe.MediaStream, streamOptions: Streams.StreamOptions, fileOptions: InputFileOptions?)
      modifies this
      ensures Arguments == old(Arguments) + Transcode.StreamBlock(0, stream, streamOptions.View(), old(OutputStreamCount))
      ensures OutputStreamCount == old(OutputStreamCount) + 1
      ensures Entries == old(Entries) && FileData == old(FileData) && Duration == old(Duration)
      ensures streamOptions.View() == old(streamOptions.View())
    {
      var outputStreamSpecifier := Transcode.OutputSpecifier(OutputStreamCount);
      ghost var block := Transcode.StreamBlock(0, stream, streamOptions.View(), OutputStreamCount);
      SeqAppendAssoc(Arguments, [Transcode.MapToken(0, stream.index)], streamOptions.GetArguments(outputStreamSpecifier));
      Arguments := Arguments + [Transcode.MapToken(0, stream.index)] + streamOptions.GetArguments(outputStreamSpecifier);
      OutputStreamCount := OutputStreamCount + 1;
      assert Transcode.StreamBlock(0, stream, streamOptions.View(), old(OutputStreamCount)) == block;
    }

    /** `AddVideoStreams` / `AddAudioStreams` / `AddSubtitleStreams`: one
        `AddStream` per stream, in order, numbered on from the streams
        already mapped. */
    method AddStreams(streams: seq<Ffprobe.MediaStream>, streamOptions: Streams.StreamOptions, fileOptions: InputFileOptions?)
      modifies this
      ensures Arguments == old(Arguments) + Transcode.StreamBlocks(0, streams, streamOptions.View(), old(OutputStreamCount))
      ensures OutputStreamCount == old(OutputStreamCount) + |streams|
      ensures Entries == old(Entries) && FileData == old(FileData) && Duration == old(Duration)
    {
      ghost var view := streamOptions.View();
      ghost var start := Arguments;
      ghost var first := OutputStreamCount;
      for i := 0 to |streams|
        invariant Arguments == start + Transcode.StreamBlocks(0, streams[..i], view, first)
        invariant OutputStreamCount == first + i
        invariant Entries == old(Entries) && FileData == old(FileData) && Duration == old(Duration)
        invariant streamOptions.View() == view
      {
        Transcode.StreamBlocksStep(0, streams, view, first, i);
        SeqAppendAssoc(start, Transcode.StreamBlocks(0, streams[..i], view, first),
                       Transcode.StreamBlock(0, streams[i], view, first + i));
        AddStream(streams[i], streamOptions, fileOptions);
      }
      assert streams[..|streams|] == streams;
    }

    /** `GetArguments()`: the concat demuxer reading the manifest, the
        collected arguments, the output options, the quoted output path. */
    function GetArguments(): (args: seq<string>)
      reads this, OutputFile
      ensures |args| == 4 + |Arguments| + |OutputFile.GetArguments()|
      ensures args[0] == "-f concat" && args[1] == "-safe 0" && args[2] == PathOption("-i", ListFilePath(TempFolder))
      ensures args[|args| - 1] == Quoted(OutputFile.FilePath)
    {
      ["-f concat", "-safe 0", PathOption("-i", ListFilePath(TempFolder))]
      + Arguments + OutputFile.GetArguments() + [Quoted(OutputFile.FilePath)]
    }
  }

  /** The job reads the manifest through the concat demuxer, as its only
      named input before the collected arguments; the output options follow
      the arguments, and the quoted output path comes last. */
  lemma {:induction false} ConcatArgumentsLayout(c: ConcatArguments)
    ensures var args := c.GetArguments();
      var out := c.OutputFile.GetArguments();
      && FlagValue(args, "-f") == Some("concat")
      && FlagValue(args, "-safe") == Some("0")
      && FlagValue(args, "-i") == Some(Quoted(ListFilePath(c.TempFolder)))
      && args[3..3 + |c.Arguments|] == c.Arguments
      && args[3 + |c.Arguments|..|args| - 1] == out
      && args[|args| - 1] == Quoted(c.OutputFile.FilePath)
  {
    var path := Quoted(ListFilePath(c.TempFolder));
    var x, y, z := Opt("-f", Some("concat")), Opt("-safe", Some("0")), Opt("-i", Some(path));
    var rest := c.Arguments + c.OutputFile.GetArguments() + [Quoted(c.OutputFile.FilePath)];
    assert "-f" + " " + "concat" == "-f concat";
    assert "-safe" + " " + "0" == "-safe 0";
    assert x + y + z == ["-f concat", "-safe 0", PathOption("-i", ListFilePath(c.TempFolder))];
    assert c.GetArguments() == x + y + z + rest;
    forall g | g == "-f" || g == "-safe" || g == "-i"
      ensures FlagValue(x + y + z + rest, g) == if g == "-f" then Some("concat") else if g == "-safe" then Some("0") else Some(path)
    {
      FlagValueAppend(x + y + z, rest, g);
      FlagValueAppend(x + y, z, g);
      FlagValueAppend(x, y, g);
      FlagValueOpt("-f", Some("concat"), g);
      FlagValueOpt("-safe", Some("0"), g);
      FlagValueOpt("-i", Some(path), g);
    }
  }

  /** Each stream maps input 0 with its own ordinal: among the tokens
      `AddStreams` appends, stream `k` contributes `-map 0:<index>` followed
      by the options' tokens for output stream `first + k`, after `k`
      blocks of equal length. */
  lemma {:induction false} ConcatStreamMaps(streams: seq<Ffprobe.MediaStream>, view: Streams.ArgumentsView, first: int, k: int)
    requires 0 <= k < |streams|
    ensures var before := Transcode.StreamBlocks(0, streams[..k], view, first);
      && |before| == k * Transcode.BlockLength(view)
      && Transcode.StreamBlocks(0, streams, view, first)
         == before
            + (["-map 0:" + IntToString(streams[k].index)] + Streams.RenderStream(view, ":" + IntToString(first + k)))
            + Transcode.StreamBlocks(0, streams[k + 1..], view, first + k + 1)
  {
    Transcode.StreamBlocksLayout(0, streams, view, first, k);
    InputZeroMap(streams[k].index);
  }

  /** The map token of input 0: `-map 0:<index>`. */
  lemma {:induction false} InputZeroMap(index: int)
    ensures Transcode.MapToken(0, index) == "-map 0:" + IntToString(index)
  {
    assert IntToString(0) == "0";
    SeqAppendAssoc("-map ", "0", ":");
  }
}
