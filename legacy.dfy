/** The older `TranscodeArguments` of the root namespace
    (FFMpeg-Wrapper/TranscodeArguments.cs) and the boolean result check of
    the root `FFMpegArgs` (FFMpeg-Wrapper/FFMpegArgs.cs). Inputs are told
    apart by reference, each stream carries the file it came from, and the
    stream options are a codec plus an optional language. */
module Legacy {
  import opened Wrappers
  import opened Text
  import opened Tokens
  import Codecs
  import Ffprobe
  import Streams
  import Transcode
  import Runner

  /* ---------------------------------------------------------------------- */
  /* Stream options                                                          */
  /* ---------------------------------------------------------------------- */

  /** The metadata token naming a language for output specifier `spec`:
      `-metadata` for the whole file when there is no specifier. */
  function LanguageToken(language: Ffprobe.Language, spec: string): (token: string)
    ensures var value := " language=" + Streams.LanguageCode(language);
      && |token| >= 9 + |value| && token[..9] == "-metadata" && token[|token| - |value|..] == value
  {
    (if spec == "" then "-metadata" else "-metadata:s" + spec) + " language=" + Streams.LanguageCode(language)
  }

  /** The metadata key of a language token answers with the language's
      code, and a specifier-less key is only used without a specifier. */
  lemma {:induction false} LanguageTokenReadBack(language: Ffprobe.Language, spec: string)
    ensures spec == "" ==> FlagValue([LanguageToken(language, spec)], "-metadata") == Some("language=" + Streams.LanguageCode(language))
    ensures spec != "" ==> FlagValue([LanguageToken(language, spec)], "-metadata:s" + spec) == Some("language=" + Streams.LanguageCode(language))
  {
    var code := Streams.LanguageCode(language);
    if spec == "" {
      assert LanguageToken(language, spec) == "-metadata" + " " + ("language=" + code);
    } else {
      assert LanguageToken(language, spec) == ("-metadata:s" + spec) + " " + ("language=" + code);
    }
  }

  /** `StreamOptions<TCodec, TSelf>` with its video, audio and subtitle
      instances: a codec, copy by default, and an optional language. */
  class StreamOptions {
    var Codec: Codecs.Codec
    var Language: Option<Ffprobe.Language>

    /** `new VideoStreamOptions()` (and the audio and subtitle ones): the
        copy codec, no language. */
    constructor ()
      ensures Codec == Codecs.Copy && Language == None
    {
      Codec := Codecs.Copy;
      Language := None;
    }

    /** `SetCodec`: changes only the codec. */
    method SetCodec(codec: Codecs.Codec)
      modifies this
      ensures Codec == codec && Language == old(Language)
    {
      Codec := codec;
    }

    /** `SetLanguage`: changes only the language (which may be cleared). */
    method SetLanguage(language: Option<Ffprobe.Language>)
      modifies this
      ensures Language == language && Codec == old(Codec)
    {
      Language := language;
    }

    /** `GetArguments(outputStreamSpecifier)`: the codec token, the codec's
        own tokens, then the language token when a language is set. */
    function GetArguments(spec: string): (args: seq<string>)
      reads this, if Codec.X264? then {Codec.x264} else {}, if Codec.SvtAv1? then {Codec.svtav1} else {}
      ensures var codecArgs := Codecs.CodecArguments(Codec, spec);
        && |args| == 1 + |codecArgs| + (if Language.Some? then 1 else 0)
        && args[0] == "-c" + spec + " " + Codecs.CodecName(Codec)
        && args[1..1 + |codecArgs|] == codecArgs
        && (Language.Some? ==> args[|args| - 1] == LanguageToken(Language.value, spec))
    {
      var codecArgs := Codecs.CodecArguments(Codec, spec);
      var args := ["-c" + spec + " " + Codecs.CodecName(Codec)] + codecArgs
        + (if Language.Some? then [LanguageToken(Language.value, spec)] else []);
      assert args[1..1 + |codecArgs|] == codecArgs;
      args
    }
  }

  /** The tokens options add for a specifier; no options add none. */
  function OptionTokens(options: StreamOptions?, spec: string): seq<string>
    reads options
    reads if options != null && options.Codec.X264? then {options.Codec.x264} else {}
    reads if options != null && options.Codec.SvtAv1? then {options.Codec.svtav1} else {}
  {
    if options == null then [] else options.GetArguments(spec)
  }

  /* ---------------------------------------------------------------------- */
  /* The input registry                                                      */
  /* ---------------------------------------------------------------------- */

  /** `List.IndexOf` with reference equality: the first position holding
      `file`, or -1. */
  function IndexOf(files: seq<Ffprobe.MediaAnalysis>, file: Ffprobe.MediaAnalysis): (i: int)
    ensures -1 <= i < |files|
    ensures i >= 0 ==> files[i] == file && forall k :: 0 <= k < i ==> files[k] != file
    ensures i < 0 <==> file !in files
  {
    if files == [] then -1
    else if files[0] == file then 0
    else
      var i := IndexOf(files[1..], file);
      assert forall k :: 1 <= k < |files| ==> files[k] == files[1..][k - 1];
      if i < 0 then -1 else i + 1
  }

  /** The registry once `GetInputIndex` has been asked for `file`. */
  function Register(files: seq<Ffprobe.MediaAnalysis>, file: Ffprobe.MediaAnalysis): seq<Ffprobe.MediaAnalysis> {
    if IndexOf(files, file) < 0 then files + [file] else files
  }

  /** The index `GetInputIndex` returns for `file`. */
  function FileIndex(files: seq<Ffprobe.MediaAnalysis>, file: Ffprobe.MediaAnalysis): int {
    if IndexOf(files, file) < 0 then |files| else IndexOf(files, file)
  }

  /** No file is registered twice. */
  predicate Distinct(files: seq<Ffprobe.MediaAnalysis>) {
    forall i, j :: 0 <= i < j < |files| ==> files[i] != files[j]
  }

  /** Registering keeps the files already there, in place; adds `file` at
      the end exactly when it is new; and the returned index holds `file`. */
  lemma {:induction false} RegisterSpec(files: seq<Ffprobe.MediaAnalysis>, file: Ffprobe.MediaAnalysis)
    ensures var r, i := Register(files, file), FileIndex(files, file);
      && 0 <= i < |r| && r[i] == file
      && r[..|files|] == files
      && (file in files ==> r == files)
      && (file !in files ==> r == files + [file] && i == |files|)
      && (Distinct(files) ==> Distinct(r))
  {
    var r := Register(files, file);
    if file !in files {
      assert r[..|files|] == files;
    }
  }

  /** Asking again for a registered file changes nothing and gives the same
      index. */
  lemma {:induction false} RegisterIdempotent(files: seq<Ffprobe.MediaAnalysis>, file: Ffprobe.MediaAnalysis)
    requires Distinct(files)
    ensures Register(Register(files, file), file) == Register(files, file)
    ensures FileIndex(Register(files, file), file) == FileIndex(files, file)
  {
    RegisterSpec(files, file);
    var r := Register(files, file);
    var i := FileIndex(files, file);
  }

  /** The registry after the sources of `streams` have been registered in order. */
  function RegisterAll(files: seq<Ffprobe.MediaAnalysis>, streams: seq<Ffprobe.SourcedStream>): seq<Ffprobe.MediaAnalysis> {
    if streams == [] then files
    else Register(RegisterAll(files, streams[..|streams| - 1]), streams[|streams| - 1].Source)
  }

  /** The tokens options add for `n` output streams numbered from `first`. */
  function Rendered(options: StreamOptions?, first: int, n: nat): (r: seq<seq<string>>)
    reads options
    reads if options != null && options.Codec.X264? then {options.Codec.x264} else {}
    reads if options != null && options.Codec.SvtAv1? then {options.Codec.svtav1} else {}
    ensures |r| == n && forall k :: 0 <= k < n ==> r[k] == OptionTokens(options, Transcode.OutputSpecifier(first + k))
  {
    if n == 0 then []
    else
      var earlier := Rendered(options, first, n - 1);
      var r := earlier + [OptionTokens(options, Transcode.OutputSpecifier(first + n - 1))];
      assert forall k :: 0 <= k < n - 1 ==> r[k] == earlier[k];
      r
  }

  /** What adding one stream appends: the map from the index of its
      source, then the tokens of its options. */
  function StreamTokens(files: seq<Ffprobe.MediaAnalysis>, s: Ffprobe.SourcedStream, optionTokens: seq<string>): seq<string> {
    [Transcode.MapToken(FileIndex(files, s.Source), s.Stream.index)] + optionTokens
  }

  /** What adding `streams` in order appends, stream `k` carrying the
      option tokens `rendered[k]`. */
  function Blocks(files: seq<Ffprobe.MediaAnalysis>, streams: seq<Ffprobe.SourcedStream>, rendered: seq<seq<string>>): seq<string>
    requires |rendered| == |streams|
  {
    if streams == [] then []
    else
      var front := streams[..|streams| - 1];
      Blocks(files, front, rendered[..|front|]) + StreamTokens(RegisterAll(files, front), streams[|streams| - 1], rendered[|front|])
  }

  /** Registering streams keeps the registry free of repeats, keeps what was
      there in place, and adds at most one file per stream. */
  lemma {:induction false} RegisterAllSpec(files: seq<Ffprobe.MediaAnalysis>, streams: seq<Ffprobe.SourcedStream>)
    requires Distinct(files)
    ensures var r := RegisterAll(files, streams);
      Distinct(r) && |files| <= |r| <= |files| + |streams| && r[..|files|] == files
      && forall i :: 0 <= i < |streams| ==> streams[i].Source in r
  {
    if streams != [] {
      var front := streams[..|streams| - 1];
      RegisterAllSpec(files, front);
      var before := RegisterAll(files, front);
      RegisterSpec(before, streams[|streams| - 1].Source);
      var r := RegisterAll(files, streams);
      assert r[..|before|] == before;
      assert r[..|files|] == before[..|files|];
      forall i | 0 <= i < |streams|
        ensures streams[i].Source in r
      {
        if i < |front| {
          assert front[i] == streams[i];
          var k :| 0 <= k < |before| && before[k] == streams[i].Source;
          assert r[k] == before[k];
        }
      }
    }
  }

  /** Every stream of one file maps from the same input: the file's index
      in the registry before the first of them was added. */
  lemma {:induction false} OneSourceOneIndex(files: seq<Ffprobe.MediaAnalysis>, file: Ffprobe.MediaAnalysis, streams: seq<Ffprobe.MediaStream>, k: nat)
    requires Distinct(files) && k <= |streams|
    ensures FileIndex(RegisterAll(files, Ffprobe.FromFile(file, streams)[..k]), file) == FileIndex(files, file)
    ensures k > 0 ==> RegisterAll(files, Ffprobe.FromFile(file, streams)[..k]) == Register(files, file)
  {
    if k > 0 {
      var s := Ffprobe.FromFile(file, streams)[..k];
      assert s[..k - 1] == Ffprobe.FromFile(file, streams)[..k - 1];
      OneSourceOneIndex(files, file, streams, k - 1);
      RegisterIdempotent(files, file);
      if k - 1 == 0 {
        assert s[..k - 1] == [];
      }
    }
  }

  /* ---------------------------------------------------------------------- */
  /* TranscodeArguments                                                      */
  /* ---------------------------------------------------------------------- */

  /** The `-i "path"` tokens of the registered inputs, in order. */
  function InputTokens(files: seq<Ffprobe.MediaAnalysis>): (r: seq<string>)
    ensures |r| == |files| && forall i :: 0 <= i < |files| ==> r[i] == PathOption("-i", files[i].FilePath)
  {
    seq(|files|, i requires 0 <= i < |files| => PathOption("-i", files[i].FilePath))
  }

  /** The root-namespace `TranscodeArguments`: the registry of inputs, the
      global options, the arguments built so far, the output path and the
      streams mapped so far. */
  class TranscodeArguments {
    var InputFiles: seq<Ffprobe.MediaAnalysis>
    var GlobalOptions: seq<string>
    var Arguments: seq<string>
    const OutputFile: string
    var OutputStreams: seq<Ffprobe.MediaStream>

    /** Every input is registered once. */
    ghost predicate Valid()
      reads `InputFiles
    {
      Distinct(InputFiles)
    }

    /** A job writing to `outputFile`, with nothing added yet. */
    constructor (outputFile: string)
      ensures Valid()
      ensures InputFiles == [] && GlobalOptions == [] && Arguments == [] && OutputStreams == []
      ensures OutputFile == outputFile
    {
      InputFiles := [];
      GlobalOptions := [];
      Arguments := [];
      OutputFile := outputFile;
      OutputStreams := [];
    }

    /** `GetArguments()`: the global options, one `-i "path"` per input in
        registry order, the arguments, and the quoted output path last. */
    function GetArguments(): (args: seq<string>)
      reads this
      ensures |args| == |GlobalOptions| + |InputFiles| + |Arguments| + 1
      ensures args[..|GlobalOptions|] == GlobalOptions && args[|args| - 1] == Quoted(OutputFile)
    {
      GlobalOptions + InputTokens(InputFiles) + Arguments + [Quoted(OutputFile)]
    }

    /** `GetInputIndex`: the position of the file in the registry, where it
        is appended if it is not there yet. */
    method GetInputIndex(inputFile: Ffprobe.MediaAnalysis) returns (index: int)
      requires Valid()
      modifies this
      ensures Valid()
      ensures InputFiles == Register(old(InputFiles), inputFile)
      ensures index == FileIndex(old(InputFiles), inputFile)
      ensures GlobalOptions == old(GlobalOptions) && Arguments == old(Arguments) && OutputStreams == old(OutputStreams)
    {
      RegisterSpec(InputFiles, inputFile);
      index := IndexOf(InputFiles, inputFile);
      if index < 0 {
        index := |InputFiles|;
        InputFiles := InputFiles + [inputFile];
      }
    }

    /** `AddVideoStream` / `AddAudioStream` / `AddSubtitleStream`: maps the
        stream from its file's input index, then appends the options' tokens
        (if there are options) for the next output stream. */
    method AddStream(stream: Ffprobe.SourcedStream, options: StreamOptions?)
      requires Valid()
      modifies this
      ensures Valid()
      ensures InputFiles == Register(old(InputFiles), stream.Source)
      ensures Arguments == old(Arguments) + StreamTokens(old(InputFiles), stream, old(OptionTokens(options, Transcode.OutputSpecifier(|OutputStreams|))))
      ensures OutputStreams == old(OutputStreams) + [stream.Stream]
      ensures GlobalOptions == old(GlobalOptions)
      ensures forall spec :: OptionTokens(options, spec) == old(OptionTokens(options, spec))
    {
      var outputStreamSpecifier := Transcode.OutputSpecifier(|OutputStreams|);
      var optionTokens := OptionTokens(options, outputStreamSpecifier);
      AppendStream(stream, optionTokens);
    }

    /** The part of `AddStream` that changes the job: the map from the
        source's input index, then the given option tokens. */
    method AppendStream(stream: Ffprobe.SourcedStream, optionTokens: seq<string>)
      requires Valid()
      modifies this
      ensures Valid()
      ensures InputFiles == Register(old(InputFiles), stream.Source)
      ensures Arguments == old(Arguments) + StreamTokens(old(InputFiles), stream, optionTokens)
      ensures OutputStreams == old(OutputStreams) + [stream.Stream]
      ensures GlobalOptions == old(GlobalOptions)
    {
      var sourceIndex := GetInputIndex(stream.Source);
      Arguments := Arguments + [Transcode.MapToken(sourceIndex, stream.Stream.index)] + optionTokens;
      OutputStreams := OutputStreams + [stream.Stream];
    }

    /** `AddVideoStreams(streams, options)` (and the audio and subtitle
        ones): one `AddStream` per stream, in order, so the streams are
        appended to the output streams in that order. */
    method AddStreams(streams: seq<Ffprobe.SourcedStream>, options: StreamOptions?)
      requires Valid()
      modifies this
      ensures Valid()
      ensures InputFiles == RegisterAll(old(InputFiles), streams)
      ensures Arguments == old(Arguments) + Blocks(old(InputFiles), streams, old(Rendered(options, |OutputStreams|, |streams|)))
      ensures OutputStreams == old(OutputStreams) + Ffprobe.StreamsOf(streams)
      ensures GlobalOptions == old(GlobalOptions)
    {
      ghost var files := InputFiles;
      ghost var outs := OutputStreams;
      ghost var args := Arguments;
      ghost var first := |OutputStreams|;
      ghost var rendered := Rendered(options, first, |streams|);
      for i := 0 to |streams|
        invariant InputFiles == RegisterAll(files, streams[..i])
        invariant Arguments == args + Blocks(files, streams[..i], rendered[..i])
        invariant |OutputStreams| == first + i
        invariant OutputStreams == outs + Ffprobe.StreamsOf(streams[..i])
        invariant GlobalOptions == old(GlobalOptions)
        invariant Valid()
        invariant forall k {:trigger Transcode.OutputSpecifier(k)} :: first <= k < first + |streams| ==> OptionTokens(options, Transcode.OutputSpecifier(k)) == rendered[k - first]
      {
        BlocksStep(files, streams, rendered, i);
        Ffprobe.StreamsOfStep(streams, i);
        ghost var before := Arguments;
        assert OptionTokens(options, Transcode.OutputSpecifier(|OutputStreams|)) == rendered[i];
        AddStream(streams[i], options);
        SeqAppendAssoc(outs, Ffprobe.StreamsOf(streams[..i]), [streams[i].Stream]);
        AppendBlock(args, files, streams, rendered, i, before, Arguments);
      }
      assert streams[..|streams|] == streams && rendered[..|streams|] == rendered;
    }

    /** `AddVideoStreams(inputFile, options)` (and the audio and subtitle
        ones): every stream of the kind, in order, from `inputFile`. */
    method AddFileStreams(inputFile: Ffprobe.MediaAnalysis, kind: Ffprobe.StreamKind, options: StreamOptions?)
      requires Valid()
      modifies this
      ensures Valid()
      ensures var streams := match kind
        case Video => inputFile.VideoStreams
        case Audio => inputFile.AudioStreams
        case Subtitle => inputFile.SubtitleStreams;
        && InputFiles == RegisterAll(old(InputFiles), Ffprobe.FromFile(inputFile, streams))
        && Arguments == old(Arguments) + Blocks(old(InputFiles), Ffprobe.FromFile(inputFile, streams), old(Rendered(options, |OutputStreams|, |streams|)))
        && OutputStreams == old(OutputStreams) + streams
      ensures GlobalOptions == old(GlobalOptions)
    {
      var streams := match kind
        case Video => inputFile.VideoStreams
        case Audio => inputFile.AudioStreams
        case Subtitle => inputFile.SubtitleStreams;
      AddStreams(Ffprobe.FromFile(inputFile, streams), options);
      Ffprobe.StreamsOfFromFile(inputFile, streams);
    }
  }

  /** Adding stream `i` extends the blocks of the streams before it. */
  lemma {:induction false} BlocksStep(files: seq<Ffprobe.MediaAnalysis>, streams: seq<Ffprobe.SourcedStream>, rendered: seq<seq<string>>, i: nat)
    requires |rendered| == |streams| && i < |streams|
    ensures RegisterAll(files, streams[..i + 1]) == Register(RegisterAll(files, streams[..i]), streams[i].Source)
    ensures Blocks(files, streams[..i + 1], rendered[..i + 1])
      == Blocks(files, streams[..i], rendered[..i]) + StreamTokens(RegisterAll(files, streams[..i]), streams[i], rendered[i])
  {
    assert streams[..i + 1][..i] == streams[..i];
    assert rendered[..i + 1][..i] == rendered[..i];
  }

  /** Appending the tokens of stream `i` to the arguments built from the
      streams before it gives the arguments built from one stream more. */
  lemma {:induction false} AppendBlock(args: seq<string>, files: seq<Ffprobe.MediaAnalysis>, streams: seq<Ffprobe.SourcedStream>,
                    rendered: seq<seq<string>>, i: nat, before: seq<string>, after: seq<string>)
    requires |rendered| == |streams| && i < |streams|
    requires before == args + Blocks(files, streams[..i], rendered[..i])
    requires after == before + StreamTokens(RegisterAll(files, streams[..i]), streams[i], rendered[i])
    ensures after == args + Blocks(files, streams[..i + 1], rendered[..i + 1])
  {
    BlocksStep(files, streams, rendered, i);
    SeqAppendAssoc(args, Blocks(files, streams[..i], rendered[..i]), StreamTokens(RegisterAll(files, streams[..i]), streams[i], rendered[i]));
  }

  /** Adding streams keeps every input registered once. */
  lemma {:induction false} AddStreamsKeepsValid(files: seq<Ffprobe.MediaAnalysis>, streams: seq<Ffprobe.SourcedStream>)
    requires Distinct(files)
    ensures Distinct(RegisterAll(files, streams))
  {
    RegisterAllSpec(files, streams);
  }

  /** The arguments list the global options, then `-i "path"` for each input
      in registry order, then the arguments, then the quoted output path. */
  lemma {:induction false} GetArgumentsLayout(t: TranscodeArguments)
    ensures var args, g, n, a := t.GetArguments(), |t.GlobalOptions|, |t.InputFiles|, |t.Arguments|;
      && |args| == g + n + a + 1
      && args[..g] == t.GlobalOptions
      && (forall i :: 0 <= i < n ==> args[g + i] == "-i " + Quoted(t.InputFiles[i].FilePath))
      && args[g + n..g + n + a] == t.Arguments
      && args[|args| - 1] == Quoted(t.OutputFile)
  {
    var args, g, n, a := t.GetArguments(), |t.GlobalOptions|, |t.InputFiles|, |t.Arguments|;
    var ins := InputTokens(t.InputFiles);
    assert args[..g] == t.GlobalOptions;
    assert args[g + n..g + n + a] == t.Arguments;
    forall i | 0 <= i < n
      ensures args[g + i] == "-i " + Quoted(t.InputFiles[i].FilePath)
    {
      assert args[g + i] == ins[i];
    }
  }

  /** Mapping the streams of one file: every map token reads from that
      file's input index, and output stream ordinals run on from `first`. */
  lemma {:induction false} FileBlocksMapOneInput(files: seq<Ffprobe.MediaAnalysis>, file: Ffprobe.MediaAnalysis,
                              streams: seq<Ffprobe.MediaStream>, rendered: seq<seq<string>>, k: nat)
    requires Distinct(files) && |rendered| == |streams| && k < |streams|
    ensures var all := Ffprobe.FromFile(file, streams);
      Blocks(files, all[..k + 1], rendered[..k + 1])
      == Blocks(files, all[..k], rendered[..k]) + ([Transcode.MapToken(FileIndex(files, file), streams[k].index)] + rendered[k])
  {
    var all := Ffprobe.FromFile(file, streams);
    BlocksStep(files, all, rendered, k);
    OneSourceOneIndex(files, file, streams, k);
  }

  /* ---------------------------------------------------------------------- */
  /* The result check of the root FFMpegArgs                                 */
  /* ---------------------------------------------------------------------- */

  /** The root `FFMpegArgs.ParseResult`: success unless an exception was
      caught, the exit code is non-zero, or a line reports that the output
      could not be opened. */
  function ParseResult(result: Runner.CliResult): (ok: bool)
    ensures ok <==> (result.Exception.None? && result.ExitCode == 0
      && forall i :: 0 <= i < |result.ErrorData| ==> !Runner.IsOpenFailure(result.ErrorData[i]))
  {
    if result.Exception.Some? then false
    else if result.ExitCode != 0 then false
    else !Runner.AnyOpenFailure(result.ErrorData)
  }

  /** The root check succeeds exactly when the newer one reports no error. */
  lemma {:induction false} ParseResultAgrees(result: Runner.CliResult)
    ensures ParseResult(result) <==> Runner.ParseResult(result).None?
  {
    Runner.ParseResultSuccess(result);
  }
}
