/** `TranscodeArguments` of the ffmpeg namespace
    (FFMpeg-Wrapper/ffmpeg/TranscodeArguments.cs): a registry of input
    files deduplicated by their trim options, the stream maps and options
    appended per added stream, the output options, and the processing time
    the progress parser is given. */
module Transcode {
  import opened Wrappers
  import opened Text
  import opened Utils
  import opened Tokens
  import opened FileOptions
  import OutputFiles
  import Inputs
  import Streams
  import Codecs
  import Ffprobe

  /* ---------------------------------------------------------------------- */
  /* The input registry                                                      */
  /* ---------------------------------------------------------------------- */

  /** A registered input: the private deep copy of the caller's options,
      with its file set. Nothing outside the registry can reach the copy,
      so it is kept as a value. */
  datatype InputEntry = InputEntry(
    File: Ffprobe.MediaAnalysis,
    SeekTime: Option<string>,
    ToTime: Option<string>,
    Duration: Option<string>)

  /** Every stored time of an entry parses. */
  predicate Registered(e: InputEntry) {
    Parses(e.SeekTime) && Parses(e.ToTime) && Parses(e.Duration)
  }

  /** What `InputFileOptions.Equals` compares: the file path and the trims. */
  function OptionsKey(e: InputEntry): (string, Option<string>, Option<string>, Option<string>) {
    (e.File.FilePath, e.SeekTime, e.ToTime, e.Duration)
  }

  /** The entry a set of options becomes once registered. */
  function EntryOf(o: InputFileOptions): InputEntry
    requires o.File != null
    reads o
  {
    InputEntry(o.File, o.SeekTime, o.ToTime, o.Duration)
  }

  /** Options of files are `Equals` exactly when their entries have the same key. */
  lemma {:induction false} EqualsMeansSameKey(a: InputFileOptions, b: InputFileOptions)
    requires a.File != null && b.File != null
    ensures a.Equals(Same(b)) <==> OptionsKey(EntryOf(a)) == OptionsKey(EntryOf(b))
  {
  }

  /** The key of the options `GetInputIndex` registers for `inputFile`: the
      caller's trims, or none when no options are given. */
  function RequestKey(inputFile: Ffprobe.MediaAnalysis, fileOptions: InputFileOptions?): (string, Option<string>, Option<string>, Option<string>)
    reads fileOptions
  {
    if fileOptions == null then (inputFile.FilePath, None, None, None)
    else (inputFile.FilePath, fileOptions.SeekTime, fileOptions.ToTime, fileOptions.Duration)
  }

  /** The trims a registered copy carries. */
  datatype Trims = Trims(SeekTime: Option<string>, ToTime: Option<string>, Duration: Option<string>)

  /** The trims `GetInputIndex` copies: the caller's, or none when no
      options are given. */
  function TrimsOf(fileOptions: InputFileOptions?): Trims
    reads fileOptions
  {
    if fileOptions == null then Trims(None, None, None)
    else Trims(fileOptions.SeekTime, fileOptions.ToTime, fileOptions.Duration)
  }

  /** Every trim that is set parses. */
  predicate TrimsParse(trims: Trims) {
    Parses(trims.SeekTime) && Parses(trims.ToTime) && Parses(trims.Duration)
  }

  /** The entry registered for `file` with `trims`. */
  function EntryWith(file: Ffprobe.MediaAnalysis, trims: Trims): InputEntry {
    InputEntry(file, trims.SeekTime, trims.ToTime, trims.Duration)
  }

  /** The entry `GetInputIndex` registers for `inputFile`. */
  function RequestEntry(inputFile: Ffprobe.MediaAnalysis, fileOptions: InputFileOptions?): (e: InputEntry)
    reads fileOptions
    ensures OptionsKey(e) == RequestKey(inputFile, fileOptions)
  {
    EntryWith(inputFile, TrimsOf(fileOptions))
  }

  /** Options that are valid, or none, register an entry whose trims parse. */
  lemma {:induction false} RequestEntryRegistered(inputFile: Ffprobe.MediaAnalysis, fileOptions: InputFileOptions?)
    requires fileOptions != null ==> fileOptions.Valid()
    ensures Registered(RequestEntry(inputFile, fileOptions))
  {
  }

  /** `List.IndexOf` under `Equals`: the first position holding the key, or -1. */
  function IndexOfKey(files: seq<InputEntry>, key: (string, Option<string>, Option<string>, Option<string>)): (r: int)
    ensures -1 <= r < |files|
    ensures r >= 0 ==> OptionsKey(files[r]) == key && forall j :: 0 <= j < r ==> OptionsKey(files[j]) != key
    ensures r < 0 ==> forall j :: 0 <= j < |files| ==> OptionsKey(files[j]) != key
  {
    if files == [] then -1
    else if OptionsKey(files[0]) == key then 0
    else
      var r := IndexOfKey(files[1..], key);
      if r < 0 then -1 else r + 1
  }

  /** A key missing from the registry is found at the end once appended. */
  lemma {:induction false} IndexOfKeyAppend(files: seq<InputEntry>, e: InputEntry)
    requires IndexOfKey(files, OptionsKey(e)) < 0
    ensures IndexOfKey(files + [e], OptionsKey(e)) == |files|
  {
    if files != [] {
      assert (files + [e])[1..] == files[1..] + [e];
      IndexOfKeyAppend(files[1..], e);
    }
  }

  /** Each entry was appended only when no earlier entry was `Equals` to it. */
  predicate UniqueKeys(files: seq<InputEntry>) {
    files == [] ||
    (UniqueKeys(files[..|files| - 1]) && IndexOfKey(files[..|files| - 1], OptionsKey(files[|files| - 1])) < 0)
  }

  /** Registries built that way hold no two entries that are `Equals`. */
  lemma {:induction false} UniqueKeysPairwise(files: seq<InputEntry>)
    requires UniqueKeys(files)
    ensures forall i, j :: 0 <= i < j < |files| ==> OptionsKey(files[i]) != OptionsKey(files[j])
  {
    if files != [] {
      var front := files[..|files| - 1];
      UniqueKeysPairwise(front);
      forall i, j | 0 <= i < j < |files|
        ensures OptionsKey(files[i]) != OptionsKey(files[j])
      {
        if j < |files| - 1 {
          assert files[i] == front[i] && files[j] == front[j];
        } else {
          assert files[i] == front[i];
        }
      }
    }
  }

  /** Every entry has parsable trims and no two entries are `Equals`. */
  predicate RegistryValid(files: seq<InputEntry>) {
    && (forall i :: 0 <= i < |files| ==> Registered(files[i]))
    && UniqueKeys(files)
  }

  /** The registry once `GetInputIndex` has been asked for `e`: unchanged
      if an equal entry is there, else `e` appended. */
  function Register(files: seq<InputEntry>, e: InputEntry): seq<InputEntry> {
    if IndexOfKey(files, OptionsKey(e)) >= 0 then files else files + [e]
  }

  /** The index `GetInputIndex` returns for `key`: where it is, or the end. */
  function SourceIndex(files: seq<InputEntry>, key: (string, Option<string>, Option<string>, Option<string>)): int {
    var found := IndexOfKey(files, key);
    if found >= 0 then found else |files|
  }

  /** Registering keeps what was there, adds at most one entry, keeps the
      registry valid, and afterwards the entry's key is found at the index
      it was given. */
  lemma {:induction false} RegisterSpec(files: seq<InputEntry>, e: InputEntry)
    ensures var r := Register(files, e);
      && |files| <= |r| <= |files| + 1
      && r[..|files|] == files
      && 0 <= SourceIndex(files, OptionsKey(e)) < |r|
      && IndexOfKey(r, OptionsKey(e)) == SourceIndex(files, OptionsKey(e))
      && OptionsKey(r[SourceIndex(files, OptionsKey(e))]) == OptionsKey(e)
      && (RegistryValid(files) && Registered(e) ==> RegistryValid(r))
  {
    if IndexOfKey(files, OptionsKey(e)) < 0 {
      IndexOfKeyAppend(files, e);
      assert (files + [e])[..|files|] == files;
    }
  }

  /** Asking again for an entry already asked for changes nothing and gives
      the same index. */
  lemma {:induction false} RegisterIdempotent(files: seq<InputEntry>, e: InputEntry)
    ensures Register(Register(files, e), e) == Register(files, e)
    ensures SourceIndex(Register(files, e), OptionsKey(e)) == SourceIndex(files, OptionsKey(e))
  {
    RegisterSpec(files, e);
  }

  /** The `-map` token of stream `streamIndex` of input `sourceIndex`. */
  function MapToken(sourceIndex: int, streamIndex: int): string {
    "-map " + IntToString(sourceIndex) + ":" + IntToString(streamIndex)
  }

  /** The specifier of output stream `ordinal`. */
  function OutputSpecifier(ordinal: int): string {
    ":" + IntToString(ordinal)
  }

  /** What adding one stream appends: its map token, then the tokens of
      its options for output stream `ordinal`. */
  function StreamBlock(sourceIndex: int, stream: Ffprobe.MediaStream, view: Streams.ArgumentsView, ordinal: int): seq<string> {
    [MapToken(sourceIndex, stream.index)] + Streams.RenderStream(view, OutputSpecifier(ordinal))
  }

  /** The arguments added for `streams`, all read from input `sourceIndex`
      and given the same options (seen through `view`), numbered from
      output stream `first` on. */
  function StreamBlocks(sourceIndex: int, streams: seq<Ffprobe.MediaStream>, view: Streams.ArgumentsView, first: int): seq<string> {
    if streams == [] then []
    else
      StreamBlocks(sourceIndex, streams[..|streams| - 1], view, first)
      + StreamBlock(sourceIndex, streams[|streams| - 1], view, first + |streams| - 1)
  }

  /** Adding stream `i` extends the blocks of the streams before it. */
  lemma {:induction false} StreamBlocksStep(sourceIndex: int, streams: seq<Ffprobe.MediaStream>, view: Streams.ArgumentsView, first: int, i: int)
    requires 0 <= i < |streams|
    ensures streams[..i + 1] == streams[..i] + [streams[i]]
    ensures StreamBlocks(sourceIndex, streams[..i + 1], view, first)
      == StreamBlocks(sourceIndex, streams[..i], view, first) + StreamBlock(sourceIndex, streams[i], view, first + i)
  {
    assert streams[..i + 1][..i] == streams[..i];
  }

  /** The number of tokens adding one stream with options `view` appends. */
  function BlockLength(view: Streams.ArgumentsView): nat {
    1 + |Streams.RenderStream(view, "")|
  }

  /** Every block has the same length, whatever its ordinal. */
  lemma {:induction false} StreamBlocksLength(sourceIndex: int, streams: seq<Ffprobe.MediaStream>, view: Streams.ArgumentsView, first: int)
    ensures |StreamBlocks(sourceIndex, streams, view, first)| == |streams| * BlockLength(view)
  {
    if streams != [] {
      StreamBlocksLength(sourceIndex, streams[..|streams| - 1], view, first);
      MulSucc(|streams| - 1, BlockLength(view));
    }
  }

  lemma {:induction false} MulSucc(n: nat, b: nat)
    ensures (n + 1) * b == n * b + b
  {
  }

  /** Adding two groups of streams one after the other appends their
      blocks, the second group numbered after the first. */
  lemma {:induction false} StreamBlocksAppend(sourceIndex: int, a: seq<Ffprobe.MediaStream>, b: seq<Ffprobe.MediaStream>, view: Streams.ArgumentsView, first: int)
    ensures StreamBlocks(sourceIndex, a + b, view, first)
      == StreamBlocks(sourceIndex, a, view, first) + StreamBlocks(sourceIndex, b, view, first + |a|)
  {
    if b == [] {
      assert a + b == a;
    } else {
      var front := b[..|b| - 1];
      StreamBlocksAppend(sourceIndex, a, front, view, first);
      assert (a + b)[..|a + b| - 1] == a + front;
      SeqAppendAssoc(StreamBlocks(sourceIndex, a, view, first), StreamBlocks(sourceIndex, front, view, first + |a|),
                     StreamBlock(sourceIndex, b[|b| - 1], view, first + |a| + |b| - 1));
    }
  }

  /** Block `k` of a stream group comes after the `k` blocks before it,
      which take `k` times the length of one block: the map token of stream
      `k`, then the options' tokens for output stream `first + k`. */
  lemma {:induction false} StreamBlocksLayout(sourceIndex: int, streams: seq<Ffprobe.MediaStream>, view: Streams.ArgumentsView, first: int, k: int)
    requires 0 <= k < |streams|
    ensures StreamBlocks(sourceIndex, streams, view, first)
      == StreamBlocks(sourceIndex, streams[..k], view, first)
         + StreamBlock(sourceIndex, streams[k], view, first + k)
         + StreamBlocks(sourceIndex, streams[k + 1..], view, first + k + 1)
    ensures |StreamBlocks(sourceIndex, streams[..k], view, first)| == k * BlockLength(view)
  {
    assert streams == streams[..k] + [streams[k]] + streams[k + 1..];
    StreamBlocksAppend(sourceIndex, streams[..k] + [streams[k]], streams[k + 1..], view, first);
    StreamBlocksAppend(sourceIndex, streams[..k], [streams[k]], view, first);
    assert StreamBlocks(sourceIndex, [streams[k]], view, first + k) == StreamBlock(sourceIndex, streams[k], view, first + k);
    StreamBlocksLength(sourceIndex, streams[..k], view, first);
  }

  /** The tokens of the registered inputs: each one's trims, then its `-i`. */
  function InputTokens(files: seq<InputEntry>): seq<string> {
    if files == [] then []
    else EntryArguments(files[0]) + [PathOption("-i", files[0].File.FilePath)] + InputTokens(files[1..])
  }

  /** `InputFileOptions.GetArguments()` of a registered copy. */
  function EntryArguments(e: InputEntry): seq<string> {
    Opts(InputFlags, [e.SeekTime, e.ToTime, e.Duration])
  }

  /** A registered copy renders the trims of the options it was made from. */
  lemma {:induction false} EntryArgumentsOf(o: InputFileOptions)
    requires o.File != null
    ensures EntryArguments(EntryOf(o)) == o.GetArguments()
  {
  }

  /** What the `-i` tokens among `tokens` name, in order. */
  function InputSources(tokens: seq<string>): seq<string> {
    if tokens == [] then []
    else (if StartsWith(tokens[0], "-i ") then [tokens[0][3..]] else []) + InputSources(tokens[1..])
  }

  lemma {:induction false} InputSourcesAppend(a: seq<string>, b: seq<string>)
    ensures InputSources(a + b) == InputSources(a) + InputSources(b)
  {
    if a == [] {
      assert a + b == b;
    } else {
      var ab := a + b;
      assert ab[0] == a[0] && ab[1..] == a[1..] + b;
      var head := if StartsWith(a[0], "-i ") then [a[0][3..]] else [];
      assert InputSources(ab) == head + InputSources(a[1..] + b);
      InputSourcesAppend(a[1..], b);
      assert InputSources(a) == head + InputSources(a[1..]);
      assert head + (InputSources(a[1..]) + InputSources(b)) == (head + InputSources(a[1..])) + InputSources(b);
    }
  }

  /** Trim tokens name no source. */
  lemma {:induction false} InputSourcesOfTrims(e: InputEntry)
    ensures InputSources(EntryArguments(e)) == []
  {
    var values := [e.SeekTime, e.ToTime, e.Duration];
    Inputs.TrimTokens(InputFlags, values);
    NoSources(EntryArguments(e));
  }

  lemma {:induction false} NoSources(tokens: seq<string>)
    requires forall i :: 0 <= i < |tokens| ==> !StartsWith(tokens[i], "-i ")
    ensures InputSources(tokens) == []
  {
    if tokens != [] {
      NoSources(tokens[1..]);
    }
  }

  /** The k-th `-i` token names the file registered at index k, so the
      indices `GetInputIndex` hands out are the ones ffmpeg numbers the
      inputs by. */
  lemma {:induction false} InputSourcesInRegistryOrder(files: seq<InputEntry>)
    ensures |InputSources(InputTokens(files))| == |files|
    ensures forall k :: 0 <= k < |files| ==> InputSources(InputTokens(files))[k] == Quoted(files[k].File.FilePath)
  {
    if files != [] {
      var f := files[0];
      var last := [PathOption("-i", f.File.FilePath)];
      InputSourcesInRegistryOrder(files[1..]);
      InputSourcesAppend(EntryArguments(f) + last, InputTokens(files[1..]));
      InputSourcesAppend(EntryArguments(f), last);
      InputSourcesOfTrims(f);
      assert last[0] == "-i " + Quoted(f.File.FilePath);
      assert last[0][..3] == "-i ";
      assert InputSources(last) == [Quoted(f.File.FilePath)] by {
        assert last[1..] == [];
      }
      var r := InputSources(InputTokens(files));
      assert r == [Quoted(f.File.FilePath)] + InputSources(InputTokens(files[1..]));
      forall k | 0 < k < |files|
        ensures r[k] == Quoted(files[k].File.FilePath)
      {
        assert files[1..][k - 1] == files[k];
      }
    }
  }

  /* ---------------------------------------------------------------------- */
  /* Processing time                                                         */
  /* ---------------------------------------------------------------------- */

  /** `TimeSpan.Parse` of a stored time that parses. */
  function Parsed(t: Option<string>): int
    requires t.Some? && Parses(t)
  {
    ParseTimeSpan(t.value).value
  }

  /** A stored start time, or zero when there is none. */
  function ParsedOrZero(t: Option<string>): int
    requires Parses(t)
  {
    if t.Some? then Parsed(t) else 0
  }

  /** How long the part of one input that is read lasts: its duration, or
      its stop time less its seek, or the file's length less its seek. */
  function InputLength(o: InputEntry): int
    requires Registered(o)
  {
    if o.Duration.Some? then Parsed(o.Duration)
    else if o.ToTime.Some? then Parsed(o.ToTime) - ParsedOrZero(o.SeekTime)
    else o.File.Duration() - ParsedOrZero(o.SeekTime)
  }

  /** `LongestInput`: the longest input length, and never below zero. */
  function LongestInput(files: seq<InputEntry>): (longest: int)
    requires forall i :: 0 <= i < |files| ==> Registered(files[i])
    ensures longest >= 0
    ensures files != [] ==> longest >= InputLength(files[|files| - 1])
  {
    if files == [] then 0
    else
      var rest := LongestInput(files[..|files| - 1]);
      var d := InputLength(files[|files| - 1]);
      if d > rest then d else rest
  }

  /** The running maximum is the largest length, or zero when every length
      is negative or there are no inputs. */
  lemma {:induction false} LongestInputIsMaximum(files: seq<InputEntry>)
    requires forall i :: 0 <= i < |files| ==> Registered(files[i])
    ensures LongestInput(files) >= 0
    ensures forall i :: 0 <= i < |files| ==> LongestInput(files) >= InputLength(files[i])
    ensures LongestInput(files) == 0 || exists i :: 0 <= i < |files| && LongestInput(files) == InputLength(files[i])
  {
    LongestInputAbove(files);
    LongestInputAttained(files);
  }

  /** The running maximum is at least every input length. */
  lemma {:induction false} LongestInputAbove(files: seq<InputEntry>)
    requires forall i :: 0 <= i < |files| ==> Registered(files[i])
    ensures forall i :: 0 <= i < |files| ==> LongestInput(files) >= InputLength(files[i])
  {
    forall i | 0 <= i < |files|
      ensures LongestInput(files) >= InputLength(files[i])
    {
      LongestInputAt(files, i);
    }
  }

  /** The running maximum is at least the length of input `i`. */
  lemma {:induction false} LongestInputAt(files: seq<InputEntry>, i: int)
    requires forall j :: 0 <= j < |files| ==> Registered(files[j])
    requires 0 <= i < |files|
    ensures LongestInput(files) >= InputLength(files[i])
  {
    if i < |files| - 1 {
      var init := files[..|files| - 1];
      forall j | 0 <= j < |init|
        ensures Registered(init[j])
      {
        assert init[j] == files[j];
      }
      LongestInputAt(init, i);
      assert init[i] == files[i];
    }
  }

  /** The running maximum is zero or the length of some input. */
  lemma {:induction false} LongestInputAttained(files: seq<InputEntry>)
    requires forall i :: 0 <= i < |files| ==> Registered(files[i])
    ensures LongestInput(files) == 0 || exists i :: 0 <= i < |files| && LongestInput(files) == InputLength(files[i])
  {
    if files != [] {
      var init := files[..|files| - 1];
      var last := |files| - 1;
      forall i | 0 <= i < |init|
        ensures Registered(init[i])
      {
        assert init[i] == files[i];
      }
      LongestInputAttained(init);
      if LongestInput(files) != LongestInput(init) {
        assert LongestInput(files) == InputLength(files[last]);
      } else if LongestInput(init) != 0 {
        var i :| 0 <= i < |init| && LongestInput(init) == InputLength(init[i]);
        assert files[i] == init[i];
      }
    }
  }

  /** `DetermineProcessTime`: the output duration if set; else the output
      stop time less its seek; else the longest input less the output
      seek, but not below zero. */
  function ProcessTime(output: OutputFileOptions, files: seq<InputEntry>): (t: int)
    requires output.Valid()
    requires forall i :: 0 <= i < |files| ==> Registered(files[i])
    reads output
    ensures output.Duration.None? && output.ToTime.None? ==> t >= 0
    ensures output.Duration.None? && output.ToTime.None? && output.SeekTime.None? ==> t == LongestInput(files)
  {
    if output.Duration.Some? then Parsed(output.Duration)
    else if output.ToTime.Some? then Parsed(output.ToTime) - ParsedOrZero(output.SeekTime)
    else
      var longest := LongestInput(files);
      if output.SeekTime.Some? then
        (if Parsed(output.SeekTime) > longest then 0 else longest - Parsed(output.SeekTime))
      else longest
  }

  /** Without an output duration or stop time the result is never negative
      and never longer than the longest input; an output duration wins over
      every other setting. */
  lemma {:induction false} ProcessTimeBounds(output: OutputFileOptions, files: seq<InputEntry>)
    requires output.Valid()
    requires forall i :: 0 <= i < |files| ==> Registered(files[i])
    ensures output.Duration.Some? ==> ProcessTime(output, files) == Parsed(output.Duration)
    ensures output.Duration.None? && output.ToTime.None? ==>
      var shortened := LongestInput(files) - ParsedOrZero(output.SeekTime);
      && ProcessTime(output, files) >= 0
      && ProcessTime(output, files) >= shortened
      && (ProcessTime(output, files) == 0 || ProcessTime(output, files) == shortened)
  {
    LongestInputIsMaximum(files);
  }

  /** An output duration stored by `SetDuration(d)`, d under a day, gives d
      back, truncated to the ten-thousandths ffmpeg is told. */
  lemma {:induction false} ProcessTimeOfSetDuration(output: OutputFileOptions, files: seq<InputEntry>, d: int)
    requires output.Valid() && 0 <= d < TicksPerDay
    requires forall i :: 0 <= i < |files| ==> Registered(files[i])
    requires output.Duration == Some(GetFFMpegFormat(d))
    ensures ProcessTime(output, files) == d / 1000 * 1000
  {
    ParseFormatBelowOneDay(d);
  }

  /* ---------------------------------------------------------------------- */
  /* TranscodeArguments                                                      */
  /* ---------------------------------------------------------------------- */

  /** The part of a transcode's state that adding streams changes: the
      registered inputs, the collected arguments and the output streams. */
  datatype StreamState = StreamState(
    InputFiles: seq<InputEntry>,
    Arguments: seq<string>,
    OutputStreams: seq<Ffprobe.MediaStream>)

  /** The state after adding `stream`: its own source is registered with
      `trims`, then the stream is mapped from that input with options seen
      through `view`. */
  function AddStreamSpec(s: StreamState, stream: Ffprobe.SourcedStream, trims: Trims, view: Streams.ArgumentsView): StreamState {
    var entry := EntryWith(stream.Source, trims);
    StreamState(
      Register(s.InputFiles, entry),
      s.Arguments + StreamBlock(SourceIndex(s.InputFiles, OptionsKey(entry)), stream.Stream, view, |s.OutputStreams|),
      s.OutputStreams + [stream.Stream])
  }

  /** The state after adding `streams` one by one, in order. */
  function AddStreamsSpec(s: StreamState, streams: seq<Ffprobe.SourcedStream>, trims: Trims, view: Streams.ArgumentsView): StreamState {
    if streams == [] then s
    else AddStreamSpec(AddStreamsSpec(s, streams[..|streams| - 1], trims, view), streams[|streams| - 1], trims, view)
  }

  /** Adding the first `i + 1` streams is adding the first `i`, then stream `i`. */
  lemma {:induction false} AddStreamsSpecStep(s: StreamState, streams: seq<Ffprobe.SourcedStream>, trims: Trims, view: Streams.ArgumentsView, i: int)
    requires 0 <= i < |streams|
    ensures AddStreamsSpec(s, streams[..i + 1], trims, view)
      == AddStreamSpec(AddStreamsSpec(s, streams[..i], trims, view), streams[i], trims, view)
  {
    assert streams[..i + 1][..i] == streams[..i];
  }

  /** The registry once the sources of `streams` have been asked for in order. */
  function RegisterAll(files: seq<InputEntry>, streams: seq<Ffprobe.SourcedStream>, trims: Trims): seq<InputEntry> {
    if streams == [] then files
    else Register(RegisterAll(files, streams[..|streams| - 1], trims), EntryWith(streams[|streams| - 1].Source, trims))
  }

  /** The input index the map of stream `k` names: where its source stood,
      or was appended, once the streams before it were added. */
  function MapIndex(files: seq<InputEntry>, streams: seq<Ffprobe.SourcedStream>, trims: Trims, k: int): int
    requires 0 <= k < |streams|
  {
    SourceIndex(RegisterAll(files, streams[..k], trims), OptionsKey(EntryWith(streams[k].Source, trims)))
  }

  /** What adding `streams` appends: stream `k` mapped from `MapIndex` of
      `k`, with the options' tokens for output stream `first + k`. */
  function SourcedBlocks(files: seq<InputEntry>, streams: seq<Ffprobe.SourcedStream>, trims: Trims, view: Streams.ArgumentsView, first: int): seq<string> {
    if streams == [] then []
    else
      var k := |streams| - 1;
      SourcedBlocks(files, streams[..k], trims, view, first) + StreamBlock(MapIndex(files, streams, trims, k), streams[k].Stream, view, first + k)
  }

  /** Adding streams leaves the registry as registering their sources in
      order does. */
  lemma {:induction false} AddStreamsInputs(s: StreamState, streams: seq<Ffprobe.SourcedStream>, trims: Trims, view: Streams.ArgumentsView)
    ensures AddStreamsSpec(s, streams, trims, view).InputFiles == RegisterAll(s.InputFiles, streams, trims)
  {
    if streams != [] {
      AddStreamsInputs(s, streams[..|streams| - 1], trims, view);
    }
  }

  /** Adding streams appends them to the output streams, in order. */
  lemma {:induction false} AddStreamsOutputs(s: StreamState, streams: seq<Ffprobe.SourcedStream>, trims: Trims, view: Streams.ArgumentsView)
    ensures AddStreamsSpec(s, streams, trims, view).OutputStreams == s.OutputStreams + Ffprobe.StreamsOf(streams)
  {
    if streams != [] {
      var k := |streams| - 1;
      var front := streams[..k];
      AddStreamsOutputs(s, front, trims, view);
      assert Ffprobe.StreamsOf(streams) == Ffprobe.StreamsOf(front) + [streams[k].Stream];
      SeqAppendAssoc(s.OutputStreams, Ffprobe.StreamsOf(front), [streams[k].Stream]);
    }
  }

  /** Adding streams appends one block per stream to the arguments. */
  lemma {:induction false} AddStreamsBlocks(s: StreamState, streams: seq<Ffprobe.SourcedStream>, trims: Trims, view: Streams.ArgumentsView)
    ensures AddStreamsSpec(s, streams, trims, view).Arguments == s.Arguments + SourcedBlocks(s.InputFiles, streams, trims, view, |s.OutputStreams|)
  {
    if streams != [] {
      var k := |streams| - 1;
      var front := streams[..k];
      AddStreamsBlocks(s, front, trims, view);
      var mid := AddStreamsSpec(s, front, trims, view);
      assert |mid.OutputStreams| == |s.OutputStreams| + k by {
        AddStreamsOutputs(s, front, trims, view);
      }
      var e := EntryWith(streams[k].Source, trims);
      var block := StreamBlock(MapIndex(s.InputFiles, streams, trims, k), streams[k].Stream, view, |s.OutputStreams| + k);
      assert SourceIndex(mid.InputFiles, OptionsKey(e)) == MapIndex(s.InputFiles, streams, trims, k) by {
        AddStreamsInputs(s, front, trims, view);
      }
      assert AddStreamsSpec(s, streams, trims, view).Arguments == mid.Arguments + block;
      SeqAppendAssoc(s.Arguments, SourcedBlocks(s.InputFiles, front, trims, view, |s.OutputStreams|), block);
    }
  }

  /** Adding streams registers their sources in order, appends one block
      per stream, and appends the streams to the output streams in order. */
  lemma {:induction false} AddStreamsState(s: StreamState, streams: seq<Ffprobe.SourcedStream>, trims: Trims, view: Streams.ArgumentsView)
    ensures var r := AddStreamsSpec(s, streams, trims, view);
      && r.InputFiles == RegisterAll(s.InputFiles, streams, trims)
      && r.Arguments == s.Arguments + SourcedBlocks(s.InputFiles, streams, trims, view, |s.OutputStreams|)
      && r.OutputStreams == s.OutputStreams + Ffprobe.StreamsOf(streams)
  {
    AddStreamsInputs(s, streams, trims, view);
    AddStreamsBlocks(s, streams, trims, view);
    AddStreamsOutputs(s, streams, trims, view);
  }

  /** Registering the sources of streams keeps the earlier entries in
      place and adds at most one entry per stream. */
  lemma {:induction false} RegisterAllGrows(files: seq<InputEntry>, streams: seq<Ffprobe.SourcedStream>, trims: Trims)
    ensures var r := RegisterAll(files, streams, trims);
      |files| <= |r| <= |files| + |streams| && r[..|files|] == files
  {
    if streams != [] {
      var front := streams[..|streams| - 1];
      RegisterAllGrows(files, front, trims);
      var before := RegisterAll(files, front, trims);
      RegisterSpec(before, EntryWith(streams[|streams| - 1].Source, trims));
      var r := RegisterAll(files, streams, trims);
      assert r[..|files|] == before[..|files|];
    }
  }

  /** The entries of the streams' own sources, in order. */
  function SourceEntries(streams: seq<Ffprobe.SourcedStream>, trims: Trims): (r: seq<InputEntry>)
    ensures |r| == |streams|
  {
    if streams == [] then []
    else SourceEntries(streams[..|streams| - 1], trims) + [EntryWith(streams[|streams| - 1].Source, trims)]
  }

  /** The entries registering the sources of streams adds are entries of
      the streams' own sources. */
  lemma {:induction false} RegisterAllOnlySources(files: seq<InputEntry>, streams: seq<Ffprobe.SourcedStream>, trims: Trims)
    ensures forall j :: |files| <= j < |RegisterAll(files, streams, trims)| ==>
      RegisterAll(files, streams, trims)[j] in SourceEntries(streams, trims)
  {
    if streams != [] {
      var k := |streams| - 1;
      var front := streams[..k];
      var e := EntryWith(streams[k].Source, trims);
      RegisterAllOnlySources(files, front, trims);
      var before := RegisterAll(files, front, trims);
      RegisterSpec(before, e);
      var r := RegisterAll(files, streams, trims);
      var sources := SourceEntries(streams, trims);
      assert sources == SourceEntries(front, trims) + [e];
      forall j | |files| <= j < |r|
        ensures r[j] in sources
      {
        if j < |before| {
          assert r[j] == before[j];
          assert before[j] in SourceEntries(front, trims);
        } else {
          assert r[j] == e;
          assert sources[k] == e;
        }
      }
    }
  }

  /** Registering the sources of streams keeps a valid registry valid when
      the trims parse. */
  lemma {:induction false} RegisterAllValid(files: seq<InputEntry>, streams: seq<Ffprobe.SourcedStream>, trims: Trims)
    requires RegistryValid(files) && TrimsParse(trims)
    ensures RegistryValid(RegisterAll(files, streams, trims))
  {
    if streams != [] {
      var front := streams[..|streams| - 1];
      RegisterAllValid(files, front, trims);
      RegisterSpec(RegisterAll(files, front, trims), EntryWith(streams[|streams| - 1].Source, trims));
    }
  }

  /** Registering the sources of streams keeps the earlier entries in
      place, adds at most one entry per stream, and only entries of the
      streams' own sources; afterwards every stream's source is found, and
      a valid registry stays valid when the trims parse. */
  lemma {:induction false} RegisterAllSpec(files: seq<InputEntry>, streams: seq<Ffprobe.SourcedStream>, trims: Trims)
    ensures var r := RegisterAll(files, streams, trims);
      && |files| <= |r| <= |files| + |streams|
      && r[..|files|] == files
      && (forall i :: 0 <= i < |streams| ==> IndexOfKey(r, OptionsKey(EntryWith(streams[i].Source, trims))) >= 0)
      && (forall j :: |files| <= j < |r| ==> r[j] in SourceEntries(streams, trims))
      && (RegistryValid(files) && TrimsParse(trims) ==> RegistryValid(r))
  {
    var r := RegisterAll(files, streams, trims);
    RegisterAllGrows(files, streams, trims);
    RegisterAllOnlySources(files, streams, trims);
    if RegistryValid(files) && TrimsParse(trims) {
      RegisterAllValid(files, streams, trims);
    }
    forall i | 0 <= i < |streams|
      ensures IndexOfKey(r, OptionsKey(EntryWith(streams[i].Source, trims))) >= 0
    {
      AddStreamsMapsOwnSource(files, streams, trims, i);
    }
  }

  /** The registry after the first `j` streams is kept, in place, by the
      registry after all of them. */
  lemma {:induction false} RegisterAllPrefix(files: seq<InputEntry>, streams: seq<Ffprobe.SourcedStream>, trims: Trims, j: int)
    requires 0 <= j <= |streams|
    ensures var p, r := RegisterAll(files, streams[..j], trims), RegisterAll(files, streams, trims);
      |p| <= |r| && r[..|p|] == p
  {
    if j == |streams| {
      assert streams[..j] == streams;
    } else {
      var front := streams[..|streams| - 1];
      assert streams[..j] == front[..j];
      RegisterAllPrefix(files, front, trims, j);
      var before := RegisterAll(files, front, trims);
      RegisterSpec(before, EntryWith(streams[|streams| - 1].Source, trims));
      var p := RegisterAll(files, streams[..j], trims);
      var r := RegisterAll(files, streams, trims);
      assert r[..|p|] == before[..|p|];
    }
  }

  /** Stream `k` is mapped from the input registered for its own source
      with the caller's trims: the one whose `-i` token names the stream's
      file. */
  lemma {:induction false} AddStreamsMapsOwnSource(files: seq<InputEntry>, streams: seq<Ffprobe.SourcedStream>, trims: Trims, k: int)
    requires 0 <= k < |streams|
    ensures var r, m := RegisterAll(files, streams, trims), MapIndex(files, streams, trims, k);
      && 0 <= m < |r|
      && OptionsKey(r[m]) == OptionsKey(EntryWith(streams[k].Source, trims))
      && |InputSources(InputTokens(r))| == |r|
      && InputSources(InputTokens(r))[m] == Quoted(streams[k].Source.FilePath)
  {
    var e := EntryWith(streams[k].Source, trims);
    var before := RegisterAll(files, streams[..k], trims);
    assert streams[..k + 1][..k] == streams[..k];
    assert RegisterAll(files, streams[..k + 1], trims) == Register(before, e);
    RegisterSpec(before, e);
    RegisterAllPrefix(files, streams, trims, k + 1);
    var r := RegisterAll(files, streams, trims);
    var m := MapIndex(files, streams, trims, k);
    assert r[m] == Register(before, e)[m];
    InputSourcesInRegistryOrder(r);
  }

  /** Every block is as long as one stream's map and options. */
  lemma {:induction false} SourcedBlocksLength(files: seq<InputEntry>, streams: seq<Ffprobe.SourcedStream>, trims: Trims, view: Streams.ArgumentsView, first: int)
    ensures |SourcedBlocks(files, streams, trims, view, first)| == |streams| * BlockLength(view)
  {
    if streams != [] {
      var k := |streams| - 1;
      SourcedBlocksLength(files, streams[..k], trims, view, first);
      assert |StreamBlock(MapIndex(files, streams, trims, k), streams[k].Stream, view, first + k)| == BlockLength(view);
      MulSucc(k, BlockLength(view));
    }
  }

  /** The blocks of the first `j` streams start the blocks of all of them. */
  lemma {:induction false} SourcedBlocksPrefix(files: seq<InputEntry>, streams: seq<Ffprobe.SourcedStream>, trims: Trims, view: Streams.ArgumentsView, first: int, j: int)
    requires 0 <= j <= |streams|
    ensures var p, r := SourcedBlocks(files, streams[..j], trims, view, first), SourcedBlocks(files, streams, trims, view, first);
      |p| <= |r| && r[..|p|] == p
  {
    if j == |streams| {
      assert streams[..j] == streams;
    } else {
      var front := streams[..|streams| - 1];
      assert streams[..j] == front[..j];
      SourcedBlocksPrefix(files, front, trims, view, first, j);
      var p := SourcedBlocks(files, streams[..j], trims, view, first);
      var r := SourcedBlocks(files, streams, trims, view, first);
      var before := SourcedBlocks(files, front, trims, view, first);
      assert r[..|p|] == before[..|p|];
    }
  }

  /** The blocks of the first `k + 1` streams are those of the first `k`,
      then the block of stream `k`. */
  lemma {:induction false} SourcedBlocksStep(files: seq<InputEntry>, streams: seq<Ffprobe.SourcedStream>, trims: Trims, view: Streams.ArgumentsView, first: int, k: int)
    requires 0 <= k < |streams|
    ensures SourcedBlocks(files, streams[..k + 1], trims, view, first)
      == SourcedBlocks(files, streams[..k], trims, view, first) + StreamBlock(MapIndex(files, streams, trims, k), streams[k].Stream, view, first + k)
  {
    var upto := streams[..k + 1];
    assert upto[..k] == streams[..k] && upto[k] == streams[k];
    assert MapIndex(files, upto, trims, k) == MapIndex(files, streams, trims, k);
  }

  /** Block `k` of what adding streams appends comes after the `k` blocks
      before it, which take `k` times the length of one block: the map of
      stream `k` from `MapIndex` of `k`, then the options' tokens for output
      stream `first + k`. */
  lemma {:induction false} SourcedBlocksLayout(files: seq<InputEntry>, streams: seq<Ffprobe.SourcedStream>, trims: Trims, view: Streams.ArgumentsView, first: int, k: int)
    requires 0 <= k < |streams|
    ensures var blocks, before := SourcedBlocks(files, streams, trims, view, first), SourcedBlocks(files, streams[..k], trims, view, first);
      && |before| == k * BlockLength(view)
      && |before| + BlockLength(view) <= |blocks|
      && blocks[|before|..|before| + BlockLength(view)] == StreamBlock(MapIndex(files, streams, trims, k), streams[k].Stream, view, first + k)
  {
    var before := SourcedBlocks(files, streams[..k], trims, view, first);
    var block := StreamBlock(MapIndex(files, streams, trims, k), streams[k].Stream, view, first + k);
    assert |block| == BlockLength(view);
    var p := SourcedBlocks(files, streams[..k + 1], trims, view, first);
    SourcedBlocksStep(files, streams, trims, view, first, k);
    SourcedBlocksLength(files, streams[..k], trims, view, first);
    SourcedBlocksPrefix(files, streams, trims, view, first, k + 1);
    SliceAfterPrefix(SourcedBlocks(files, streams, trims, view, first), before, block);
  }

  /** Adding streams keeps a valid registry valid when the trims parse. */
  lemma {:induction false} AddStreamsKeepsRegistryValid(s: StreamState, streams: seq<Ffprobe.SourcedStream>, trims: Trims, view: Streams.ArgumentsView)
    requires RegistryValid(s.InputFiles) && TrimsParse(trims)
    ensures RegistryValid(AddStreamsSpec(s, streams, trims, view).InputFiles)
  {
    AddStreamsInputs(s, streams, trims, view);
    RegisterAllValid(s.InputFiles, streams, trims);
  }

  /* The single-file overloads (`AddVideoStreams(inputFile, ...)` and its
     audio and subtitle twins) add the streams of one analysis. */

  /** The first `k` streams of one file, each with the file as its source. */
  lemma {:induction false} FromFilePrefix(file: Ffprobe.MediaAnalysis, streams: seq<Ffprobe.MediaStream>, k: int)
    requires 0 <= k <= |streams|
    ensures Ffprobe.FromFile(file, streams)[..k] == Ffprobe.FromFile(file, streams[..k])
  {
    var a, b := Ffprobe.FromFile(file, streams)[..k], Ffprobe.FromFile(file, streams[..k]);
    assert |a| == |b|;
    forall i | 0 <= i < k
      ensures a[i] == b[i]
    {
      assert streams[..k][i] == streams[i];
    }
  }

  /** The sources of one file's streams register that file once. */
  lemma {:induction false} OneFileRegistersOnce(files: seq<InputEntry>, file: Ffprobe.MediaAnalysis, streams: seq<Ffprobe.MediaStream>, trims: Trims)
    ensures RegisterAll(files, Ffprobe.FromFile(file, streams), trims)
      == if streams == [] then files else Register(files, EntryWith(file, trims))
  {
    if streams != [] {
      var k := |streams| - 1;
      var ss := Ffprobe.FromFile(file, streams);
      FromFilePrefix(file, streams, k);
      OneFileRegistersOnce(files, file, streams[..k], trims);
      RegisterIdempotent(files, EntryWith(file, trims));
      assert RegisterAll(files, ss, trims) == Register(RegisterAll(files, ss[..k], trims), EntryWith(file, trims));
    }
  }

  /** Every stream of one file is mapped from the index the file had, or
      got, when the first of them was added. */
  lemma {:induction false} OneFileMapIndex(files: seq<InputEntry>, file: Ffprobe.MediaAnalysis, streams: seq<Ffprobe.MediaStream>, trims: Trims, k: int)
    requires 0 <= k < |streams|
    ensures MapIndex(files, Ffprobe.FromFile(file, streams), trims, k) == SourceIndex(files, OptionsKey(EntryWith(file, trims)))
  {
    FromFilePrefix(file, streams, k);
    OneFileRegistersOnce(files, file, streams[..k], trims);
    RegisterIdempotent(files, EntryWith(file, trims));
  }

  /** The blocks of one file's streams all map from that one index. */
  lemma {:induction false} OneFileBlocks(files: seq<InputEntry>, file: Ffprobe.MediaAnalysis, streams: seq<Ffprobe.MediaStream>, trims: Trims, view: Streams.ArgumentsView, first: int)
    ensures SourcedBlocks(files, Ffprobe.FromFile(file, streams), trims, view, first)
      == StreamBlocks(SourceIndex(files, OptionsKey(EntryWith(file, trims))), streams, view, first)
  {
    if streams != [] {
      var k := |streams| - 1;
      var ss := Ffprobe.FromFile(file, streams);
      var index := SourceIndex(files, OptionsKey(EntryWith(file, trims)));
      FromFilePrefix(file, streams, k);
      OneFileBlocks(files, file, streams[..k], trims, view, first);
      OneFileMapIndex(files, file, streams, trims, k);
      assert ss[k].Stream == streams[k];
      assert SourcedBlocks(files, ss, trims, view, first)
        == SourcedBlocks(files, ss[..k], trims, view, first) + StreamBlock(index, streams[k], view, first + k);
    }
  }

  /** Adding the streams of one file registers the file at most once and
      appends the streams to the output streams in order. */
  lemma {:induction false} AddStreamsRegistersOnce(s: StreamState, file: Ffprobe.MediaAnalysis, streams: seq<Ffprobe.MediaStream>, trims: Trims, view: Streams.ArgumentsView)
    ensures var r := AddStreamsSpec(s, Ffprobe.FromFile(file, streams), trims, view);
      && r.InputFiles == (if streams == [] then s.InputFiles else Register(s.InputFiles, EntryWith(file, trims)))
      && r.OutputStreams == s.OutputStreams + streams
  {
    AddStreamsInputs(s, Ffprobe.FromFile(file, streams), trims, view);
    AddStreamsOutputs(s, Ffprobe.FromFile(file, streams), trims, view);
    OneFileRegistersOnce(s.InputFiles, file, streams, trims);
    Ffprobe.StreamsOfFromFile(file, streams);
  }

  /** After the streams of one file were added, the file sits at the index
      it was given first, and the next stream is numbered after them. */
  lemma {:induction false} AddStreamsSourceIndex(s: StreamState, file: Ffprobe.MediaAnalysis, streams: seq<Ffprobe.MediaStream>, trims: Trims, view: Streams.ArgumentsView)
    ensures var r := AddStreamsSpec(s, Ffprobe.FromFile(file, streams), trims, view);
      && SourceIndex(r.InputFiles, OptionsKey(EntryWith(file, trims))) == SourceIndex(s.InputFiles, OptionsKey(EntryWith(file, trims)))
      && |r.OutputStreams| == |s.OutputStreams| + |streams|
  {
    AddStreamsRegistersOnce(s, file, streams, trims, view);
    RegisterIdempotent(s.InputFiles, EntryWith(file, trims));
  }

  /** Every stream of one file is mapped from the same input, the index the
      file had (or got) on the first one, and numbered after the streams
      before it. */
  lemma {:induction false} AddStreamsArguments(s: StreamState, file: Ffprobe.MediaAnalysis, streams: seq<Ffprobe.MediaStream>, trims: Trims, view: Streams.ArgumentsView)
    ensures AddStreamsSpec(s, Ffprobe.FromFile(file, streams), trims, view).Arguments
      == s.Arguments + StreamBlocks(SourceIndex(s.InputFiles, OptionsKey(EntryWith(file, trims))), streams, view, |s.OutputStreams|)
  {
    AddStreamsBlocks(s, Ffprobe.FromFile(file, streams), trims, view);
    OneFileBlocks(s.InputFiles, file, streams, trims, view, |s.OutputStreams|);
  }

  /** `TranscodeArguments`. */
  class TranscodeArguments {
    var InputFiles: seq<InputEntry>
    var GlobalOptions: seq<string>
    var Arguments: seq<string>
    const OutputFile: OutputFileOptions
    var OutputStreams: seq<Ffprobe.MediaStream>

    /** Every registered input has parsable trims and no two registered
        inputs are `Equals`. */
    predicate Valid()
      reads `InputFiles
    {
      RegistryValid(InputFiles)
    }

    /** `new TranscodeArguments(core, outputFile)`: faststart for the four
        MP4-family extensions, nothing else yet. */
    constructor (outputFile: OutputFileOptions)
      ensures Valid()
      ensures OutputFile == outputFile
      ensures InputFiles == [] && GlobalOptions == [] && OutputStreams == []
      ensures Arguments == if OutputFiles.FastStart(outputFile.FilePath) then ["-movflags +faststart"] else []
    {
      OutputFile := outputFile;
      InputFiles := [];
      GlobalOptions := [];
      OutputStreams := [];
      if OutputFiles.FastStart(outputFile.FilePath) {
        Arguments := ["-movflags +faststart"];
      } else {
        Arguments := [];
      }
    }

    /** `InputFiles.IndexOf(item)`: the first registered input that `Equals` it. */
    method IndexOf(item: InputFileOptions) returns (index: int)
      requires item.File != null
      ensures index == IndexOfKey(InputFiles, OptionsKey(EntryOf(item)))
    {
      var files := InputFiles;
      var key := OptionsKey(EntryOf(item));
      var i := 0;
      while i < |files|
        invariant 0 <= i <= |files|
        invariant forall j :: 0 <= j < i ==> OptionsKey(files[j]) != key
      {
        if OptionsKey(files[i]) == key {
          return i;
        }
        i := i + 1;
      }
      return -1;
    }

    /** `GetInputIndex`: registers a copy of the options (or fresh ones) for
        the file, unless an equal entry is already there, and returns its
        index. The caller's options object is left as it was. */
    method GetInputIndex(inputFile: Ffprobe.MediaAnalysis, fileOptions: InputFileOptions?) returns (index: int)
      requires Valid() && (fileOptions != null ==> fileOptions.Valid())
      modifies this
      ensures Valid()
      ensures GlobalOptions == old(GlobalOptions) && Arguments == old(Arguments) && OutputStreams == old(OutputStreams)
      ensures InputFiles == Register(old(InputFiles), RequestEntry(inputFile, fileOptions))
      ensures index == SourceIndex(old(InputFiles), RequestKey(inputFile, fileOptions))
      ensures fileOptions != null ==> unchanged(fileOptions)
    {
      var copy: InputFileOptions;
      if fileOptions == null {
        copy := new InputFileOptions();
      } else {
        copy := fileOptions.DeepCopy();
      }
      copy.File := inputFile;
      assert EntryOf(copy) == RequestEntry(inputFile, fileOptions);
      RequestEntryRegistered(inputFile, fileOptions);
      RegisterSpec(InputFiles, EntryOf(copy));
      var found := IndexOf(copy);
      if found < 0 {
        index := |InputFiles|;
        InputFiles := InputFiles + [EntryOf(copy)];
      } else {
        index := found;
      }
    }

    /** The part of the state that adding streams changes. */
    function State(): StreamState
      reads this
    {
      StreamState(InputFiles, Arguments, OutputStreams)
    }

    /** `AddVideoStream` / `AddAudioStream` / `AddSubtitleStream`: registers
        the stream's own source file, then maps the stream and appends the
        options' tokens for the next output stream. */
    method AddStream(stream: Ffprobe.SourcedStream, streamOptions: Streams.StreamOptions, fileOptions: InputFileOptions?)
      requires Valid() && (fileOptions != null ==> fileOptions.Valid())
      modifies this
      ensures Valid()
      ensures State() == AddStreamSpec(old(State()), stream, TrimsOf(fileOptions), streamOptions.View())
      ensures GlobalOptions == old(GlobalOptions)
      ensures TrimsOf(fileOptions) == old(TrimsOf(fileOptions))
      ensures streamOptions.View() == old(streamOptions.View())
    {
      ghost var trims := TrimsOf(fileOptions);
      var sourceIndex := GetInputIndex(stream.Source, fileOptions);
      AppendStream(sourceIndex, stream.Stream, streamOptions);
      assert TrimsOf(fileOptions) == trims;
    }

    /** The part of `AddStream` after the input is registered: the map from
        input `sourceIndex`, then the options' tokens for the next output
        stream. */
    method AppendStream(sourceIndex: int, stream: Ffprobe.MediaStream, streamOptions: Streams.StreamOptions)
      modifies this
      ensures InputFiles == old(InputFiles) && GlobalOptions == old(GlobalOptions)
      ensures Arguments == old(Arguments) + StreamBlock(sourceIndex, stream, streamOptions.View(), old(|OutputStreams|))
      ensures OutputStreams == old(OutputStreams) + [stream]
      ensures streamOptions.View() == old(streamOptions.View())
    {
      var outputStreamSpecifier := OutputSpecifier(|OutputStreams|);
      ghost var block := StreamBlock(sourceIndex, stream, streamOptions.View(), |OutputStreams|);
      SeqAppendAssoc(Arguments, [MapToken(sourceIndex, stream.index)], streamOptions.GetArguments(outputStreamSpecifier));
      Arguments := Arguments + [MapToken(sourceIndex, stream.index)] + streamOptions.GetArguments(outputStreamSpecifier);
      OutputStreams := OutputStreams + [stream];
      assert StreamBlock(sourceIndex, stream, streamOptions.View(), old(|OutputStreams|)) == block;
    }

    /** `AddVideoStreams(streams, ...)` and its audio and subtitle twins:
        one `AddStream` per stream, in order, each from its own source. */
    method AddStreams(streams: seq<Ffprobe.SourcedStream>, streamOptions: Streams.StreamOptions, fileOptions: InputFileOptions?)
      requires Valid() && (fileOptions != null ==> fileOptions.Valid())
      modifies this
      ensures Valid()
      ensures State() == AddStreamsSpec(old(State()), streams, TrimsOf(fileOptions), streamOptions.View())
      ensures GlobalOptions == old(GlobalOptions)
      ensures TrimsOf(fileOptions) == old(TrimsOf(fileOptions))
      ensures streamOptions.View() == old(streamOptions.View())
    {
      ghost var trims := TrimsOf(fileOptions);
      ghost var view := streamOptions.View();
      ghost var start := State();
      for i := 0 to |streams|
        invariant GlobalOptions == old(GlobalOptions)
        invariant Valid() && (fileOptions != null ==> fileOptions.Valid())
        invariant TrimsOf(fileOptions) == trims && streamOptions.View() == view
        invariant State() == AddStreamsSpec(start, streams[..i], trims, view)
      {
        AddStreamsSpecStep(start, streams, trims, view, i);
        AddStream(streams[i], streamOptions, fileOptions);
      }
      assert streams[..|streams|] == streams;
    }

    /** `AddVideoStreams(inputFile, ...)` and its audio and subtitle twins:
        the streams of one kind of one analysis. The file is registered at
        most once, and every stream is mapped from its index. */
    method AddFileStreams(inputFile: Ffprobe.MediaAnalysis, kind: Ffprobe.StreamKind,
                          streamOptions: Streams.StreamOptions, fileOptions: InputFileOptions?)
      requires Valid() && (fileOptions != null ==> fileOptions.Valid())
      modifies this
      ensures Valid()
      ensures GlobalOptions == old(GlobalOptions)
      ensures var streams := match kind
          case Video => inputFile.VideoStreams
          case Audio => inputFile.AudioStreams
          case Subtitle => inputFile.SubtitleStreams;
        var entry := old(RequestEntry(inputFile, fileOptions));
        && InputFiles == (if streams == [] then old(InputFiles) else Register(old(InputFiles), entry))
        && OutputStreams == old(OutputStreams) + streams
        && Arguments == old(Arguments) + StreamBlocks(old(SourceIndex(InputFiles, OptionsKey(entry))), streams, old(streamOptions.View()), old(|OutputStreams|))
    {
      var streams := match kind
        case Video => inputFile.VideoStreams
        case Audio => inputFile.AudioStreams
        case Subtitle => inputFile.SubtitleStreams;
      ghost var start := State();
      ghost var trims := TrimsOf(fileOptions);
      ghost var view := streamOptions.View();
      AddStreams(Ffprobe.FromFile(inputFile, streams), streamOptions, fileOptions);
      AddStreamsRegistersOnce(start, inputFile, streams, trims, view);
      AddStreamsArguments(start, inputFile, streams, trims, view);
    }

    /** `DetermineProcessTime()`: the output's own duration or end, else the
        longest input shortened by the output's seek. */
    method DetermineProcessTime() returns (t: int)
      requires Valid() && OutputFile.Valid()
      ensures t == ProcessTime(OutputFile, InputFiles)
    {
      if OutputFile.Duration.Some? {
        return Parsed(OutputFile.Duration);
      } else if OutputFile.ToTime.Some? {
        var startTime := 0;
        if OutputFile.SeekTime.Some? {
          startTime := Parsed(OutputFile.SeekTime);
        }
        return Parsed(OutputFile.ToTime) - startTime;
      }
      var longestInput := 0;
      var files := InputFiles;
      for i := 0 to |files|
        invariant longestInput == LongestInput(files[..i])
      {
        var input := files[i];
        var duration;
        if input.Duration.Some? {
          duration := Parsed(input.Duration);
        } else {
          var startTime := 0;
          if input.SeekTime.Some? {
            startTime := Parsed(input.SeekTime);
          }
          if input.ToTime.Some? {
            duration := Parsed(input.ToTime) - startTime;
          } else {
            duration := input.File.Duration() - startTime;
          }
        }
        if duration > longestInput {
          longestInput := duration;
        }
        assert files[..i + 1][..i] == files[..i];
      }
      assert files[..|files|] == files;
      if OutputFile.SeekTime.Some? {
        var seekTime := Parsed(OutputFile.SeekTime);
        if seekTime > longestInput {
          return 0;
        } else {
          return longestInput - seekTime;
        }
      } else {
        return longestInput;
      }
    }

    /** `GetArguments()`: global options, each input's trims and `-i`,
        the collected arguments, the output options, the quoted output path. */
    function GetArguments(): (args: seq<string>)
      reads this, OutputFile
      ensures |args| == |GlobalOptions| + |InputTokens(InputFiles)| + |Arguments| + |OutputFile.GetArguments()| + 1
      ensures args[..|GlobalOptions|] == GlobalOptions
      ensures args[|args| - 1] == Quoted(OutputFile.FilePath)
    {
      GlobalOptions + InputTokens(InputFiles) + Arguments + OutputFile.GetArguments() + [Quoted(OutputFile.FilePath)]
    }
  }

  /** The quoted output path comes last, after output options that all start
      with `-`, and the inputs come right after the global options, named
      in registry order. */
  lemma {:induction false} TranscodeArgumentsLayout(t: TranscodeArguments)
    ensures var args := t.GetArguments();
      var inputs := InputTokens(t.InputFiles);
      var out := t.OutputFile.GetArguments();
      && args[|args| - 1] == Quoted(t.OutputFile.FilePath)
      && args[|args| - 1 - |out|..|args| - 1] == out
      && (forall i :: 0 <= i < |out| ==> |out[i]| > 0 && out[i][0] == '-')
      && args[|t.GlobalOptions|..|t.GlobalOptions| + |inputs|] == inputs
      && |InputSources(inputs)| == |t.InputFiles|
      && forall k :: 0 <= k < |t.InputFiles| ==> InputSources(inputs)[k] == Quoted(t.InputFiles[k].File.FilePath)
  {
    OutputOptionsReadBack(t.OutputFile);
    InputSourcesInRegistryOrder(t.InputFiles);
  }
}
