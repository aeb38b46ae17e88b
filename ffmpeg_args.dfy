/** `FFMpeg_Wrapper.ffmpeg.FFMpegArgs` (FFMpeg-Wrapper/ffmpeg/FFMpegArgs.cs):
    the base of every ffmpeg job. It prefixes the job's arguments with the
    fixed global switches, runs ffmpeg with a progress parser listening to
    its diagnostic output, forces the parser to report completion, and
    classifies the outcome into an error message or success (`None`).
    The job's own `GetArguments` and `DetermineProcessTime` are parameters
    here, and the process itself is its `CliResult` and diagnostic lines. */
module Runner {
  import opened Wrappers
  import opened Text
  import ErrorCodes
  import Progress

  /** What `CLI.Run` hands back: the exception (by message) it caught, the
      exit code, and the diagnostic lines it collected. */
  datatype CliResult = CliResult(Exception: Option<string>, ExitCode: int, ErrorData: seq<string>)

  /** The command `CreateCLI` configures: the log path, if any, and the
      arguments in order. */
  datatype Command = Command(LogPath: Option<string>, Arguments: seq<string>)

  /** The switch for what to do with an existing output file. */
  function OverwriteSwitch(overwrite: bool): string {
    if overwrite then "-y" else "-n"
  }

  /** The arguments of a command: `-nostdin`, the overwrite switch and
      `-abort_on empty_output`, then the job's arguments. */
  lemma {:induction false} CommandLayout(cli: Command, overwrite: bool, arguments: seq<string>)
    requires cli.Arguments == ["-nostdin", OverwriteSwitch(overwrite), "-abort_on empty_output"] + arguments
    ensures |cli.Arguments| == 3 + |arguments| && cli.Arguments[3..] == arguments
    ensures cli.Arguments[0] == "-nostdin" && cli.Arguments[2] == "-abort_on empty_output"
    ensures cli.Arguments[1] == "-y" <==> overwrite
    ensures cli.Arguments[1] == "-n" <==> !overwrite
  {
    assert cli.Arguments[3..] == arguments;
  }

  /* ---------------------------------------------------------------------- */
  /* Classifying the result                                                  */
  /* ---------------------------------------------------------------------- */

  /** The diagnostic line ffmpeg prints when it cannot open the output. */
  predicate IsOpenFailure(line: string) {
    StartsWith(line, "Error opening output file")
  }

  /** The `foreach` over the diagnostic lines: whether one of them reports
      an output that could not be opened. */
  function AnyOpenFailure(lines: seq<string>): (b: bool)
    ensures b <==> exists i :: 0 <= i < |lines| && IsOpenFailure(lines[i])
  {
    if lines == [] then false
    else if IsOpenFailure(lines[0]) then true
    else
      var b := AnyOpenFailure(lines[1..]);
      assert forall i :: 1 <= i < |lines| ==> lines[i] == lines[1..][i - 1];
      b
  }

  /** `ErrorCodes.Errors.TryGetValue`, falling back to "Unknown Error Code". */
  function ErrorDescription(code: int): (s: string)
    ensures code in ErrorCodes.Errors ==> s == ErrorCodes.Errors[code]
    ensures code !in ErrorCodes.Errors ==> s == "Unknown Error Code"
  {
    if code in ErrorCodes.Errors then ErrorCodes.Errors[code] else "Unknown Error Code"
  }

  /** `ParseResult`: an exception first, then a non-zero exit code, then a
      line reporting that the output could not be opened; `None` is success. */
  function ParseResult(result: CliResult): (r: Option<string>)
    ensures result.Exception.Some? ==> r == Some("Exception encountered: " + result.Exception.value)
    ensures result.Exception.None? && result.ExitCode != 0 ==> r == Some(ErrorDescription(result.ExitCode))
    ensures result.Exception.None? && result.ExitCode == 0 ==>
      (r.Some? <==> exists i :: 0 <= i < |result.ErrorData| && IsOpenFailure(result.ErrorData[i]))
      && (r.Some? ==> r.value == "Failed to open output file.")
  {
    if result.Exception.Some? then Some("Exception encountered: " + result.Exception.value)
    else if result.ExitCode != 0 then Some(ErrorDescription(result.ExitCode))
    else if AnyOpenFailure(result.ErrorData) then Some("Failed to open output file.")
    else None
  }

  /** A job succeeds exactly when nothing was thrown, ffmpeg exited with 0
      and no diagnostic line reports an unopened output. */
  lemma {:induction false} ParseResultSuccess(result: CliResult)
    ensures ParseResult(result).None? <==>
      result.Exception.None? && result.ExitCode == 0
      && forall i :: 0 <= i < |result.ErrorData| ==> !IsOpenFailure(result.ErrorData[i])
  {
  }

  /** Each exit code of the table is reported by its own description,
      whatever the diagnostic lines say. */
  lemma {:induction false} ParseResultKnownCode(i: nat, lines: seq<string>)
    requires i < |ErrorCodes.Table|
    ensures ParseResult(CliResult(None, ErrorCodes.Table[i].0, lines)) == Some(ErrorCodes.Table[i].1)
  {
    ErrorCodes.ErrorsLookup(i);
    ErrorCodes.TableKeysDistinct();
  }

  /** A non-zero exit code outside the table is reported as unknown. */
  lemma {:induction false} ParseResultUnknownCode(code: int, lines: seq<string>)
    requires code != 0 && forall i :: 0 <= i < |ErrorCodes.Table| ==> ErrorCodes.Table[i].0 != code
    ensures ParseResult(CliResult(None, code, lines)) == Some("Unknown Error Code")
  {
    ErrorCodes.ToMapKeys(ErrorCodes.Table);
  }

  /* ---------------------------------------------------------------------- */
  /* The job                                                                 */
  /* ---------------------------------------------------------------------- */

  /** The configuration every job shares: the log path and whether an
      existing output may be overwritten. */
  class FFMpegArgs {
    var LogPath: Option<string>
    var Overwrite: bool

    /** A new job: no log, overwriting allowed. */
    constructor ()
      ensures LogPath == None && Overwrite
    {
      LogPath := None;
      Overwrite := true;
    }

    /** `SetLogPath`: changes only the log path. */
    method SetLogPath(path: string)
      modifies this
      ensures LogPath == Some(path) && Overwrite == old(Overwrite)
    {
      LogPath := Some(path);
    }

    /** `SetOverwrite`: changes only the overwrite flag. */
    method SetOverwrite(allow: bool)
      modifies this
      ensures Overwrite == allow && LogPath == old(LogPath)
    {
      Overwrite := allow;
    }

    /** `CreateCLI` for a job whose `GetArguments` yields `arguments`: the
        log path, then the three global switches, then the job's arguments. */
    method CreateCLI(arguments: seq<string>) returns (cli: Command)
      ensures cli.LogPath == LogPath
      ensures cli.Arguments == ["-nostdin", OverwriteSwitch(Overwrite), "-abort_on empty_output"] + arguments
    {
      var args: seq<string> := [];
      args := args + ["-nostdin"];
      args := args + [if Overwrite then "-y" else "-n"];
      args := args + ["-abort_on empty_output"];
      args := args + arguments;
      cli := Command(LogPath, args);
    }

    /** `Run` for a job whose `GetArguments` yields `arguments` and whose
        `DetermineProcessTime` yields `processTime`, when ffmpeg writes the
        diagnostic lines `stderr` and finishes with `result`. The parser
        sees every line, then is forced to report completion once, and only
        then is the result classified. `handlerThrew` reports whether the
        handler threw on some line; the model carries on past such a line. */
    method Run(arguments: seq<string>, processTime: int, stderr: seq<string>, result: CliResult)
      returns (r: Option<string>, cli: Command, parser: Progress.CliParser, handlerThrew: bool)
      ensures cli.LogPath == LogPath
      ensures cli.Arguments == ["-nostdin", OverwriteSwitch(Overwrite), "-abort_on empty_output"] + arguments
      ensures fresh(parser) && parser.TotalDuration == processTime
      ensures parser.Events == Progress.Run(-1, processTime, stderr).0
        + [Progress.Percent(10000), Progress.Time(processTime)]
      ensures parser.lastProgressInt == 100
      ensures r == ParseResult(result)
      ensures handlerThrew <==> exists i :: 0 <= i < |stderr| && Progress.LineThrows(stderr[i])
    {
      cli := CreateCLI(arguments);
      parser := new Progress.CliParser(processTime);
      handlerThrew := false;
      for i := 0 to |stderr|
        invariant parser.TotalDuration == processTime
        invariant (parser.Events, parser.lastProgressInt) == Progress.Run(-1, processTime, stderr[..i])
        invariant handlerThrew <==> exists j :: 0 <= j < i && Progress.LineThrows(stderr[j])
      {
        assert stderr[..i + 1][..i] == stderr[..i];
        var thrown := parser.ParseStdError(stderr[i]);
        handlerThrew := handlerThrew || thrown;
      }
      assert stderr[..|stderr|] == stderr;
      parser.ForceUpdateComplete();
      r := ParseResult(result);
    }
  }

  /** Once a job has run, the percent events before the forced completion
      rise strictly in whole percent, and the last two events are 100 %
      and the full process time. */
  lemma {:induction false} RunEventsOrdered(processTime: int, stderr: seq<string>, events: seq<Progress.ProgressEvent>)
    requires events == Progress.Run(-1, processTime, stderr).0 + [Progress.Percent(10000), Progress.Time(processTime)]
    ensures Progress.IncreasingFrom(-1, events[..|events| - 2])
    ensures events[|events| - 2] == Progress.Percent(10000) && events[|events| - 1] == Progress.Time(processTime)
  {
    Progress.RunPercentsIncreasing(-1, processTime, stderr);
    assert events[..|events| - 2] == Progress.Run(-1, processTime, stderr).0;
  }
}
