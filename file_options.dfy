/** Per-file trim settings of the ffmpeg-namespace builders:
    `InputFileOptions` (FFMpeg-Wrapper/ffmpeg/InputFileOptions.cs) and
    `OutputFileOptions` (FFMpeg-Wrapper/ffmpeg/OutputFileOptions.cs). Both
    are objects whose setters store the formatted time in a field. */
module FileOptions {
  import opened Wrappers
  import opened Text
  import opened Utils
  import opened Tokens
  import Ffprobe

  const InputFlags: seq<string> := ["-ss", "-to", "-t"]
  const OutputFlags: seq<string> := ["-ss", "-to", "-t", "-fs"]

  lemma {:induction false} InputFlagsDistinct()
    ensures DistinctFlags(InputFlags)
  {
  }

  lemma {:induction false} OutputFlagsDistinct()
    ensures DistinctFlags(OutputFlags)
  {
  }

  /** A stored time that `TimeSpan.Parse` accepts. */
  predicate Parses(t: Option<string>) {
    t.Some? ==> ParseTimeSpan(t.value).Some?
  }

  /** The text a setter stores always parses back. */
  lemma {:induction false} FormattedParses(t: int)
    ensures Parses(Some(GetFFMpegFormat(t)))
  {
    ParseFormatRoundTrip(t);
  }

  /** `InputFileOptions`: how much of an input file to read. */
  class InputFileOptions {
    var SeekTime: Option<string>
    var ToTime: Option<string>
    var Duration: Option<string>
    var File: Ffprobe.MediaAnalysis?

    /** Every stored time is one `TimeSpan.Parse` accepts, as the setters
        guarantee. */
    predicate Valid()
      reads this
    {
      Parses(SeekTime) && Parses(ToTime) && Parses(Duration)
    }

    /** `new InputFileOptions()`: nothing set, no file yet. */
    constructor ()
      ensures Valid()
      ensures SeekTime == None && ToTime == None && Duration == None && File == null
    {
      SeekTime := None;
      ToTime := None;
      Duration := None;
      File := null;
    }

    /** `SetStartTime`: stores the formatted seek time. */
    method SetStartTime(position: int)
      requires Valid()
      modifies this
      ensures Valid()
      ensures SeekTime == Some(GetFFMpegFormat(position))
      ensures ToTime == old(ToTime) && Duration == old(Duration) && File == old(File)
    {
      FormattedParses(position);
      SeekTime := Some(GetFFMpegFormat(position));
    }

    /** `SetStopTime`: stores the formatted stop time. */
    method SetStopTime(position: int)
      requires Valid()
      modifies this
      ensures Valid()
      ensures ToTime == Some(GetFFMpegFormat(position))
      ensures SeekTime == old(SeekTime) && Duration == old(Duration) && File == old(File)
    {
      FormattedParses(position);
      ToTime := Some(GetFFMpegFormat(position));
    }

    /** `SetDuration`: stores the formatted duration. */
    method SetDuration(duration: int)
      requires Valid()
      modifies this
      ensures Valid()
      ensures Duration == Some(GetFFMpegFormat(duration))
      ensures SeekTime == old(SeekTime) && ToTime == old(ToTime) && File == old(File)
    {
      FormattedParses(duration);
      Duration := Some(GetFFMpegFormat(duration));
    }

    /** `DeepCopy`: a new object holding the same four fields, so it
        `Equals` the original while a setter called on it, which modifies
        only the copy, leaves the original as it was. */
    method DeepCopy() returns (r: InputFileOptions)
      ensures fresh(r)
      ensures r.SeekTime == SeekTime && r.ToTime == ToTime && r.Duration == Duration && r.File == File
      ensures File != null ==> r.Equals(Same(this)) && Equals(Same(r))
    {
      r := new InputFileOptions();
      r.SeekTime := SeekTime;
      r.ToTime := ToTime;
      r.Duration := Duration;
      r.File := File;
    }

    /** `GetArguments()`: the trims that go before `-i`. */
    function GetArguments(): (args: seq<string>)
      reads this
      ensures |args| == CountPresent([SeekTime, ToTime, Duration])
      ensures forall i :: 0 <= i < |args| ==> |args[i]| > 0 && args[i][0] == '-'
    {
      InputFlagsDistinct();
      OptsShape(InputFlags, [SeekTime, ToTime, Duration]);
      Opts(InputFlags, [SeekTime, ToTime, Duration])
    }

    /** `Equals(object?)`: false for null and for other types; otherwise
        the same file path and the same three trims. */
    function Equals(obj: Boxed<InputFileOptions>): (r: bool)
      requires File != null && (obj.Same? ==> obj.value.File != null)
      reads this, if obj.Same? then {obj.value} else {}
      ensures r ==> obj.Same?
      ensures obj == Same(this) ==> r
    {
      match obj
      case Null => false
      case Foreign => false
      case Same(other) =>
        && File.FilePath == other.File.FilePath
        && SeekTime == other.SeekTime
        && ToTime == other.ToTime
        && Duration == other.Duration
    }

    /** `GetHashCode()`: `HashCode.Combine` of the path and the three trims.
        The combiner is seeded per process, so it is a parameter here. */
    function GetHashCode(combine: (string, Option<string>, Option<string>, Option<string>) -> int): int
      requires File != null
      reads this
    {
      combine(File.FilePath, ToTime, SeekTime, Duration)
    }
  }

  /** Reading the input trims back gives the stored fields, in the order
      seek, stop, duration, with one token per set field. */
  lemma {:induction false} InputArgumentsReadBack(o: InputFileOptions)
    ensures var args := o.GetArguments();
      && FlagValue(args, "-ss") == o.SeekTime
      && FlagValue(args, "-to") == o.ToTime
      && FlagValue(args, "-t") == o.Duration
      && |args| == CountPresent([o.SeekTime, o.ToTime, o.Duration])
  {
    InputFlagsDistinct();
    var values := [o.SeekTime, o.ToTime, o.Duration];
    FlagValueOpts(InputFlags, values, 0);
    FlagValueOpts(InputFlags, values, 1);
    FlagValueOpts(InputFlags, values, 2);
    OptsShape(InputFlags, values);
  }

  /** `Equals` is an equivalence on options that have a file. */
  lemma {:induction false} InputEqualsEquivalence(a: InputFileOptions, b: InputFileOptions, c: InputFileOptions)
    requires a.File != null && b.File != null && c.File != null
    ensures a.Equals(Same(a))
    ensures a.Equals(Same(b)) <==> b.Equals(Same(a))
    ensures a.Equals(Same(b)) && b.Equals(Same(c)) ==> a.Equals(Same(c))
  {
  }

  /** Equal options hash equally, whatever the combiner. */
  lemma {:induction false} InputHashConsistent(a: InputFileOptions, b: InputFileOptions,
                            combine: (string, Option<string>, Option<string>, Option<string>) -> int)
    requires a.File != null && b.File != null && a.Equals(Same(b))
    ensures a.GetHashCode(combine) == b.GetHashCode(combine)
  {
  }

  /** `OutputFileOptions`: trims and a size limit for the output file. */
  class OutputFileOptions {
    var SeekTime: Option<string>
    var ToTime: Option<string>
    var Duration: Option<string>
    var LimitSize: Option<int>
    const FilePath: string

    predicate Valid()
      reads this
    {
      Parses(SeekTime) && Parses(ToTime) && Parses(Duration)
    }

    /** The path is set where the options object is created, which is not
        part of this model; it is a constructor argument here. */
    constructor (filePath: string)
      ensures Valid()
      ensures SeekTime == None && ToTime == None && Duration == None && LimitSize == None
      ensures FilePath == filePath
    {
      SeekTime := None;
      ToTime := None;
      Duration := None;
      LimitSize := None;
      FilePath := filePath;
    }

    /** `SetStartTime`: stores the formatted output seek. */
    method SetStartTime(position: int)
      requires Valid()
      modifies this
      ensures Valid()
      ensures SeekTime == Some(GetFFMpegFormat(position))
      ensures ToTime == old(ToTime) && Duration == old(Duration) && LimitSize == old(LimitSize)
    {
      FormattedParses(position);
      SeekTime := Some(GetFFMpegFormat(position));
    }

    /** `SetStopTime`: stores the formatted stop time. */
    method SetStopTime(position: int)
      requires Valid()
      modifies this
      ensures Valid()
      ensures ToTime == Some(GetFFMpegFormat(position))
      ensures SeekTime == old(SeekTime) && Duration == old(Duration) && LimitSize == old(LimitSize)
    {
      FormattedParses(position);
      ToTime := Some(GetFFMpegFormat(position));
    }

    /** `SetDuration`: stores the formatted duration. */
    method SetDuration(duration: int)
      requires Valid()
      modifies this
      ensures Valid()
      ensures Duration == Some(GetFFMpegFormat(duration))
      ensures SeekTime == old(SeekTime) && ToTime == old(ToTime) && LimitSize == old(LimitSize)
    {
      FormattedParses(duration);
      Duration := Some(GetFFMpegFormat(duration));
    }

    /** `SetFileSizeLimit`: stores the byte count as given. */
    method SetFileSizeLimit(sizeInBytes: int)
      requires Valid()
      modifies this
      ensures Valid()
      ensures LimitSize == Some(sizeInBytes)
      ensures SeekTime == old(SeekTime) && ToTime == old(ToTime) && Duration == old(Duration)
    {
      LimitSize := Some(sizeInBytes);
    }

    /** `GetArguments()`: the options that go before the output path, which
        is not among them. */
    function GetArguments(): (args: seq<string>)
      reads this
      ensures |args| == CountPresent([SeekTime, ToTime, Duration, if LimitSize.Some? then Some(IntToString(LimitSize.value)) else None])
      ensures forall i :: 0 <= i < |args| ==> |args[i]| > 0 && args[i][0] == '-'
    {
      OutputFlagsDistinct();
      OptsShape(OutputFlags, [SeekTime, ToTime, Duration, if LimitSize.Some? then Some(IntToString(LimitSize.value)) else None]);
      Opts(OutputFlags, [SeekTime, ToTime, Duration, if LimitSize.Some? then Some(IntToString(LimitSize.value)) else None])
    }

    /** `Equals(object?)`: false for null and for other types; otherwise
        the same path, trims and size limit. */
    function Equals(obj: Boxed<OutputFileOptions>): (r: bool)
      reads this, if obj.Same? then {obj.value} else {}
      ensures r ==> obj.Same?
      ensures obj == Same(this) ==> r
    {
      match obj
      case Null => false
      case Foreign => false
      case Same(other) =>
        && FilePath == other.FilePath
        && SeekTime == other.SeekTime
        && ToTime == other.ToTime
        && Duration == other.Duration
        && LimitSize == other.LimitSize
    }
  }

  /** Reading the output trims back gives the stored fields, with the size
      limit in decimal, and every token is an option, never the path. */
  lemma {:induction false} OutputOptionsReadBack(o: OutputFileOptions)
    ensures var args := o.GetArguments();
      && FlagValue(args, "-ss") == o.SeekTime
      && FlagValue(args, "-to") == o.ToTime
      && FlagValue(args, "-t") == o.Duration
      && FlagValue(args, "-fs") == (if o.LimitSize.Some? then Some(IntToString(o.LimitSize.value)) else None)
      && forall i :: 0 <= i < |args| ==> |args[i]| > 0 && args[i][0] == '-'
  {
    OutputFlagsDistinct();
    var values := [o.SeekTime, o.ToTime, o.Duration, if o.LimitSize.Some? then Some(IntToString(o.LimitSize.value)) else None];
    FlagValueOpts(OutputFlags, values, 0);
    FlagValueOpts(OutputFlags, values, 1);
    FlagValueOpts(OutputFlags, values, 2);
    FlagValueOpts(OutputFlags, values, 3);
    OptsShape(OutputFlags, values);
  }

  /** `Equals` is an equivalence that tells options apart by every field. */
  lemma {:induction false} OutputEqualsMeaning(a: OutputFileOptions, b: OutputFileOptions)
    ensures a.Equals(Same(b)) <==> b.Equals(Same(a))
    ensures a.Equals(Same(a))
    ensures a.Equals(Same(b)) ==> a.GetArguments() == b.GetArguments()
  {
  }
}
