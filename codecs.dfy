/** FFMpeg-Wrapper/Codecs: the encoders a stream can be given. `libx264`
    and `libsvtav1` are objects whose range-checked setters update nullable
    fields; `copy` has no state. The `Codec` interface becomes a tagged
    datatype over them. */
module Codecs {
  import opened Wrappers
  import opened Text

  /** `libx264` (FFMpeg-Wrapper/Codecs/Video/libx264.cs). */
  class Libx264 {
    var Crf: Option<int>

    /** The CRF, when set, lies in 0..51. */
    predicate Valid()
      reads this
    {
      Crf.Some? ==> 0 <= Crf.value <= 51
    }

    constructor ()
      ensures Valid() && Crf == None
    {
      Crf := None;
    }

    function Name(): string {
      "libx264"
    }

    /** `SetCRF`: a value outside 0..51 resets the CRF to the default (null). */
    method SetCRF(crf: int)
      modifies this
      ensures Valid()
      ensures Crf == if 0 <= crf <= 51 then Some(crf) else None
    {
      if crf < 0 || crf > 51 {
        Crf := None;
      } else {
        Crf := Some(crf);
      }
    }

    /** `GetArguments(streamSpecifier)`: one `-crf<spec> <crf>` token when the CRF is set. */
    function GetArguments(spec: string): (args: seq<string>)
      reads this
      ensures |args| == if Crf.Some? then 1 else 0
    {
      if Crf.Some? then ["-crf" + spec + " " + IntToString(Crf.value)] else []
    }
  }

  /** Which CRF a libx264 argument list carries, read back from its only token. */
  function X264CrfOf(args: seq<string>, spec: string): Option<string> {
    if |args| == 1 && StartsWith(args[0], "-crf" + spec + " ") then Some(args[0][|spec| + 5..]) else None
  }

  /** The argument list states the CRF: it is absent iff the CRF is unset, and
      otherwise the token ends in the CRF's decimal text. */
  lemma {:induction false} X264ArgumentsCarryCrf(codec: Libx264, spec: string)
    ensures X264CrfOf(codec.GetArguments(spec), spec)
            == if codec.Crf.Some? then Some(IntToString(codec.Crf.value)) else None
  {
    if codec.Crf.Some? {
      var t := codec.GetArguments(spec)[0];
      assert t == ("-crf" + spec + " ") + IntToString(codec.Crf.value);
    }
  }

  /** `libsvtav1` (FFMpeg-Wrapper/Codecs/Video/libsvtav1.cs). */
  class LibSvtAv1 {
    var Crf: Option<int>
    var Preset: Option<int>
    var Tune: Option<bool>
    var FilmGrain: Option<int>
    var FilmGrainDenoise: bool
    var FastDecode: Option<int>

    /** Every set value is in its accepted range; nothing ever clears the
        film-grain denoise flag. */
    predicate Valid()
      reads this
    {
      && (Crf.Some? ==> 0 <= Crf.value <= 63)
      && (Preset.Some? ==> 0 <= Preset.value <= 8)
      && (FilmGrain.Some? ==> 1 <= FilmGrain.value <= 50)
      && (FastDecode.Some? ==> 1 <= FastDecode.value <= 3)
      && FilmGrainDenoise
    }

    constructor ()
      ensures Valid()
      ensures Crf == None && Preset == None && Tune == None && FilmGrain == None && FastDecode == None
    {
      Crf := None;
      Preset := None;
      Tune := None;
      FilmGrain := None;
      FilmGrainDenoise := true;
      FastDecode := None;
    }

    function Name(): string {
      "libsvtav1"
    }

    /** `SetCRF`: a value outside 0..63 resets the CRF to null. */
    method SetCRF(crf: int)
      requires Valid()
      modifies this
      ensures Valid()
      ensures Crf == (if 0 <= crf <= 63 then Some(crf) else None)
      ensures Preset == old(Preset) && Tune == old(Tune) && FilmGrain == old(FilmGrain)
      ensures FilmGrainDenoise == old(FilmGrainDenoise) && FastDecode == old(FastDecode)
    {
      if crf < 0 || crf > 63 {
        Crf := None;
      } else {
        Crf := Some(crf);
      }
    }

    /** `SetPreset`: a value outside 0..8 resets the preset to null. */
    method SetPreset(preset: int)
      requires Valid()
      modifies this
      ensures Valid()
      ensures Preset == (if 0 <= preset <= 8 then Some(preset) else None)
      ensures Crf == old(Crf) && Tune == old(Tune) && FilmGrain == old(FilmGrain)
      ensures FilmGrainDenoise == old(FilmGrainDenoise) && FastDecode == old(FastDecode)
    {
      if preset < 0 || preset > 8 {
        Preset := None;
      } else {
        Preset := Some(preset);
      }
    }

    /** `SetTuning`: any value is accepted. */
    method SetTuning(tune: bool)
      requires Valid()
      modifies this
      ensures Valid()
      ensures Tune == Some(tune)
      ensures Crf == old(Crf) && Preset == old(Preset) && FilmGrain == old(FilmGrain)
      ensures FilmGrainDenoise == old(FilmGrainDenoise) && FastDecode == old(FastDecode)
    {
      Tune := Some(tune);
    }

    /** `SetFilmGrain`: a value outside 1..50 resets the film grain to null.
        The denoise argument is accepted but never stored. */
    method SetFilmGrain(filmGrain: int, filmGrainDenoise: bool)
      requires Valid()
      modifies this
      ensures Valid()
      ensures FilmGrain == (if 1 <= filmGrain <= 50 then Some(filmGrain) else None)
      ensures FilmGrainDenoise == old(FilmGrainDenoise)
      ensures Crf == old(Crf) && Preset == old(Preset) && Tune == old(Tune) && FastDecode == old(FastDecode)
    {
      if filmGrain < 1 || filmGrain > 50 {
        FilmGrain := None;
      } else {
        FilmGrain := Some(filmGrain);
      }
    }

    /** `SetFastDecode`: a value outside 1..3 resets fast-decode to null. */
    method SetFastDecode(speed: int)
      requires Valid()
      modifies this
      ensures Valid()
      ensures FastDecode == (if 1 <= speed <= 3 then Some(speed) else None)
      ensures Crf == old(Crf) && Preset == old(Preset) && Tune == old(Tune)
      ensures FilmGrain == old(FilmGrain) && FilmGrainDenoise == old(FilmGrainDenoise)
    {
      if speed < 1 || speed > 3 {
        FastDecode := None;
      } else {
        FastDecode := Some(speed);
      }
    }

    /** The `-svtav1-params` entries, as the setter state describes them. */
    function EncoderParams(): seq<string>
      reads this
    {
      SvtEncoderParams(Tune, FilmGrain, FilmGrainDenoise, FastDecode)
    }

    /** The codec's tokens, as the setter state describes them: at most a
        preset, a CRF and a parameter token, each an option. */
    function Arguments(): (args: seq<string>)
      reads this
      ensures |args| <= 3
      ensures forall i :: 0 <= i < |args| ==> |args[i]| > 0 && args[i][0] == '-'
    {
      SvtArguments(Preset, Crf, EncoderParams())
    }

    /** `GetArguments()`: the preset and CRF tokens, then the encoder
        parameters collected one by one into a list and emitted as a single
        `-svtav1-params` token when the list is not empty. */
    method GetArguments() returns (args: seq<string>)
      ensures args == Arguments()
    {
      args := [];
      if Preset.Some? {
        args := args + ["-preset " + IntToString(Preset.value)];
      }
      assert args == OptionalToken(Preset, "-preset ");
      if Crf.Some? {
        args := args + ["-crf " + IntToString(Crf.value)];
      }
      assert args == OptionalToken(Preset, "-preset ") + OptionalToken(Crf, "-crf ");
      var encoderParams: seq<string> := [];
      if Tune.Some? {
        encoderParams := encoderParams + ["tune=" + (if Tune.value then "1" else "0")];
      }
      assert encoderParams == TuneEntry(Tune);
      if FilmGrain.Some? {
        encoderParams := encoderParams + ["film-grain=" + IntToString(FilmGrain.value)];
        encoderParams := encoderParams + ["film-grain-denoise=" + (if FilmGrainDenoise then "1" else "0")];
      }
      assert encoderParams == TuneEntry(Tune) + FilmGrainEntries(FilmGrain, FilmGrainDenoise);
      if FastDecode.Some? {
        encoderParams := encoderParams + ["fast-decode=" + IntToString(FastDecode.value)];
      }
      assert encoderParams == EncoderParams();
      if |encoderParams| > 0 {
        args := args + ["-svtav1-params " + Join(":", encoderParams)];
      }
    }
  }

  function OptionalToken(value: Option<int>, prefix: string): seq<string> {
    if value.Some? then [prefix + IntToString(value.value)] else []
  }

  /** The entries of `-svtav1-params`, in the order tune, film grain,
      film-grain denoise, fast decode. */
  function SvtEncoderParams(tune: Option<bool>, filmGrain: Option<int>, denoise: bool, fastDecode: Option<int>): seq<string> {
    TuneEntry(tune) + FilmGrainEntries(filmGrain, denoise) + OptionalToken(fastDecode, "fast-decode=")
  }

  function TuneEntry(tune: Option<bool>): seq<string> {
    if tune.Some? then ["tune=" + (if tune.value then "1" else "0")] else []
  }

  function FilmGrainEntries(filmGrain: Option<int>, denoise: bool): seq<string> {
    if filmGrain.Some? then ["film-grain=" + IntToString(filmGrain.value), "film-grain-denoise=" + (if denoise then "1" else "0")] else []
  }

  function SvtArguments(preset: Option<int>, crf: Option<int>, encoderParams: seq<string>): seq<string> {
    OptionalToken(preset, "-preset ") + OptionalToken(crf, "-crf ")
    + (if |encoderParams| > 0 then ["-svtav1-params " + Join(":", encoderParams)] else [])
  }

  /** The parameter list has one entry per set option (two for film grain);
      the tune entry is first and reads 1 or 0; the denoise entry follows the
      film-grain entry exactly when film grain is set; fast decode is last. */
  lemma {:induction false} SvtEncoderParamsLayout(tune: Option<bool>, filmGrain: Option<int>, denoise: bool, fastDecode: Option<int>)
    ensures var ps, t := SvtEncoderParams(tune, filmGrain, denoise, fastDecode), if tune.Some? then 1 else 0;
      && |ps| == t + (if filmGrain.Some? then 2 else 0) + (if fastDecode.Some? then 1 else 0)
      && (tune.Some? ==> ps[0] == if tune.value then "tune=1" else "tune=0")
      && (filmGrain.Some? ==> ps[t] == "film-grain=" + IntToString(filmGrain.value)
                              && ps[t + 1] == "film-grain-denoise=" + (if denoise then "1" else "0"))
      && (fastDecode.Some? ==> ps[|ps| - 1] == "fast-decode=" + IntToString(fastDecode.value))
  {
  }

  /** `-svtav1-params` is emitted, as the last token, exactly when tune, film
      grain or fast decode is set; the preset token comes before the CRF token. */
  lemma {:induction false} SvtArgumentsLayout(codec: LibSvtAv1)
    ensures var args, ps := codec.Arguments(), codec.EncoderParams();
      var p, c := if codec.Preset.Some? then 1 else 0, if codec.Crf.Some? then 1 else 0;
      && (|ps| > 0 <==> codec.Tune.Some? || codec.FilmGrain.Some? || codec.FastDecode.Some?)
      && |args| == p + c + (if |ps| > 0 then 1 else 0)
      && (codec.Preset.Some? ==> args[0] == "-preset " + IntToString(codec.Preset.value))
      && (codec.Crf.Some? ==> args[p] == "-crf " + IntToString(codec.Crf.value))
      && (|ps| > 0 ==> args[|args| - 1] == "-svtav1-params " + Join(":", ps))
  {
    SvtEncoderParamsLayout(codec.Tune, codec.FilmGrain, codec.FilmGrainDenoise, codec.FastDecode);
  }

  /** Entries joined with `:` contain one `:` fewer than there are entries,
      none of them containing a `:` of its own, so the entry list is recoverable. */
  lemma {:induction false} SvtParamsSeparators(codec: LibSvtAv1)
    requires |codec.EncoderParams()| > 0
    requires forall i :: 0 <= i < |codec.EncoderParams()| ==> CountChar(codec.EncoderParams()[i], ':') == 0
    ensures CountChar(Join([':'], codec.EncoderParams()), ':') == |codec.EncoderParams()| - 1
  {
    JoinSeparatorCount(':', codec.EncoderParams());
  }

  /** A codec a stream can be encoded with. */
  datatype Codec = Copy | X264(x264: Libx264) | SvtAv1(svtav1: LibSvtAv1)

  /** `Codec.Name`. */
  function CodecName(codec: Codec): (name: string)
    ensures name == match codec case Copy => "copy" case X264(_) => "libx264" case SvtAv1(_) => "libsvtav1"
  {
    match codec
    case Copy => "copy"
    case X264(c) => c.Name()
    case SvtAv1(c) => c.Name()
  }

  function CodecObjects(codec: Codec): set<object> {
    match codec
    case Copy => {}
    case X264(c) => {c}
    case SvtAv1(c) => {c}
  }

  /** `Codec.GetArguments(streamSpecifier)`: copy has none; libsvtav1
      implements the parameterless form, so its tokens carry no stream
      specifier. */
  function CodecArguments(codec: Codec, spec: string): seq<string>
    reads CodecObjects(codec)
  {
    match codec
    case Copy => []
    case X264(c) => c.GetArguments(spec)
    case SvtAv1(c) => c.Arguments()
  }
}
