/** Per-stream output settings of the ffmpeg namespace:
    `StreamOptions` (FFMpeg-Wrapper/ffmpeg/StreamOptions.cs), an object
    whose setters change its codec and two insertion-ordered dictionaries
    (dispositions and metadata), and whose `GetArguments` renders the
    `-map`, `-c`, codec, `-disposition` and `-metadata` tokens of one
    output stream. */
module Streams {
  import opened Wrappers
  import opened Text
  import opened Utils
  import Codecs
  import Ffprobe

  /* ---------------------------------------------------------------------- */
  /* Dictionaries                                                            */
  /* ---------------------------------------------------------------------- */

  /** The value stored under `key`, if any. */
  function Lookup<V>(entries: seq<(string, V)>, key: string): Option<V> {
    if entries == [] then None
    else if entries[0].0 == key then Some(entries[0].1)
    else Lookup(entries[1..], key)
  }

  predicate DistinctKeys<V>(entries: seq<(string, V)>) {
    forall i, j :: 0 <= i < j < |entries| ==> entries[i].0 != entries[j].0
  }

  /** `dictionary[key] = value`: an existing entry is replaced where it
      stands, a new key is added at the end. */
  function Put<V>(entries: seq<(string, V)>, key: string, value: V): (r: seq<(string, V)>)
    ensures |r| == |entries| + (if Lookup(entries, key).Some? then 0 else 1)
  {
    if entries == [] then [(key, value)]
    else if entries[0].0 == key then [(key, value)] + entries[1..]
    else [entries[0]] + Put(entries[1..], key, value)
  }

  /** After a put, the key holds the new value and every other key what it
      held before. */
  lemma {:induction false} PutLookup<V>(entries: seq<(string, V)>, key: string, value: V, other: string)
    ensures Lookup(Put(entries, key, value), other) == if other == key then Some(value) else Lookup(entries, other)
  {
    if entries != [] && entries[0].0 != key {
      PutLookup(entries[1..], key, value, other);
    }
  }

  /** A put keeps one entry per key. */
  lemma {:induction false} PutDistinct<V>(entries: seq<(string, V)>, key: string, value: V)
    requires DistinctKeys(entries)
    ensures DistinctKeys(Put(entries, key, value))
    ensures forall i :: 0 <= i < |Put(entries, key, value)| ==>
      Put(entries, key, value)[i].0 == key || exists j :: 0 <= j < |entries| && entries[j].0 == Put(entries, key, value)[i].0
  {
    if entries != [] && entries[0].0 != key {
      var rest := entries[1..];
      PutDistinct(rest, key, value);
      var r := Put(entries, key, value);
      forall i | 0 <= i < |r|
        ensures r[i].0 == key || exists j :: 0 <= j < |entries| && entries[j].0 == r[i].0
      {
        if i > 0 {
          assert r[i] == Put(rest, key, value)[i - 1];
          if r[i].0 != key {
            var j :| 0 <= j < |rest| && rest[j].0 == r[i].0;
            assert entries[j + 1] == rest[j];
          }
        }
      }
      forall i | 0 < i < |r|
        ensures r[i].0 != entries[0].0
      {
        assert r[i] == Put(rest, key, value)[i - 1];
        if r[i].0 != key {
          var j :| 0 <= j < |rest| && rest[j].0 == r[i].0;
          assert entries[j + 1] == rest[j];
        }
      }
    } else if entries != [] {
      var r := Put(entries, key, value);
      forall i | 0 <= i < |r|
        ensures r[i].0 == key || exists j :: 0 <= j < |entries| && entries[j].0 == r[i].0
      {
        if i > 0 {
          assert r[i] == entries[i];
        }
      }
    }
  }

  /** A new key goes at the end; an existing key keeps its place, so the
      keys stay in insertion order. */
  lemma {:induction false} PutOrder<V>(entries: seq<(string, V)>, key: string, value: V)
    ensures Lookup(entries, key).None? ==> Put(entries, key, value) == entries + [(key, value)]
    ensures Lookup(entries, key).Some? ==>
      forall i :: 0 <= i < |entries| ==> Put(entries, key, value)[i].0 == entries[i].0
  {
    if entries != [] && entries[0].0 != key {
      PutOrder(entries[1..], key, value);
      var r := Put(entries, key, value);
      if Lookup(entries, key).Some? {
        forall i | 0 < i < |entries|
          ensures r[i].0 == entries[i].0
        {
          assert r[i] == Put(entries[1..], key, value)[i - 1];
        }
      } else {
        assert entries == [entries[0]] + entries[1..];
      }
    }
  }

  /** Putting the same key twice is putting the last value once. */
  lemma {:induction false} PutTwice<V>(entries: seq<(string, V)>, key: string, first: V, second: V)
    ensures Put(Put(entries, key, first), key, second) == Put(entries, key, second)
  {
    if entries != [] && entries[0].0 != key {
      PutTwice(entries[1..], key, first, second);
    }
  }

  /** A stored value sits at some position of the list. */
  lemma {:induction false} LookupFound<V>(entries: seq<(string, V)>, key: string)
    requires Lookup(entries, key).Some?
    ensures exists i :: 0 <= i < |entries| && entries[i] == (key, Lookup(entries, key).value)
  {
    if entries[0].0 != key {
      LookupFound(entries[1..], key);
      var i :| 0 <= i < |entries[1..]| && entries[1..][i] == (key, Lookup(entries, key).value);
      assert entries[i + 1] == entries[1..][i];
    }
  }

  /* ---------------------------------------------------------------------- */
  /* Flags                                                                   */
  /* ---------------------------------------------------------------------- */

  /** `StreamFlag`; `Unnamed` stands for an integer cast to the enum that
      names none of its members. */
  datatype StreamFlag =
    | Default | Commentary | Forced | Original
    | HearingImpaired | VisualImpaired | Captions | Descriptions
    | Unnamed

  const FlagKeys: seq<string> :=
    ["default", "comment", "forced", "original", "hearing_impaired", "visual_impaired", "captions", "descriptions"]

  /** `GetStreamFlagKey`: the ffmpeg disposition name of a flag; null for
      a value that names no member. */
  function GetStreamFlagKey(flag: StreamFlag): (key: Option<string>)
    ensures key.None? <==> flag.Unnamed?
    ensures key.Some? ==> key.value in FlagKeys
  {
    match flag
    case Default => Some("default")
    case Commentary => Some("comment")
    case Forced => Some("forced")
    case Original => Some("original")
    case HearingImpaired => Some("hearing_impaired")
    case VisualImpaired => Some("visual_impaired")
    case Captions => Some("captions")
    case Descriptions => Some("descriptions")
    case Unnamed => None
  }

  /** Different flags have different keys. */
  lemma {:induction false} FlagKeyInjective(a: StreamFlag, b: StreamFlag)
    requires GetStreamFlagKey(a).Some? && GetStreamFlagKey(a) == GetStreamFlagKey(b)
    ensures a == b
  {
  }

  /** The characters a disposition list uses to switch a flag on or off. */
  predicate IsSign(c: char) {
    c == '+' || c == '-'
  }

  /** A non-empty name with no sign in it. */
  predicate IsPlainKey(k: string) {
    |k| > 0 && forall j :: 0 <= j < |k| ==> !IsSign(k[j])
  }

  /** Every disposition key is a plain name. */
  lemma {:induction false} FlagKeysArePlain()
    ensures forall i :: 0 <= i < |FlagKeys| ==> IsPlainKey(FlagKeys[i])
  {
  }

  /** One disposition: `+key` when enabled, `-key` when disabled. */
  function DispositionEntry(entry: (string, bool)): string {
    (if entry.1 then "+" else "-") + entry.0
  }

  /** `string.Join("", flags)` over the dispositions, in insertion order. */
  function DispositionText(ds: seq<(string, bool)>): string {
    if ds == [] then "" else DispositionEntry(ds[0]) + DispositionText(ds[1..])
  }

  /** The length of the longest prefix without a sign. */
  function PlainRun(s: string): (n: nat)
    ensures n <= |s|
    ensures forall j :: 0 <= j < n ==> !IsSign(s[j])
    ensures n < |s| ==> IsSign(s[n])
  {
    if s == [] || IsSign(s[0]) then 0 else 1 + PlainRun(s[1..])
  }

  /** How ffmpeg reads a disposition list: a sign, then a name up to the
      next sign, repeatedly. */
  function ParseDispositionText(t: string): Option<seq<(string, bool)>>
    decreases |t|
  {
    if t == [] then Some([])
    else if !IsSign(t[0]) then None
    else
      var n := PlainRun(t[1..]);
      if n == 0 then None
      else match ParseDispositionText(t[1 + n..])
        case None => None
        case Some(rest) => Some([(t[1..1 + n], t[0] == '+')] + rest)
  }

  /** The run of a plain key followed by a sign or nothing is the key. */
  lemma {:induction false} PlainRunOfKey(k: string, rest: string)
    requires forall j :: 0 <= j < |k| ==> !IsSign(k[j])
    requires rest == [] || IsSign(rest[0])
    ensures PlainRun(k + rest) == |k|
  {
    if k != [] {
      assert (k + rest)[1..] == k[1..] + rest;
      PlainRunOfKey(k[1..], rest);
    } else {
      assert k + rest == rest;
    }
  }

  /** A disposition text starts with a sign unless it is empty. */
  lemma {:induction false} DispositionTextHead(ds: seq<(string, bool)>)
    ensures var t := DispositionText(ds); t == [] || IsSign(t[0])
  {
  }

  /** Parsing a rendered disposition list gives the list back: the token
      states every flag, its value and the insertion order. */
  lemma {:induction false} DispositionTextRoundTrip(ds: seq<(string, bool)>)
    requires forall i :: 0 <= i < |ds| ==> IsPlainKey(ds[i].0)
    ensures ParseDispositionText(DispositionText(ds)) == Some(ds)
  {
    if ds != [] {
      var k, rest := ds[0].0, DispositionText(ds[1..]);
      var t := DispositionText(ds);
      var sign := if ds[0].1 then "+" else "-";
      assert t == sign + (k + rest);
      DispositionTextHead(ds[1..]);
      PlainRunOfKey(k, rest);
      assert t[1..] == k + rest;
      assert t[1..1 + |k|] == k;
      assert t[1 + |k|..] == rest;
      assert IsSign(t[0]) && (t[0] == '+') == ds[0].1;
      assert forall i :: 0 <= i < |ds[1..]| ==> IsPlainKey(ds[1..][i].0) by {
        forall i | 0 <= i < |ds[1..]|
          ensures IsPlainKey(ds[1..][i].0)
        {
          assert ds[1..][i] == ds[i + 1];
        }
      }
      DispositionTextRoundTrip(ds[1..]);
      assert ParseDispositionText(t) == Some([(k, ds[0].1)] + ds[1..]);
      assert [(k, ds[0].1)] + ds[1..] == ds;
    }
  }

  /* ---------------------------------------------------------------------- */
  /* Languages and names                                                     */
  /* ---------------------------------------------------------------------- */

  /** `language.Part3 ?? language.Part2 ?? language.Part1 ?? "und"`. */
  function LanguageCode(language: Ffprobe.Language): (code: string)
    ensures code == "und" || Some(code) == language.part3 || Some(code) == language.part2 || Some(code) == language.part1
    ensures language.part3.Some? ==> code == language.part3.value
  {
    if language.part3.Some? then language.part3.value
    else if language.part2.Some? then language.part2.value
    else if language.part1.Some? then language.part1.value
    else "und"
  }

  /** The code is the most specific part the language has, and "und" only
      when it has none. */
  lemma {:induction false} LanguageCodeChoice(language: Ffprobe.Language)
    ensures var code := LanguageCode(language);
      && (language.part3.Some? ==> code == language.part3.value)
      && (language.part3.None? && language.part2.Some? ==> code == language.part2.value)
      && (language.part3.None? && language.part2.None? && language.part1.Some? ==> code == language.part1.value)
      && (language.part3.None? && language.part2.None? && language.part1.None? ==> code == "und")
  {
  }

  /** The `language` value `SetLanguage` stores, as written: the code of a
      language, and nothing for a null one, whose `Part3` is read without a
      null check and throws a `NullReferenceException`. */
  function StoredLanguage(language: Option<Ffprobe.Language>): (v: Option<string>)
    ensures v.Some? <==> language.Some?
    ensures language.Some? ==> v.value == LanguageCode(language.value)
  {
    match language
    case None => None
    case Some(l) => Some(LanguageCode(l))
  }

  /** The value the method's documentation promises: `und` for a null
      language, else the language's own code. */
  function DocumentedLanguage(language: Option<Ffprobe.Language>): (code: string)
    ensures language.None? ==> code == "und"
    ensures StoredLanguage(language).Some? ==> code == StoredLanguage(language).value
  {
    match language
    case None => "und"
    case Some(l) => LanguageCode(l)
  }

  /** A null language throws where the documentation promises `und`. */
  lemma {:induction false} NullLanguageThrows()
    ensures StoredLanguage(None).None?
    ensures DocumentedLanguage(None) == "und"
  {
  }

  /** The documented value is `und` for a null language or one without any
      ISO 639 part, and otherwise the most specific part there is. */
  lemma {:induction false} DocumentedLanguageChoice(language: Option<Ffprobe.Language>)
    ensures var code := DocumentedLanguage(language);
      && (language.None? ==> code == "und")
      && (language.Some? ==> var l := language.value;
           && (l.part3.Some? ==> code == l.part3.value)
           && (l.part3.None? && l.part2.Some? ==> code == l.part2.value)
           && (l.part3.None? && l.part2.None? && l.part1.Some? ==> code == l.part1.value)
           && (l.part3.None? && l.part2.None? && l.part1.None? ==> code == "und"))
  {
    if language.Some? {
      LanguageCodeChoice(language.value);
    }
  }

  /** The `title` value `SetName` stores: the escaped name in quotes. */
  function TitleValue(name: string): string {
    "\"" + GetEscapedString(name) + "\""
  }

  /** The name comes back by unescaping what is between the quotes, and no
      quote inside is left unescaped. */
  lemma {:induction false} TitleValueReadBack(name: string)
    ensures var v := TitleValue(name);
      && |v| >= 2 && v[0] == '"' && v[|v| - 1] == '"'
      && UnescapeChar(v[1..|v| - 1], '"') == name
      && forall i :: 1 <= i < |v| - 1 && v[i] == '"' ==> v[i - 1] == '\\'
  {
    var v := TitleValue(name);
    var e := GetEscapedString(name);
    assert v[1..|v| - 1] == e;
    EscapeRoundTrip(name, '"');
    EscapedQuotesArePreceded(name, '"');
    forall i | 1 <= i < |v| - 1 && v[i] == '"'
      ensures v[i - 1] == '\\'
    {
      assert e[i - 1] == v[i];
    }
  }

  /* ---------------------------------------------------------------------- */
  /* Input maps                                                              */
  /* ---------------------------------------------------------------------- */

  /** The `-map` source of a named stream: the escaped name in brackets,
      in quotes. */
  function NamedInputMap(namedStream: string): string {
    "\"[" + GetEscapedString(namedStream) + "]\""
  }

  /** The `-map` source of stream `streamIndex` of input `inputFileIndex`. */
  function IndexInputMap(inputFileIndex: int, streamIndex: int): string {
    IntToString(inputFileIndex) + ":" + IntToString(streamIndex)
  }

  /** The stream name comes back from between `"[` and `]"`. */
  lemma {:induction false} NamedInputMapReadBack(namedStream: string)
    ensures var m := NamedInputMap(namedStream);
      && |m| >= 4 && m[..2] == "\"[" && m[|m| - 2..] == "]\""
      && UnescapeChar(m[2..|m| - 2], '"') == namedStream
  {
    var m := NamedInputMap(namedStream);
    assert m[2..|m| - 2] == GetEscapedString(namedStream);
    EscapeRoundTrip(namedStream, '"');
  }

  /** The two indices come back as the ratio the map text spells. */
  lemma {:induction false} IndexInputMapReadBack(inputFileIndex: int, streamIndex: int)
    ensures Ffprobe.ParseRatioInt(Some(IndexInputMap(inputFileIndex, streamIndex)), ':')
            == Some((inputFileIndex, streamIndex))
  {
    assert IndexInputMap(inputFileIndex, streamIndex)
      == IntToString(inputFileIndex) + [':'] + IntToString(streamIndex);
    Ffprobe.ParseRatioIntRoundTrip(inputFileIndex, streamIndex, ':');
  }

  /* ---------------------------------------------------------------------- */
  /* Tokens                                                                  */
  /* ---------------------------------------------------------------------- */

  /** The metadata option: global for an empty specifier, per stream otherwise. */
  function MetadataCommand(spec: string): string {
    if spec == "" then "-metadata" else "-metadata:s" + spec
  }

  /** One `cmd key=value` token per metadata entry, in insertion order. */
  function MetadataTokens(cmd: string, md: seq<(string, string)>): (tokens: seq<string>)
    ensures |tokens| == |md|
  {
    seq(|md|, j requires 0 <= j < |md| => cmd + " " + md[j].0 + "=" + md[j].1)
  }

  /** The disposition token: there is one when any flag has been set. */
  function DispositionTokens(spec: string, ds: seq<(string, bool)>): (tokens: seq<string>)
    ensures |tokens| == if |ds| > 0 then 1 else 0
  {
    if |ds| > 0 then ["-disposition" + spec + " " + DispositionText(ds)] else []
  }

  /* ---------------------------------------------------------------------- */
  /* StreamOptions                                                           */
  /* ---------------------------------------------------------------------- */

  /** `StreamOptions`: how one output stream is mapped and encoded. */
  class StreamOptions {
    var Codec: Codecs.Codec
    var Dispositions: seq<(string, bool)>
    var Metadata: seq<(string, string)>
    const InputMap: string

    /** One entry per key in both dictionaries, and only disposition keys
        among the dispositions. */
    predicate Valid()
      reads this
    {
      && DistinctKeys(Dispositions)
      && DistinctKeys(Metadata)
      && forall i :: 0 <= i < |Dispositions| ==> Dispositions[i].0 in FlagKeys
    }

    /** `new StreamOptions(namedStream)`: maps a named filter output. */
    constructor Named(namedStream: string)
      ensures Valid()
      ensures InputMap == NamedInputMap(namedStream)
      ensures Codec == Codecs.Copy && Dispositions == [] && Metadata == []
    {
      Codec := Codecs.Copy;
      Dispositions := [];
      Metadata := [];
      InputMap := NamedInputMap(namedStream);
    }

    /** `new StreamOptions(inputFileIndex, streamIndex)`: maps a stream of
        an input file. */
    constructor Indexed(inputFileIndex: int, streamIndex: int)
      ensures Valid()
      ensures InputMap == IndexInputMap(inputFileIndex, streamIndex)
      ensures Codec == Codecs.Copy && Dispositions == [] && Metadata == []
    {
      Codec := Codecs.Copy;
      Dispositions := [];
      Metadata := [];
      InputMap := IndexInputMap(inputFileIndex, streamIndex);
    }

    /** `SetCodec`: replaces the codec only. */
    method SetCodec(codec: Codecs.Codec)
      requires Valid()
      modifies this
      ensures Valid()
      ensures Codec == codec
      ensures Dispositions == old(Dispositions) && Metadata == old(Metadata)
    {
      Codec := codec;
    }

    /** `SetFlag`: records the flag's value under its key; an unnamed flag
        changes nothing. */
    method SetFlag(flag: StreamFlag, enabled: bool)
      requires Valid()
      modifies this
      ensures Valid()
      ensures Dispositions == match GetStreamFlagKey(flag)
        case Some(key) => Put(old(Dispositions), key, enabled)
        case None => old(Dispositions)
      ensures Codec == old(Codec) && Metadata == old(Metadata)
    {
      var key := GetStreamFlagKey(flag);
      if key.Some? {
        PutDistinct(Dispositions, key.value, enabled);
        Dispositions := Put(Dispositions, key.value, enabled);
      }
    }

    /** `SetLanguage`: records the language code under `language`. A null
        language throws before anything is stored. */
    method SetLanguage(language: Option<Ffprobe.Language>) returns (thrown: bool)
      requires Valid()
      modifies this
      ensures Valid()
      ensures thrown <==> language.None?
      ensures thrown ==> Metadata == old(Metadata)
      ensures !thrown ==> Metadata == Put(old(Metadata), "language", LanguageCode(language.value))
      ensures Codec == old(Codec) && Dispositions == old(Dispositions)
    {
      var stored := StoredLanguage(language);
      if stored.None? {
        return true;
      }
      PutDistinct(Metadata, "language", stored.value);
      Metadata := Put(Metadata, "language", stored.value);
      return false;
    }

    /** `SetName`: records the quoted, escaped name under `title`. */
    method SetName(name: string)
      requires Valid()
      modifies this
      ensures Valid()
      ensures Metadata == Put(old(Metadata), "title", TitleValue(name))
      ensures Codec == old(Codec) && Dispositions == old(Dispositions)
    {
      PutDistinct(Metadata, "title", TitleValue(name));
      Metadata := Put(Metadata, "title", TitleValue(name));
    }

    /** What `GetArguments` reads of these options and of their codec. The
        codec is asked for its arguments without a specifier. */
    function View(): ArgumentsView
      reads this, if Codec.X264? then {Codec.x264} else {}, if Codec.SvtAv1? then {Codec.svtav1} else {}
    {
      ArgumentsView(InputMap, Codecs.CodecName(Codec), Codecs.CodecArguments(Codec, ""), Dispositions, Metadata)
    }

    /** `GetArguments(outputStreamSpecifier)`. */
    function GetArguments(spec: string): (args: seq<string>)
      reads this, if Codec.X264? then {Codec.x264} else {}, if Codec.SvtAv1? then {Codec.svtav1} else {}
      ensures |args| == 2 + |Codecs.CodecArguments(Codec, "")| + (if |Dispositions| > 0 then 1 else 0) + |Metadata|
      ensures args[0] == "-map " + InputMap
    {
      RenderStream(View(), spec)
    }
  }

  /** The state `StreamOptions.GetArguments` renders: the input map, the
      codec's name and its own tokens, the flags and the metadata. */
  datatype ArgumentsView = ArgumentsView(
    InputMap: string,
    CodecName: string,
    CodecTokens: seq<string>,
    Dispositions: seq<(string, bool)>,
    Metadata: seq<(string, string)>)

  /** The tokens of a stream for output specifier `spec`; how many there
      are does not depend on the specifier. */
  function RenderStream(v: ArgumentsView, spec: string): (r: seq<string>)
    ensures |r| == 2 + |v.CodecTokens| + (if |v.Dispositions| > 0 then 1 else 0) + |v.Metadata|
  {
    ["-map " + v.InputMap, "-c" + spec + " " + v.CodecName]
    + v.CodecTokens
    + DispositionTokens(spec, v.Dispositions)
    + MetadataTokens(MetadataCommand(spec), v.Metadata)
  }

  /** The tokens of a stream: its source, its codec name, the codec's own
      tokens, one disposition token iff a flag is set, and one metadata
      token per entry. */
  lemma {:induction false} StreamArgumentsLayout(o: StreamOptions, spec: string)
    ensures var args := o.GetArguments(spec);
      var c := Codecs.CodecArguments(o.Codec, "");
      var d := if |o.Dispositions| > 0 then 1 else 0;
      && |args| == 2 + |c| + d + |o.Metadata|
      && args[0] == "-map " + o.InputMap
      && args[1] == "-c" + spec + " " + Codecs.CodecName(o.Codec)
      && args[2..2 + |c|] == c
      && (d == 1 ==> args[2 + |c|] == "-disposition" + spec + " " + DispositionText(o.Dispositions))
      && forall j :: 0 <= j < |o.Metadata| ==>
           args[2 + |c| + d + j] == MetadataCommand(spec) + " " + o.Metadata[j].0 + "=" + o.Metadata[j].1
  {
  }

  /** The disposition token of valid options parses back to exactly the
      flags that were set, with their last values, in the order first set. */
  lemma {:induction false} DispositionTokenReadBack(o: StreamOptions, spec: string)
    requires o.Valid() && |o.Dispositions| > 0
    ensures var t := o.GetArguments(spec)[2 + |Codecs.CodecArguments(o.Codec, "")|];
      var prefix := "-disposition" + spec + " ";
      && StartsWith(t, prefix)
      && ParseDispositionText(t[|prefix|..]) == Some(o.Dispositions)
  {
    StreamArgumentsLayout(o, spec);
    FlagKeysArePlain();
    var t := o.GetArguments(spec)[2 + |Codecs.CodecArguments(o.Codec, "")|];
    var prefix := "-disposition" + spec + " ";
    assert t == prefix + DispositionText(o.Dispositions);
    assert t[|prefix|..] == DispositionText(o.Dispositions);
    forall i | 0 <= i < |o.Dispositions|
      ensures IsPlainKey(o.Dispositions[i].0)
    {
      var k :| 0 <= k < |FlagKeys| && FlagKeys[k] == o.Dispositions[i].0;
    }
    DispositionTextRoundTrip(o.Dispositions);
  }

  /** Every metadata value that is stored is rendered as a `key=value` token. */
  lemma {:induction false} MetadataRendered(o: StreamOptions, spec: string, key: string)
    requires Lookup(o.Metadata, key).Some?
    ensures MetadataCommand(spec) + " " + key + "=" + Lookup(o.Metadata, key).value in o.GetArguments(spec)
  {
    LookupFound(o.Metadata, key);
    var j :| 0 <= j < |o.Metadata| && o.Metadata[j] == (key, Lookup(o.Metadata, key).value);
    var tokens := MetadataTokens(MetadataCommand(spec), o.Metadata);
    var front := ["-map " + o.InputMap, "-c" + spec + " " + Codecs.CodecName(o.Codec)]
      + Codecs.CodecArguments(o.Codec, "") + DispositionTokens(spec, o.Dispositions);
    assert o.GetArguments(spec) == front + tokens;
    assert (front + tokens)[|front| + j] == tokens[j];
  }
}
