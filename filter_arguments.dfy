/** `FilterArguments` (FFMpeg-Wrapper/ffmpeg/FilterArguments.cs): a filter
    graph built up by appending input pads, filters and output pads, and
    rendered as a single `-filter_complex "…"` token. */
module FilterGraphs {
  import opened Wrappers
  import opened Text
  import opened Utils
  import opened Filters
  import Ffprobe

  /** A named pad: the escaped name in brackets. */
  function NamedPad(name: string): string {
    "[" + GetEscapedString(name) + "]"
  }

  /** A pad naming stream `streamIndex` of input `inputFileIndex`. */
  function IndexPad(inputFileIndex: int, streamIndex: int): string {
    "[" + IntToString(inputFileIndex) + ":" + IntToString(streamIndex) + "]"
  }

  /** The name a named pad carries comes back by unescaping what is
      between its brackets. */
  lemma {:induction false} NamedPadReadBack(name: string)
    ensures var pad := NamedPad(name);
      && |pad| >= 2 && pad[0] == '[' && pad[|pad| - 1] == ']'
      && UnescapeChar(pad[1..|pad| - 1], '"') == name
  {
    var pad := NamedPad(name);
    assert pad[1..|pad| - 1] == EscapeChar(name, '"');
    EscapeRoundTrip(name, '"');
  }

  /** The input and stream indices of an index pad read back as the ratio
      between its brackets. */
  lemma {:induction false} IndexPadReadBack(inputFileIndex: int, streamIndex: int)
    ensures var pad := IndexPad(inputFileIndex, streamIndex);
      && |pad| >= 2 && pad[0] == '[' && pad[|pad| - 1] == ']'
      && Ffprobe.ParseRatioInt(Some(pad[1..|pad| - 1]), ':') == Some((inputFileIndex, streamIndex))
  {
    var pad := IndexPad(inputFileIndex, streamIndex);
    assert pad[1..|pad| - 1] == IntToString(inputFileIndex) + [':'] + IntToString(streamIndex);
    Ffprobe.ParseRatioIntRoundTrip(inputFileIndex, streamIndex, ':');
  }

  /** The pads `AddInputs(names)` or `AddOutputs(names)` append. */
  function NamedPads(names: seq<string>): (pads: seq<string>)
    ensures |pads| == |names|
  {
    seq(|names|, k requires 0 <= k < |names| => NamedPad(names[k]))
  }

  /** The pads `AddInputs(inputs)` appends for (input, stream) pairs. */
  function IndexPads(inputs: seq<(int, int)>): (pads: seq<string>)
    ensures |pads| == |inputs|
  {
    seq(|inputs|, k requires 0 <= k < |inputs| => IndexPad(inputs[k].0, inputs[k].1))
  }

  /** One more pair adds its own pad to the prefix of the pads. */
  lemma {:induction false} IndexPadsStep(inputs: seq<(int, int)>, i: nat)
    requires i < |inputs|
    ensures IndexPads(inputs)[..i + 1] == IndexPads(inputs)[..i] + [IndexPad(inputs[i].0, inputs[i].1)]
  {
    var pads := IndexPads(inputs);
    assert pads[i] == IndexPad(inputs[i].0, inputs[i].1);
  }

  /** The overlays among a list of filters: what their texts depend on. */
  function FiltersRepr(fs: seq<Filter>): set<object> {
    if fs == [] then {} else FiltersRepr(fs[..|fs| - 1]) + FilterObjects(fs[|fs| - 1])
  }

  /** The text of each filter, in order. */
  function FilterTexts(fs: seq<Filter>): (texts: seq<string>)
    reads FiltersRepr(fs)
    ensures |texts| == |fs|
  {
    if fs == [] then []
    else FilterTexts(fs[..|fs| - 1]) + [FilterText(fs[|fs| - 1])]
  }

  const GraphOpen: string := "-filter_complex \""
  const GraphClose: string := "\""

  /** The single token `GetArguments` yields. */
  function FilterGraph(inputs: seq<string>, texts: seq<string>, outputs: seq<string>): string {
    GraphOpen + Concat(inputs) + Join(",", texts) + Concat(outputs) + GraphClose
  }

  /** No character of s is c. */
  predicate Lacks(s: string, c: char) {
    forall j :: 0 <= j < |s| ==> s[j] != c
  }

  /** A concatenation lacks a character its two parts lack. */
  lemma {:induction false} LacksConcat(a: string, b: string, c: char)
    requires Lacks(a, c) && Lacks(b, c)
    ensures Lacks(a + b, c)
  {
    forall j | 0 <= j < |a + b|
      ensures (a + b)[j] != c
    {
      if j >= |a| {
        assert (a + b)[j] == b[j - |a|];
      }
    }
  }

  /** A number written in decimal holds no comma. */
  lemma {:induction false} NoCommaInInt(i: int)
    ensures Lacks(IntToString(i), ',')
  {
    Ffprobe.NoSeparatorInInt(i, ',');
  }

  /** The fixed parts of the filter texts hold no comma. */
  lemma {:induction false} FixedTextsHaveNoComma()
    ensures Lacks("scale=", ',') && Lacks(":", ',')
    ensures Lacks(OverlayXPrefix, ',') && Lacks(OverlayYPrefix, ',')
  {
  }

  /** No filter text holds a comma: scale and overlay write only digits,
      signs, letters and `=:-_`. */
  lemma {:induction false} FilterTextHasNoComma(f: Filter)
    ensures CountChar(FilterText(f), ',') == 0
  {
    FixedTextsHaveNoComma();
    match f {
      case ScaleFilter(s) =>
        var w, h := IntToString(s.Width), IntToString(s.Height);
        NoCommaInInt(s.Width);
        NoCommaInInt(s.Height);
        LacksConcat("scale=", w, ',');
        LacksConcat("scale=" + w, ":", ',');
        LacksConcat("scale=" + w + ":", h, ',');
      case OverlayFilter(o) =>
        var p := IntToString(o.CornerPadding);
        NoCommaInInt(o.CornerPadding);
        LacksConcat(OverlayXPrefix, p, ',');
        LacksConcat(OverlayXPrefix + p, ":", ',');
        LacksConcat(OverlayXPrefix + p + ":", OverlayYPrefix, ',');
        LacksConcat(OverlayXPrefix + p + ":" + OverlayYPrefix, p, ',');
    }
    CountCharAbsent(FilterText(f), ',');
  }

  /** n filters are joined with exactly n - 1 commas. */
  lemma {:induction false} FilterCommaCount(fs: seq<Filter>)
    requires fs != []
    ensures CountChar(Join(",", FilterTexts(fs)), ',') == |fs| - 1
  {
    var texts := FilterTexts(fs);
    forall i | 0 <= i < |texts|
      ensures CountChar(texts[i], ',') == 0
    {
      FilterTextAt(fs, i);
      FilterTextHasNoComma(fs[i]);
    }
    JoinSeparatorCount(',', texts);
  }

  /** Entry i of the texts is the text of filter i. */
  lemma {:induction false} FilterTextAt(fs: seq<Filter>, i: nat)
    requires i < |fs|
    ensures FilterTexts(fs)[i] == FilterText(fs[i])
  {
    if i < |fs| - 1 {
      var init := fs[..|fs| - 1];
      assert init[i] == fs[i];
      FilterTextAt(init, i);
    }
  }

  /** Appending one more part to a concatenation. */
  lemma {:induction false} ConcatStep(parts: seq<string>, i: nat)
    requires i < |parts|
    ensures Concat(parts[..i + 1]) == Concat(parts[..i]) + parts[i]
  {
    assert parts[..i + 1][..i] == parts[..i];
  }

  /** Appending one more part to a joined list: a separator first unless
      it is the first part. */
  lemma {:induction false} JoinStep(parts: seq<string>, i: nat)
    requires i < |parts|
    ensures Join(",", parts[..i + 1]) ==
      (if i == 0 then "" else Join(",", parts[..i]) + ",") + parts[i]
  {
    assert parts[..i + 1][..i] == parts[..i];
  }

  /** One step of the builder loop over joined parts. */
  lemma {:induction false} JoinNext(head: string, parts: seq<string>, i: nat, arg: string, next: string)
    requires i < |parts| && arg == head + Join(",", parts[..i])
    requires next == (if i == 0 then arg else arg + ",") + parts[i]
    ensures next == head + Join(",", parts[..i + 1])
  {
    JoinStep(parts, i);
  }

  /** The `foreach` that appends every part to the builder. */
  method AppendAll(head: string, parts: seq<string>) returns (arg: string)
    ensures arg == head + Concat(parts)
  {
    arg := head;
    for i := 0 to |parts|
      invariant arg == head + Concat(parts[..i])
    {
      ConcatStep(parts, i);
      arg := arg + parts[i];
    }
    assert parts[..|parts|] == parts;
  }

  /** `FilterArguments`: the three lists, each appended to by its own `Add*`. */
  class FilterArguments {
    var Inputs: seq<string>
    var Filters: seq<Filter>
    var OutputNames: seq<string>

    constructor ()
      ensures Inputs == [] && Filters == [] && OutputNames == []
    {
      Inputs := [];
      Filters := [];
      OutputNames := [];
    }

    /** `AddInput(string)`: one named input pad. */
    method AddInput(namedInput: string)
      modifies this
      ensures Inputs == old(Inputs) + [NamedPad(namedInput)]
      ensures Filters == old(Filters) && OutputNames == old(OutputNames)
    {
      Inputs := Inputs + [NamedPad(namedInput)];
    }

    /** `AddInputs(names)`: `AddInput` for each name, in order. */
    method AddInputs(namedInputs: seq<string>)
      modifies this
      ensures Inputs == old(Inputs) + NamedPads(namedInputs)
      ensures Filters == old(Filters) && OutputNames == old(OutputNames)
    {
      for i := 0 to |namedInputs|
        invariant Inputs == old(Inputs) + NamedPads(namedInputs)[..i]
        invariant Filters == old(Filters) && OutputNames == old(OutputNames)
      {
        assert NamedPads(namedInputs)[..i + 1] == NamedPads(namedInputs)[..i] + [NamedPad(namedInputs[i])];
        AddInput(namedInputs[i]);
      }
      assert NamedPads(namedInputs)[..|namedInputs|] == NamedPads(namedInputs);
    }

    /** `AddInput(int, int)`: one pad naming a stream of an input file. */
    method AddInputIndex(inputFileIndex: int, streamIndex: int)
      modifies this
      ensures Inputs == old(Inputs) + [IndexPad(inputFileIndex, streamIndex)]
      ensures Filters == old(Filters) && OutputNames == old(OutputNames)
    {
      Inputs := Inputs + [IndexPad(inputFileIndex, streamIndex)];
    }

    /** `AddInputs((int, int)…)`: `AddInput(i, s)` for each pair, in order. */
    method AddInputIndices(inputs: seq<(int, int)>)
      modifies this
      ensures Inputs == old(Inputs) + IndexPads(inputs)
      ensures Filters == old(Filters) && OutputNames == old(OutputNames)
    {
      for i := 0 to |inputs|
        invariant Inputs == old(Inputs) + IndexPads(inputs)[..i]
        invariant Filters == old(Filters) && OutputNames == old(OutputNames)
      {
        IndexPadsStep(inputs, i);
        AddInputIndex(inputs[i].0, inputs[i].1);
      }
      assert IndexPads(inputs)[..|inputs|] == IndexPads(inputs);
    }

    /** `AddFilter`: one filter at the end of the chain. */
    method AddFilter(filter: Filter)
      modifies this
      ensures Filters == old(Filters) + [filter]
      ensures Inputs == old(Inputs) && OutputNames == old(OutputNames)
    {
      Filters := Filters + [filter];
    }

    /** `AddOutput`: one named output pad. */
    method AddOutput(outputStreamName: string)
      modifies this
      ensures OutputNames == old(OutputNames) + [NamedPad(outputStreamName)]
      ensures Inputs == old(Inputs) && Filters == old(Filters)
    {
      OutputNames := OutputNames + [NamedPad(outputStreamName)];
    }

    /** `AddOutputs`: `AddOutput` for each name, in order. */
    method AddOutputs(outputStreamNames: seq<string>)
      modifies this
      ensures OutputNames == old(OutputNames) + NamedPads(outputStreamNames)
      ensures Inputs == old(Inputs) && Filters == old(Filters)
    {
      for i := 0 to |outputStreamNames|
        invariant OutputNames == old(OutputNames) + NamedPads(outputStreamNames)[..i]
        invariant Inputs == old(Inputs) && Filters == old(Filters)
      {
        assert NamedPads(outputStreamNames)[..i + 1] == NamedPads(outputStreamNames)[..i] + [NamedPad(outputStreamNames[i])];
        AddOutput(outputStreamNames[i]);
      }
      assert NamedPads(outputStreamNames)[..|outputStreamNames|] == NamedPads(outputStreamNames);
    }

    /** `GetArguments()`: one token holding the input pads, the filters
        separated by commas, and the output pads, all inside quotes. */
    method GetArguments() returns (args: seq<string>)
      ensures args == [FilterGraph(Inputs, FilterTexts(Filters), OutputNames)]
    {
      var head := AppendAll(GraphOpen, Inputs);
      var pads := AppendAll("", OutputNames);
      assert pads == Concat(OutputNames);
      var fs := Filters;
      ghost var texts := FilterTexts(fs);
      var arg := head;
      var first := true;
      for i := 0 to |fs|
        invariant first <==> i == 0
        invariant FilterTexts(fs) == texts
        invariant arg == head + Join(",", texts[..i])
      {
        var text := FilterText(fs[i]);
        FilterTextAt(fs, i);
        var next := arg;
        if !first {
          next := next + ",";
        }
        next := next + text;
        JoinNext(head, texts, i, arg, next);
        arg := next;
        first := false;
      }
      assert texts[..|fs|] == texts;
      args := [arg + pads + GraphClose];
    }
  }
}
