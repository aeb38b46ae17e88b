/** Command-line option tokens of the form `-flag value`: the generators
    of the wrapper emit one such token per set option, and ffmpeg reads an
    option's value back from the first token carrying its flag. */
module Tokens {
  import opened Wrappers
  import opened Text

  /** An option name: a leading `-` and no space. */
  predicate IsFlag(f: string) {
    |f| >= 2 && f[0] == '-' && forall i :: 0 <= i < |f| ==> f[i] != ' '
  }

  /** Pairwise different option names. */
  predicate DistinctFlags(flags: seq<string>) {
    && (forall i :: 0 <= i < |flags| ==> IsFlag(flags[i]))
    && (forall i, j :: 0 <= i < j < |flags| ==> flags[i] != flags[j])
  }

  /** The token `-flag value` when the value is present, nothing otherwise. */
  function Opt(flag: string, v: Option<string>): (r: seq<string>)
    ensures |r| == if v.Some? then 1 else 0
  {
    if v.Some? then [flag + " " + v.value] else []
  }

  /** One optional token per flag, in the order of the flags. */
  function Opts(flags: seq<string>, values: seq<Option<string>>): seq<string>
    requires |flags| == |values|
  {
    if flags == [] then [] else Opt(flags[0], values[0]) + Opts(flags[1..], values[1..])
  }

  /** What follows `flag` and a space in the first token that starts with them. */
  function FlagValue(tokens: seq<string>, flag: string): Option<string> {
    if tokens == [] then None
    else if StartsWith(tokens[0], flag + " ") then Some(tokens[0][|flag| + 1..])
    else FlagValue(tokens[1..], flag)
  }

  /** The first occurrence of a flag is found in the earlier part of a token
      list when it has one there, and in the later part otherwise. */
  lemma {:induction false} FlagValueAppend(a: seq<string>, b: seq<string>, flag: string)
    ensures FlagValue(a + b, flag) == if FlagValue(a, flag).Some? then FlagValue(a, flag) else FlagValue(b, flag)
  {
    if a != [] {
      assert (a + b)[0] == a[0];
      assert (a + b)[1..] == a[1..] + b;
      FlagValueAppend(a[1..], b, flag);
    } else {
      assert a + b == b;
    }
  }

  /** A `-f value` token starts with `g ` only when g is f. */
  lemma {:induction false} FlagTokenMatch(f: string, g: string, x: string)
    requires IsFlag(f) && IsFlag(g)
    ensures StartsWith(f + " " + x, g + " ") <==> f == g
  {
    var t := f + " " + x;
    if |g| < |f| {
      assert t[|g|] == f[|g|];
      assert (g + " ")[|g|] == ' ';
    } else if |g| > |f| {
      assert t[|f|] == ' ';
      assert (g + " ")[|f|] == g[|f|];
    } else if StartsWith(t, g + " ") {
      assert f == t[..|f|] == g;
    }
  }

  /** An optional token answers for its own flag only. */
  lemma {:induction false} FlagValueOpt(f: string, v: Option<string>, g: string)
    requires IsFlag(f) && IsFlag(g)
    ensures FlagValue(Opt(f, v), g) == if v.Some? && f == g then v else None
  {
    if v.Some? {
      var t := f + " " + v.value;
      FlagTokenMatch(f, g, v.value);
      assert Opt(f, v)[1..] == [];
      if f == g {
        assert t[|f| + 1..] == v.value;
      }
    }
  }

  /** Reading flag k back from the tokens of distinct flags gives value k. */
  lemma {:induction false} FlagValueOpts(flags: seq<string>, values: seq<Option<string>>, k: nat)
    requires |flags| == |values| && DistinctFlags(flags) && k < |flags|
    ensures FlagValue(Opts(flags, values), flags[k]) == values[k]
  {
    assert Opts(flags, values) == Opt(flags[0], values[0]) + Opts(flags[1..], values[1..]);
    FlagValueAppend(Opt(flags[0], values[0]), Opts(flags[1..], values[1..]), flags[k]);
    FlagValueOpt(flags[0], values[0], flags[k]);
    if k > 0 {
      assert flags[k] == flags[1..][k - 1] && values[k] == values[1..][k - 1];
      assert flags[0] != flags[k];
      FlagValueOpts(flags[1..], values[1..], k - 1);
    } else {
      FlagValueOptsAbsent(flags[1..], values[1..], flags[0]);
    }
  }

  /** A flag that is not among the options is not found in their tokens. */
  lemma {:induction false} FlagValueOptsAbsent(flags: seq<string>, values: seq<Option<string>>, g: string)
    requires |flags| == |values| && DistinctFlags(flags) && IsFlag(g)
    requires forall i :: 0 <= i < |flags| ==> flags[i] != g
    ensures FlagValue(Opts(flags, values), g) == None
  {
    if flags != [] {
      FlagValueAppend(Opt(flags[0], values[0]), Opts(flags[1..], values[1..]), g);
      FlagValueOpt(flags[0], values[0], g);
      FlagValueOptsAbsent(flags[1..], values[1..], g);
    }
  }

  /** The tokens of options carry one token per present value, each starting with `-`. */
  lemma {:induction false} OptsShape(flags: seq<string>, values: seq<Option<string>>)
    requires |flags| == |values| && DistinctFlags(flags)
    ensures |Opts(flags, values)| == CountPresent(values)
    ensures forall i :: 0 <= i < |Opts(flags, values)| ==> |Opts(flags, values)[i]| > 0 && Opts(flags, values)[i][0] == '-'
  {
    if flags != [] {
      OptsShape(flags[1..], values[1..]);
      var head, rest := Opt(flags[0], values[0]), Opts(flags[1..], values[1..]);
      forall i | 0 <= i < |head + rest|
        ensures |(head + rest)[i]| > 0 && (head + rest)[i][0] == '-'
      {
        if i < |head| {
          assert (head + rest)[i] == flags[0] + " " + values[0].value;
        } else {
          assert (head + rest)[i] == rest[i - |head|];
        }
      }
    }
  }

  /** How many of the values are present. */
  function CountPresent(values: seq<Option<string>>): nat {
    if values == [] then 0 else (if values[0].Some? then 1 else 0) + CountPresent(values[1..])
  }

  /** A token that does not start with `-` answers for no flag. */
  lemma {:induction false} FlagValueNonOption(t: string, g: string)
    requires IsFlag(g) && (|t| == 0 || t[0] != '-')
    ensures FlagValue([t], g) == None
  {
    assert [t][1..] == [];
  }

  /** The quoted form of a path: the argument ffmpeg takes a file name as. */
  function Quoted(path: string): (q: string)
    ensures |q| == |path| + 2 && q[0] == '"' && q[|q| - 1] == '"'
  {
    "\"" + path + "\""
  }

  /** `-flag "path"`, the form of an `-i` input token. */
  function PathOption(flag: string, path: string): string {
    flag + " " + Quoted(path)
  }
}
