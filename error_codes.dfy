/** FFMpeg-Wrapper/ErrorCodes.cs: the table from ffmpeg's negative exit codes
    to their descriptions. The keys follow libavutil's AVERROR tag scheme: four
    bytes packed little-endian into a 32-bit integer (MKTAG), then negated
    (FFERRTAG). */
module ErrorCodes {
  import opened Wrappers
  import opened Text

  type Byte = b: int | 0 <= b < 256

  const TwoTo31: int := 0x8000_0000
  const TwoTo32: int := 0x1_0000_0000

  predicate IsInt32(x: int) {
    -TwoTo31 <= x < TwoTo31
  }

  /** The `(int)` cast of a `uint`: the same 32 bits read as two's complement. */
  function ToInt32(u: nat): (r: int)
    requires u < TwoTo32
    ensures IsInt32(r) && (r == u || r == u - TwoTo32)
    ensures r >= 0 <==> u < TwoTo31
  {
    if u < TwoTo31 then u else u - TwoTo32
  }

  /** Unary minus on an `int` in an unchecked context: -int.MinValue wraps to itself. */
  function Negate32(x: int): (r: int)
    requires IsInt32(x)
    ensures IsInt32(r)
    ensures x != -TwoTo31 ==> r == -x
  {
    if x == -TwoTo31 then x else -x
  }

  /** The `(byte)` cast of a `char`: its code modulo 256. */
  function CharToByte(c: char): Byte {
    (c as int) % 256
  }

  /** `a | b << 8 | c << 16 | d << 24` on `uint`: the four bytes occupy
      disjoint bit ranges, so the OR is their weighted sum. */
  function PackTag(a: Byte, b: Byte, c: Byte, d: Byte): (u: nat)
    ensures u < TwoTo32
  {
    a + b * 0x100 + c * 0x1_0000 + d * 0x100_0000
  }

  /** `MKTAG(a, b, c, d)`. */
  function MkTag(a: Byte, b: Byte, c: Byte, d: Byte): (r: int)
    ensures IsInt32(r)
  {
    ToInt32(PackTag(a, b, c, d))
  }

  /** `FFERRTAG(byte a, char b, char c, char d)`. */
  function FfErrTag(a: Byte, b: char, c: char, d: char): (r: int)
    ensures IsInt32(r)
  {
    Negate32(MkTag(a, CharToByte(b), CharToByte(c), CharToByte(d)))
  }

  /** `FFERRTAG(char a, char b, char c, char d)`: the first argument is cast to a byte. */
  function FfErrTagChar(a: char, b: char, c: char, d: char): (r: int)
    ensures IsInt32(r)
  {
    FfErrTag(CharToByte(a), b, c, d)
  }

  /** Each byte can be read back from the packed tag by shift and mask. */
  lemma {:induction false} PackTagBytes(a: Byte, b: Byte, c: Byte, d: Byte)
    ensures var u := PackTag(a, b, c, d);
      && u % 0x100 == a && u / 0x100 % 0x100 == b
      && u / 0x1_0000 % 0x100 == c && u / 0x100_0000 == d
  {
    var u := PackTag(a, b, c, d);
    ModUnique(u, 0x100, b + c * 0x100 + d * 0x1_0000, a);
    ModUnique(u, 0x1_0000, c + d * 0x100, a + b * 0x100);
    ModUnique(u, 0x100_0000, d, a + b * 0x100 + c * 0x1_0000);
    var q := u / 0x100;
    ModUnique(q, 0x100, c + d * 0x100, b);
    var q2 := u / 0x1_0000;
    ModUnique(q2, 0x100, d, c);
  }

  /** MKTAG is injective: different byte quadruples give different tags. */
  lemma {:induction false} MkTagInjective(a: Byte, b: Byte, c: Byte, d: Byte, a': Byte, b': Byte, c': Byte, d': Byte)
    requires MkTag(a, b, c, d) == MkTag(a', b', c', d')
    ensures a == a' && b == b' && c == c' && d == d'
  {
    var u, u' := PackTag(a, b, c, d), PackTag(a', b', c', d');
    assert u == u' by {
      if u < TwoTo31 && u' >= TwoTo31 {
        assert false;
      } else if u >= TwoTo31 && u' < TwoTo31 {
        assert false;
      }
    }
    PackTagBytes(a, b, c, d);
    PackTagBytes(a', b', c', d');
  }

  /** A tag whose first byte is non-zero and whose last byte is below 0x80 is
      positive, so the error code built from it is negative. */
  lemma {:induction false} FfErrTagNegative(a: Byte, b: char, c: char, d: char)
    requires a != 0 && CharToByte(d) < 0x80
    ensures FfErrTag(a, b, c, d) == -(PackTag(a, CharToByte(b), CharToByte(c), CharToByte(d)) as int)
    ensures FfErrTag(a, b, c, d) < 0
  {
  }

  /** The entries, named after their AVERROR constants, with the values their
      FFERRTAG and MKTAG expressions evaluate to (the `...Tags` lemmas below
      compute them). */
  const BsfNotFound: (int, string) := (-0x465342f8, "AVERROR_BSF_NOT_FOUND: Bitstream filter not found")
  const Bug: (int, string) := (-0x21475542, "AVERROR_BUG: Internal bug, also see AVERROR_BUG2")
  const BufferTooSmall: (int, string) := (-0x53465542, "AVERROR_BUFFER_TOO_SMALL: Buffer too small")
  const DecoderNotFound: (int, string) := (-0x434544f8, "AVERROR_DECODER_NOT_FOUND: Decoder not found")
  const DemuxerNotFound: (int, string) := (-0x4d4544f8, "AVERROR_DEMUXER_NOT_FOUND: Demuxer not found")
  const EncoderNotFound: (int, string) := (-0x434e45f8, "AVERROR_ENCODER_NOT_FOUND: Encoder not found")
  const Eof: (int, string) := (-0x20464f45, "AVERROR_EOF: End of file")
  const Exit: (int, string) := (-0x54495845, "AVERROR_EXIT: Immediate exit was requested; the called function should not be restarted")
  const External: (int, string) := (-0x20545845, "AVERROR_EXTERNAL: Generic error in an external library")
  const FilterNotFound: (int, string) := (-0x4c4946f8, "AVERROR_FILTER_NOT_FOUND: Filter not found")
  const Invaliddata: (int, string) := (-0x41444e49, "AVERROR_INVALIDDATA: Invalid data found when processing input")
  const MuxerNotFound: (int, string) := (-0x58554df8, "AVERROR_MUXER_NOT_FOUND: Muxer not found")
  const OptionNotFound: (int, string) := (-0x54504ff8, "AVERROR_OPTION_NOT_FOUND: Option not found")
  const Patchwelcome: (int, string) := (-0x45574150, "AVERROR_PATCHWELCOME: Not yet implemented in FFmpeg, patches welcome")
  const ProtocolNotFound: (int, string) := (-0x4f5250f8, "AVERROR_PROTOCOL_NOT_FOUND: Protocol not found")
  const StreamNotFound: (int, string) := (-0x525453f8, "AVERROR_STREAM_NOT_FOUND: Stream not found")
  const Bug2: (int, string) := (-0x20475542, "AVERROR_BUG2")
  const Unknown: (int, string) := (-0x4e4b4e55, "AVERROR_UNKNOWN: Unknown error, typically from an external library")
  const Experimental: (int, string) := (-0x2bb2afa8, "AVERROR_EXPERIMENTAL: Requested feature is flagged experimental. Set strict_std_compliance if you really want to use it.")
  const InputChanged: (int, string) := (-0x636e6701, "AVERROR_INPUT_CHANGED: Input changed between calls. Reconfiguration is required. (can be OR-ed with AVERROR_OUTPUT_CHANGED)")
  const OutputChanged: (int, string) := (-0x636e6702, "AVERROR_OUTPUT_CHANGED: Output changed between calls. Reconfiguration is required. (can be OR-ed with AVERROR_INPUT_CHANGED)")
  const HttpBadRequest: (int, string) := (-0x303034f8, "AVERROR_HTTP_BAD_REQUEST")
  const HttpUnauthorized: (int, string) := (-0x313034f8, "AVERROR_HTTP_UNAUTHORIZED")
  const HttpForbidden: (int, string) := (-0x333034f8, "AVERROR_HTTP_FORBIDDEN")
  const HttpNotFound: (int, string) := (-0x343034f8, "AVERROR_HTTP_NOT_FOUND")
  const HttpTooManyRequests: (int, string) := (-0x393234f8, "AVERROR_HTTP_TOO_MANY_REQUESTS")
  const HttpOther4xx: (int, string) := (-0x585834f8, "AVERROR_HTTP_OTHER_4XX")
  const HttpServerError: (int, string) := (-0x585835f8, "AVERROR_HTTP_SERVER_ERROR")

  /** The table in the order of its collection initialiser. */
  const Table: seq<(int, string)> := [
    BsfNotFound, Bug, BufferTooSmall, DecoderNotFound,
    DemuxerNotFound, EncoderNotFound, Eof, Exit,
    External, FilterNotFound, Invaliddata, MuxerNotFound,
    OptionNotFound, Patchwelcome, ProtocolNotFound, StreamNotFound,
    Bug2, Unknown, Experimental, InputChanged,
    OutputChanged, HttpBadRequest, HttpUnauthorized, HttpForbidden,
    HttpNotFound, HttpTooManyRequests, HttpOther4xx, HttpServerError
  ]

  function Keys(entries: seq<(int, string)>): (ks: seq<int>)
    ensures |ks| == |entries| && forall i :: 0 <= i < |entries| ==> ks[i] == entries[i].0
  {
    seq(|entries|, i requires 0 <= i < |entries| => entries[i].0)
  }

  predicate Distinct(ks: seq<int>) {
    forall i, j :: 0 <= i < j < |ks| ==> ks[i] != ks[j]
  }

  /** The map holding every entry, a later entry winning on a repeated key. */
  function ToMap(entries: seq<(int, string)>): map<int, string>
    decreases |entries|
  {
    if entries == [] then map[] else map[entries[0].0 := entries[0].1] + ToMap(entries[1..])
  }

  /** The collection initialiser: `Dictionary.Add` per entry in order, which
      throws (here `None`) on a key already present. */
  function AddAll(m: map<int, string>, entries: seq<(int, string)>): Option<map<int, string>>
    decreases |entries|
  {
    if entries == [] then Some(m)
    else if entries[0].0 in m then None
    else AddAll(m[entries[0].0 := entries[0].1], entries[1..])
  }

  /** Adding entry by entry succeeds iff no key repeats and none is already
      present, and then gives the starting map extended with every entry. */
  lemma {:induction false} AddAllSpec(m: map<int, string>, entries: seq<(int, string)>)
    ensures AddAll(m, entries).Some?
            <==> Distinct(Keys(entries)) && forall i :: 0 <= i < |entries| ==> entries[i].0 !in m
    ensures AddAll(m, entries).Some? ==> AddAll(m, entries).value == m + ToMap(entries)
    decreases |entries|
  {
    if entries != [] {
      var k, v, rest := entries[0].0, entries[0].1, entries[1..];
      if k !in m {
        AddAllSpec(m[k := v], rest);
        assert AddAll(m, entries) == AddAll(m[k := v], rest);
        FreshKeysStep(m, entries);
        ToMapCons(m, entries);
      }
    }
  }

  /** Adding the first entry to `m` and then the map of the rest is adding
      the map of all entries. */
  lemma {:induction false} ToMapCons(m: map<int, string>, entries: seq<(int, string)>)
    requires entries != []
    ensures m[entries[0].0 := entries[0].1] + ToMap(entries[1..]) == m + ToMap(entries)
  {
    var k, v, rest := entries[0].0, entries[0].1, entries[1..];
    var r, one := ToMap(rest), map[k := v];
    assert ToMap(entries) == one + r;
    assert m[k := v] == m + one;
    assert (m + one) + r == m + (one + r);
  }

  /** Keys are distinct and new to `m` iff, after the first entry is added,
      the remaining keys are distinct and new to the extended map. */
  lemma {:induction false} FreshKeysStep(m: map<int, string>, entries: seq<(int, string)>)
    requires entries != [] && entries[0].0 !in m
    ensures (Distinct(Keys(entries)) && forall i :: 0 <= i < |entries| ==> entries[i].0 !in m)
      <==> (Distinct(Keys(entries[1..])) && forall i :: 0 <= i < |entries| - 1 ==> entries[1..][i].0 !in m[entries[0].0 := entries[0].1])
  {
    var k, v, rest := entries[0].0, entries[0].1, entries[1..];
    var ks := Keys(entries);
    assert Keys(rest) == ks[1..];
    if Distinct(ks) && forall i :: 0 <= i < |entries| ==> entries[i].0 !in m {
      forall i | 0 <= i < |rest|
        ensures rest[i].0 !in m[k := v]
      {
        assert rest[i].0 == ks[i + 1] && k == ks[0];
      }
    }
    if Distinct(Keys(rest)) && forall i :: 0 <= i < |rest| ==> rest[i].0 !in m[k := v] {
      forall i, j | 0 <= i < j < |ks|
        ensures ks[i] != ks[j]
      {
        if i > 0 {
          assert ks[i] == Keys(rest)[i - 1] && ks[j] == Keys(rest)[j - 1];
        } else {
          assert ks[j] == rest[j - 1].0;
        }
      }
      forall i | 0 <= i < |entries|
        ensures entries[i].0 !in m
      {
        if i > 0 {
          assert entries[i] == rest[i - 1];
        }
      }
    }
  }

  /** The map built from entries has exactly their keys. */
  lemma {:induction false} ToMapKeys(entries: seq<(int, string)>)
    ensures forall k :: k in ToMap(entries) <==> k in Keys(entries)
    decreases |entries|
  {
    if entries != [] {
      var rest := entries[1..];
      ToMapKeys(rest);
      assert Keys(entries) == [entries[0].0] + Keys(rest);
    }
  }

  /** A map built from entries with distinct keys has one key per entry. */
  lemma {:induction false} ToMapSize(entries: seq<(int, string)>)
    requires Distinct(Keys(entries))
    ensures |ToMap(entries)| == |entries|
    decreases |entries|
  {
    if entries != [] {
      var rest := entries[1..];
      assert Keys(entries) == [entries[0].0] + Keys(rest);
      ToMapSize(rest);
      ToMapKeys(rest);
      var m := ToMap(rest);
      assert entries[0].0 !in m;
      assert ToMap(entries).Keys == m.Keys + {entries[0].0};
    }
  }

  /** The keys BsfNotFound to Eof are their FFERRTAG expressions. */
  lemma {:induction false} CoreTags()
    ensures BsfNotFound.0 == FfErrTag(0xF8, 'B', 'S', 'F')
    ensures Bug.0 == FfErrTagChar('B', 'U', 'G', '!')
    ensures BufferTooSmall.0 == FfErrTagChar('B', 'U', 'F', 'S')
    ensures DecoderNotFound.0 == FfErrTag(0xF8, 'D', 'E', 'C')
    ensures DemuxerNotFound.0 == FfErrTag(0xF8, 'D', 'E', 'M')
    ensures EncoderNotFound.0 == FfErrTag(0xF8, 'E', 'N', 'C')
    ensures Eof.0 == FfErrTagChar('E', 'O', 'F', ' ')
  {
  }

  /** The keys Exit to Patchwelcome are their FFERRTAG expressions. */
  lemma {:induction false} GeneralTags()
    ensures Exit.0 == FfErrTagChar('E', 'X', 'I', 'T')
    ensures External.0 == FfErrTagChar('E', 'X', 'T', ' ')
    ensures FilterNotFound.0 == FfErrTag(0xF8, 'F', 'I', 'L')
    ensures Invaliddata.0 == FfErrTagChar('I', 'N', 'D', 'A')
    ensures MuxerNotFound.0 == FfErrTag(0xF8, 'M', 'U', 'X')
    ensures OptionNotFound.0 == FfErrTag(0xF8, 'O', 'P', 'T')
    ensures Patchwelcome.0 == FfErrTagChar('P', 'A', 'W', 'E')
  {
  }

  /** The keys ProtocolNotFound to Unknown are their FFERRTAG expressions. */
  lemma {:induction false} StreamTags()
    ensures ProtocolNotFound.0 == FfErrTag(0xF8, 'P', 'R', 'O')
    ensures StreamNotFound.0 == FfErrTag(0xF8, 'S', 'T', 'R')
    ensures Bug2.0 == FfErrTagChar('B', 'U', 'G', ' ')
    ensures Unknown.0 == FfErrTagChar('U', 'N', 'K', 'N')
  {
  }

  /** The HTTP keys are their FFERRTAG expressions. */
  lemma {:induction false} HttpTags()
    ensures HttpBadRequest.0 == FfErrTag(0xF8, '4', '0', '0')
    ensures HttpUnauthorized.0 == FfErrTag(0xF8, '4', '0', '1')
    ensures HttpForbidden.0 == FfErrTag(0xF8, '4', '0', '3')
    ensures HttpNotFound.0 == FfErrTag(0xF8, '4', '0', '4')
    ensures HttpTooManyRequests.0 == FfErrTag(0xF8, '4', '2', '9')
    ensures HttpOther4xx.0 == FfErrTag(0xF8, '4', 'X', 'X')
    ensures HttpServerError.0 == FfErrTag(0xF8, '5', 'X', 'X')
  {
  }

  /** The values of the table's 28 keys, in order. */
  lemma {:induction false} TableKeys()
    ensures Keys(Table) == [-0x465342f8, -0x21475542, -0x53465542, -0x434544f8, -0x4d4544f8, -0x434e45f8,
      -0x20464f45, -0x54495845, -0x20545845, -0x4c4946f8, -0x41444e49, -0x58554df8,
      -0x54504ff8, -0x45574150, -0x4f5250f8, -0x525453f8, -0x20475542, -0x4e4b4e55,
      -0x2bb2afa8, -0x636e6701, -0x636e6702, -0x303034f8, -0x313034f8, -0x333034f8,
      -0x343034f8, -0x393234f8, -0x585834f8, -0x585835f8]
  {
  }

  /** Two lists without repeats and without a common value join into one
      without repeats. */
  lemma {:induction false} DistinctJoin(a: seq<int>, b: seq<int>)
    requires Distinct(a) && Distinct(b)
    requires forall i, j :: 0 <= i < |a| && 0 <= j < |b| ==> a[i] != b[j]
    ensures Distinct(a + b)
  {
    var ab := a + b;
    forall i, j | 0 <= i < j < |ab|
      ensures ab[i] != ab[j]
    {
      if j < |a| {
        assert ab[i] == a[i] && ab[j] == a[j];
      } else if i < |a| {
        assert ab[i] == a[i] && ab[j] == b[j - |a|];
      } else {
        assert ab[i] == b[i - |a|] && ab[j] == b[j - |a|];
      }
    }
  }

  /** The first 14 key values are pairwise distinct and all negative. */
  lemma {:induction false} FirstKeysDistinct(ks: seq<int>)
    requires ks == [-0x465342f8, -0x21475542, -0x53465542, -0x434544f8, -0x4d4544f8, -0x434e45f8,
      -0x20464f45, -0x54495845, -0x20545845, -0x4c4946f8, -0x41444e49, -0x58554df8,
      -0x54504ff8, -0x45574150]
    ensures Distinct(ks) && forall i :: 0 <= i < |ks| ==> ks[i] < 0
  {
  }

  /** The last 14 key values are pairwise distinct and all negative. */
  lemma {:induction false} LastKeysDistinct(ks: seq<int>)
    requires ks == [-0x4f5250f8, -0x525453f8, -0x20475542, -0x4e4b4e55,
      -0x2bb2afa8, -0x636e6701, -0x636e6702, -0x303034f8, -0x313034f8, -0x333034f8,
      -0x343034f8, -0x393234f8, -0x585834f8, -0x585835f8]
    ensures Distinct(ks) && forall i :: 0 <= i < |ks| ==> ks[i] < 0
  {
  }

  /** No value among the first 14 keys is among the last 14. */
  lemma {:induction false} KeyHalvesApart(a: seq<int>, b: seq<int>)
    requires a == [-0x465342f8, -0x21475542, -0x53465542, -0x434544f8, -0x4d4544f8, -0x434e45f8,
      -0x20464f45, -0x54495845, -0x20545845, -0x4c4946f8, -0x41444e49, -0x58554df8,
      -0x54504ff8, -0x45574150]
    requires b == [-0x4f5250f8, -0x525453f8, -0x20475542, -0x4e4b4e55,
      -0x2bb2afa8, -0x636e6701, -0x636e6702, -0x303034f8, -0x313034f8, -0x333034f8,
      -0x343034f8, -0x393234f8, -0x585834f8, -0x585835f8]
    ensures forall i, j :: 0 <= i < |a| && 0 <= j < |b| ==> a[i] != b[j]
  {
  }

  /** The 28 key values are pairwise distinct and all negative. */
  lemma {:induction false} KeyValuesDistinct(ks: seq<int>)
    requires ks == [-0x465342f8, -0x21475542, -0x53465542, -0x434544f8, -0x4d4544f8, -0x434e45f8,
      -0x20464f45, -0x54495845, -0x20545845, -0x4c4946f8, -0x41444e49, -0x58554df8,
      -0x54504ff8, -0x45574150,
      -0x4f5250f8, -0x525453f8, -0x20475542, -0x4e4b4e55,
      -0x2bb2afa8, -0x636e6701, -0x636e6702, -0x303034f8, -0x313034f8, -0x333034f8,
      -0x343034f8, -0x393234f8, -0x585834f8, -0x585835f8]
    ensures Distinct(ks) && forall i :: 0 <= i < |ks| ==> ks[i] < 0
  {
    var a, b := ks[..14], ks[14..];
    FirstKeysDistinct(a);
    LastKeysDistinct(b);
    KeyHalvesApart(a, b);
    DistinctJoin(a, b);
    assert ks == a + b;
  }

  /** The table's keys are pairwise distinct and all negative. */
  lemma {:induction false} TableKeysDistinct()
    ensures Distinct(Keys(Table)) && forall i :: 0 <= i < |Table| ==> Table[i].0 < 0
  {
    TableKeys();
    KeyValuesDistinct(Keys(Table));
  }

  /** Looking up an entry's key in the map built from entries with distinct keys finds its description. */
  lemma {:induction false} ToMapLookup(entries: seq<(int, string)>, i: nat)
    requires Distinct(Keys(entries)) && i < |entries|
    ensures entries[i].0 in ToMap(entries) && ToMap(entries)[entries[i].0] == entries[i].1
    decreases |entries|
  {
    var rest := entries[1..];
    assert Keys(rest) == Keys(entries)[1..];
    if i > 0 {
      ToMapLookup(rest, i - 1);
      assert rest[i - 1] == entries[i];
    } else {
      ToMapKeys(rest);
      assert Keys(entries) == [entries[0].0] + Keys(rest);
    }
  }

  /** `ErrorCodes.Errors`. */
  const Errors: map<int, string> := ToMap(Table)

  /** The initialiser builds `Errors` without throwing, and it has 28 entries. */
  lemma {:induction false} ErrorsBuilt()
    ensures AddAll(map[], Table) == Some(Errors)
    ensures |Errors| == 28
  {
    TableKeysDistinct();
    AddAllSpec(map[], Table);
    ToMapSize(Table);
    assert map[] + Errors == Errors;
  }

  /** Every table key maps to its own description. */
  lemma {:induction false} ErrorsLookup(i: nat)
    requires i < |Table|
    ensures Table[i].0 in Errors && Errors[Table[i].0] == Table[i].1
  {
    TableKeysDistinct();
    ToMapLookup(Table, i);
  }
}
