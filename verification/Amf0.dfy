/**
  The AMF0 codec (amf.go:120-387; sections 2.2 to 2.11 of the AMF0 specification).

  A `Value` is what the server works with; objects are maps, whose fields are written in no particular order. A
  `Tree` is a value together with the order its fields were written in, which is what the bytes determine.
 */
module Amf0 {
  import opened Bytes

  /** A float64, of which only the 8 bytes matter here. */
  type Double = b: seq<byte> | |b| == 8 witness [0, 0, 0, 0, 0, 0, 0, 0]

  datatype Value =
    | Number(bits: Double)
    | Boolean(b: bool)
    | Str(s: seq<byte>)
    | Null
    | Object(fields: map<seq<byte>, Value>)

  datatype Tree =
    | TNumber(bits: Double)
    | TBoolean(b: bool)
    | TStr(s: seq<byte>)
    | TNull
    | TObject(fields: seq<Field>)

  datatype Field = Field(key: seq<byte>, value: Tree)

  // ---------------------------------------------------------------- meaning

  function Meaning(t: Tree): Value
    decreases t
  {
    match t
    case TNumber(bits) => Number(bits)
    case TBoolean(b) => Boolean(b)
    case TStr(s) => Str(s)
    case TNull => Null
    case TObject(fields) => Object(FieldMap(fields, map[]))
  }

  /** Fields assigned in order, so that a later one of the same key wins. */
  function FieldMap(fields: seq<Field>, m: map<seq<byte>, Value>): map<seq<byte>, Value>
    decreases fields
  {
    if fields == [] then m else FieldMap(fields[1..], m[fields[0].key := Meaning(fields[0].value)])
  }

  /** What AMF0 can carry: strings and keys below 65536 bytes, and no empty key, which would end the object. */
  predicate Encodable(v: Value)
    decreases v
  {
    match v
    case Str(s) => |s| < TWO_TO_THE_16
    case Object(fields) => forall k | k in fields :: 0 < |k| < TWO_TO_THE_16 && Encodable(fields[k])
    case _ => true
  }

  predicate TreeEncodable(t: Tree)
    decreases t
  {
    match t
    case TStr(s) => |s| < TWO_TO_THE_16
    case TObject(fields) => FieldsEncodable(fields)
    case _ => true
  }

  predicate FieldsEncodable(fields: seq<Field>)
    decreases fields
  {
    fields == [] ||
    (0 < |fields[0].key| < TWO_TO_THE_16 && TreeEncodable(fields[0].value) && FieldsEncodable(fields[1..]))
  }

  /** No key twice in any object: the order of a Go map. */
  predicate Orderly(t: Tree)
    decreases t
  {
    t.TObject? ==> FieldsOrderly(t.fields)
  }

  predicate FieldsOrderly(fields: seq<Field>)
    decreases fields
  {
    fields == [] ||
    ((forall f :: f in fields[1..] ==> f.key != fields[0].key) &&
     Orderly(fields[0].value) && FieldsOrderly(fields[1..]))
  }

  // ---------------------------------------------------------------- printing

  const END: seq<byte> := [0x00, 0x00, 0x09]

  function Text(s: seq<byte>): seq<byte> {
    ToBE(|s|, 2) + s
  }

  function Print(t: Tree): (r: seq<byte>)
    ensures |r| >= 1
    decreases t
  {
    match t
    case TNumber(bits) => [0x00] + bits
    case TBoolean(b) => [0x01, if b then 0x01 else 0x00]
    case TStr(s) => [0x02] + Text(s)
    case TNull => [0x05]
    case TObject(fields) => [0x03] + (PrintFields(fields) + END)
  }

  function PrintFields(fields: seq<Field>): seq<byte>
    decreases fields
  {
    if fields == [] then []
    else Text(fields[0].key) + (Print(fields[0].value) + PrintFields(fields[1..]))
  }

  function PrintAll(ts: seq<Tree>): seq<byte> {
    if ts == [] then [] else Print(ts[0]) + PrintAll(ts[1..])
  }

  // ---------------------------------------------------------------- parsing

  datatype Error = Eof | UnexpectedEof | Untreated(marker: byte)

  datatype Parsed = Parsed(value: Value, rest: seq<byte>) | Failed(error: Error)

  /** io.ReadFull on what is too short: EOF if there is nothing at all. */
  function Short(b: seq<byte>): Error {
    if b == [] then Eof else UnexpectedEof
  }

  /** AmfDecode. A string that is cut short reads as empty, without an error. */
  function Parse(b: seq<byte>): (r: Parsed)
    ensures r.Parsed? ==> |r.rest| < |b|
    decreases |b|
  {
    if b == [] then Failed(Eof)
    else
      var r := b[1..];
      match b[0]
      case 0 => if |r| < 8 then Failed(Short(r)) else Parsed(Number(r[..8]), r[8..])
      case 1 => if |r| < 1 then Failed(Eof) else Parsed(Boolean(r[0] != 0), r[1..])
      case 2 =>
        if |r| < 2 then Failed(Short(r))
        else var (s, rest) := ParseText(FromBE(r[..2]), r[2..]); Parsed(Str(s), rest)
      case 3 => ParseFields(r, map[])
      case 5 => Parsed(Null, r)
      case 8 => if |r| < 4 then Failed(Short(r)) else ParseFields(r[4..], map[])
      case _ => Failed(Untreated(b[0]))
  }

  /** ReadString with its error dropped. */
  function ParseText(length: nat, b: seq<byte>): (r: (seq<byte>, seq<byte>))
    ensures |r.1| <= |b| && |r.0| <= length
    ensures |b| < length ==> r.1 == []
    ensures |b| >= length ==> |r.0| == length
  {
    if |b| < length then ([], []) else (b[..length], b[length..])
  }

  /** Amf0DecodeObject: fields until a zero length, which a stream that has ended reads as too. */
  function ParseFields(b: seq<byte>, m: map<seq<byte>, Value>): (r: Parsed)
    ensures r.Parsed? ==> |r.rest| <= |b|
    decreases |b|
  {
    var length := if |b| < 2 then 0 else FromBE(b[..2]);
    var r := if |b| < 2 then [] else b[2..];
    if length == 0 then Parsed(Object(m), if r == [] then [] else r[1..])
    else
      var (key, r1) := ParseText(length, r);
      match Parse(r1)
      case Failed(e) => Failed(e)
      case Parsed(v, r2) => ParseFields(r2, m[key := v])
  }

  /** AmfUnmarshal: values until an error, which at the end of the stream is EOF. */
  function ParseAll(b: seq<byte>): (r: (seq<Value>, Error))
    decreases |b|
  {
    match Parse(b)
    case Failed(e) => ([], e)
    case Parsed(v, rest) => var (vs, e) := ParseAll(rest); ([v] + vs, e)
  }

  // ---------------------------------------------------------------- the round trip

  lemma TextReadsBack(s: seq<byte>, rest: seq<byte>)
    requires |s| < TWO_TO_THE_16
    ensures var b := Text(s) + rest;
      |b| >= 2 && FromBE(b[..2]) == |s| && b[2..] == s + rest && ParseText(|s|, b[2..]) == (s, rest)
  {
    assert Pow256(2) == TWO_TO_THE_16;
    FieldRoundTrip(|s|, 2, BE);
    assert (Text(s) + rest)[..2] == ToBE(|s|, 2);
    assert (s + rest)[..|s|] == s;
  }

  lemma {:induction false} PrintReadsBack(t: Tree, rest: seq<byte>)
    requires TreeEncodable(t)
    ensures Parse(Print(t) + rest) == Parsed(Meaning(t), rest)
    decreases t
  {
    hide ToBE, FromBE;
    var b := Print(t) + rest;
    match t
    case TNumber(bits) =>
      assert b[1..] == bits + rest && (bits + rest)[..8] == bits;
    case TBoolean(_) =>
      assert b[1..][1..] == rest;
    case TStr(s) =>
      assert b[1..] == Text(s) + rest;
      TextReadsBack(s, rest);
    case TNull =>
      assert b[1..] == rest;
    case TObject(fields) =>
      assert b[1..] == PrintFields(fields) + (END + rest);
      FieldsReadBack(fields, map[], rest);
  }

  lemma {:induction false} FieldsReadBack(fields: seq<Field>, m: map<seq<byte>, Value>, rest: seq<byte>)
    requires FieldsEncodable(fields)
    ensures ParseFields(PrintFields(fields) + (END + rest), m) == Parsed(Object(FieldMap(fields, m)), rest)
    decreases fields
  {
    hide Print, Parse, Text;
    var b := PrintFields(fields) + (END + rest);
    if fields == [] {
      assert b == END + rest;
      assert b[..2] == [0, 0] && b[2..][1..] == rest;
      assert FromBE([0, 0]) == 0 by {
        assert [0, 0][..1] == [0] && [0][..0] == [];
      }
    } else {
      var f := fields[0];
      var r2 := PrintFields(fields[1..]) + (END + rest);
      var r1 := Print(f.value) + r2;
      assert b == Text(f.key) + r1;
      TextReadsBack(f.key, r1);
      PrintReadsBack(f.value, r2);
      FieldsReadBack(fields[1..], m[f.key := Meaning(f.value)], rest);
    }
  }

  /** An ECMA array is an object whose count is not looked at. */
  lemma EcmaArrayIsObject(fields: seq<Field>, count: seq<byte>, rest: seq<byte>)
    requires FieldsEncodable(fields) && |count| == 4
    ensures Parse([0x08] + count + (PrintFields(fields) + (END + rest))) ==
      Parsed(Meaning(TObject(fields)), rest)
  {
    var b := [0x08] + count + (PrintFields(fields) + (END + rest));
    assert b[1..][4..] == PrintFields(fields) + (END + rest);
    FieldsReadBack(fields, map[], rest);
  }

  // ---------------------------------------------------------------- exactly when

  /** Whatever the bytes, what comes out of the parser could have been encoded. */
  lemma {:induction false} ParsedIsEncodable(b: seq<byte>)
    ensures Parse(b).Parsed? ==> Encodable(Parse(b).value)
    decreases |b|
  {
    if b != [] {
      var r := b[1..];
      if b[0] == 2 && |r| >= 2 {
        FromBound(r[..2], BE);
        assert Pow256(2) == TWO_TO_THE_16;
      } else if b[0] == 3 {
        FieldsAreEncodable(r, map[]);
      } else if b[0] == 8 && |r| >= 4 {
        FieldsAreEncodable(r[4..], map[]);
      }
    }
  }

  lemma {:induction false} FieldsAreEncodable(b: seq<byte>, m: map<seq<byte>, Value>)
    requires Encodable(Object(m))
    ensures ParseFields(b, m).Parsed? ==> Encodable(ParseFields(b, m).value)
    decreases |b|
  {
    if |b| >= 2 && FromBE(b[..2]) != 0 {
      FromBound(b[..2], BE);
      assert Pow256(2) == TWO_TO_THE_16;
      var (key, r1) := ParseText(FromBE(b[..2]), b[2..]);
      ParsedIsEncodable(r1);
      if Parse(r1).Parsed? {
        FieldsAreEncodable(Parse(r1).rest, m[key := Parse(r1).value]);
      }
    }
  }

  /** For trees in the order of a map, being encodable is a matter of the value alone. */
  lemma {:induction false} EncodableTree(t: Tree)
    requires Orderly(t)
    ensures TreeEncodable(t) <==> Encodable(Meaning(t))
    decreases t
  {
    if t.TObject? {
      EncodableFields(t.fields, map[]);
    }
  }

  lemma {:induction false} EncodableFields(fields: seq<Field>, m: map<seq<byte>, Value>)
    requires FieldsOrderly(fields) && forall f :: f in fields ==> f.key !in m
    ensures FieldsEncodable(fields) && Encodable(Object(m)) <==> Encodable(Object(FieldMap(fields, m)))
    decreases fields
  {
    if fields != [] {
      var f := fields[0];
      var m' := m[f.key := Meaning(f.value)];
      EncodableTree(f.value);
      EncodableFields(fields[1..], m');
      assert Encodable(Object(m')) <==>
        Encodable(Object(m)) && 0 < |f.key| < TWO_TO_THE_16 && Encodable(Meaning(f.value)) by {
        assert m' - {f.key} == m;
        assert forall k :: k in m ==> m'[k] == m[k];
      }
    }
  }

  /**
    A value comes back from its bytes, in whatever order its fields were written, if and only if it is encodable:
    no string or key of 65536 bytes or more, and no empty key, anywhere in it.
   */
  lemma RoundTripExactly(t: Tree)
    requires Orderly(t)
    ensures Parse(Print(t)) == Parsed(Meaning(t), []) <==> Encodable(Meaning(t))
  {
    EncodableTree(t);
    ParsedIsEncodable(Print(t));
    if TreeEncodable(t) {
      PrintReadsBack(t, []);
      assert Print(t) + [] == Print(t);
    }
  }

  function Meanings(ts: seq<Tree>): (vs: seq<Value>)
    ensures |vs| == |ts| && forall i :: 0 <= i < |ts| ==> vs[i] == Meaning(ts[i])
  {
    if ts == [] then [] else [Meaning(ts[0])] + Meanings(ts[1..])
  }

  lemma {:induction false} AllReadBack(ts: seq<Tree>)
    requires forall t :: t in ts ==> TreeEncodable(t)
    ensures ParseAll(PrintAll(ts)) == (Meanings(ts), Eof)
    decreases ts
  {
    hide Print, Meaning, TreeEncodable;
    if ts == [] {
      assert Parse([]) == Failed(Eof);
    } else {
      assert ts[0] in ts && forall t :: t in ts[1..] ==> t in ts;
      PrintReadsBack(ts[0], PrintAll(ts[1..]));
      AllReadBack(ts[1..]);
    }
  }

  lemma {:induction false} AllAreEncodable(b: seq<byte>)
    ensures forall v :: v in ParseAll(b).0 ==> Encodable(v)
    decreases |b|
  {
    ParsedIsEncodable(b);
    hide Encodable;
    if Parse(b).Parsed? {
      AllAreEncodable(Parse(b).rest);
    }
  }

  /** AmfUnmarshal(AmfMarshal(vs)) returns vs, and the end of the stream, if and only if all of vs is encodable. */
  lemma MarshalRoundTripExactly(ts: seq<Tree>)
    requires forall t :: t in ts ==> Orderly(t)
    ensures ParseAll(PrintAll(ts)) == (Meanings(ts), Eof) <==> forall v :: v in Meanings(ts) ==> Encodable(v)
  {
    AllAreEncodable(PrintAll(ts));
    forall t | t in ts
      ensures TreeEncodable(t) <==> Encodable(Meaning(t))
    {
      EncodableTree(t);
    }
    hide Encodable, TreeEncodable, Meaning, Print, Parse;
    if forall v :: v in Meanings(ts) ==> Encodable(v) {
      forall t | t in ts
        ensures TreeEncodable(t)
      {
        var i :| 0 <= i < |ts| && ts[i] == t;
        assert Meanings(ts)[i] in Meanings(ts);
      }
      AllReadBack(ts);
    }
  }
}
