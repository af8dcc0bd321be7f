/**
  The AMF0 codec as the server runs it (amf.go:120-387): decoders that use up a reader, encoders that append to a
  writer and count what they wrote. They are proved against the printer and the parser of Amf0.dfy.
 */
module AmfIo {
  import opened Bytes
  import opened Amf0

  datatype Result<T> = Ok(value: T) | Err(error: Error)

  /** What a decoder has to do with what the parser says of the same bytes. */
  ghost predicate Follows(r: Result<Value>, rest: seq<byte>, p: Parsed) {
    match p
    case Failed(e) => r == Err(e)
    case Parsed(v, rest') => r == Ok(v) && rest == rest'
  }

  class Reader {
    var data: seq<byte>  // what is still to be read

    constructor (data: seq<byte>)
      ensures this.data == data
    {
      this.data := data;
    }

    /** ReadByte and ReadString (io.ReadFull): what is cut short is used up. */
    method ReadByte(n: nat) returns (r: Result<seq<byte>>)
      modifies this
      ensures |old(data)| < n ==> r == Err(Short(old(data))) && data == []
      ensures |old(data)| >= n ==> r == Ok(old(data)[..n]) && data == old(data)[n..]
    {
      if |data| < n {
        r := Err(Short(data));
        data := [];
      } else {
        r := Ok(data[..n]);
        data := data[n..];
      }
    }

    method ReadUint32(n: nat) returns (r: Result<nat>)
      requires n <= 4
      modifies this
      ensures |old(data)| < n ==> r == Err(Short(old(data))) && data == []
      ensures |old(data)| >= n ==> r == Ok(FromBE(old(data)[..n])) && data == old(data)[n..]
    {
      var b := ReadByte(n);
      match b
      case Err(e) => r := Err(e);
      case Ok(bytes) =>
        var u := ByteToUint(bytes, 4, BE);
        assert bytes[..Min(|bytes|, 4)] == bytes;
        r := Ok(u);
    }

    /** ReadString with its error dropped. */
    method ReadString(n: nat) returns (s: seq<byte>)
      modifies this
      ensures (s, data) == ParseText(n, old(data))
    {
      var b := ReadByte(n);
      s := if b.Ok? then b.value else [];
    }

    method AmfDecode() returns (r: Result<Value>)
      modifies this
      ensures |data| <= |old(data)|
      ensures Follows(r, data, Parse(old(data)))
      decreases |data|
    {
      hide FromBE;
      var marker := ReadByte(1);
      if marker.Err? {
        return Err(marker.error);
      }
      match marker.value[0]
      case 0 => r := Amf0DecodeNumber();
      case 1 => r := Amf0DecodeBoolean();
      case 2 => r := Amf0DecodeString();
      case 3 => r := Amf0DecodeObject();
      case 5 => r := Ok(Null);
      case 8 => r := Amf0DecodeEcmaArray();
      case t => r := Err(Untreated(t));
    }

    method Amf0DecodeNumber() returns (r: Result<Value>)
      modifies this
      ensures |data| <= |old(data)|
      ensures |old(data)| < 8 ==> r == Err(Short(old(data)))
      ensures |old(data)| >= 8 ==> r == Ok(Number(old(data)[..8])) && data == old(data)[8..]
    {
      var b := ReadByte(8);
      r := if b.Err? then Err(b.error) else Ok(Number(b.value));
    }

    method Amf0DecodeBoolean() returns (r: Result<Value>)
      modifies this
      ensures |data| <= |old(data)|
      ensures old(data) == [] ==> r == Err(Eof)
      ensures old(data) != [] ==> r == Ok(Boolean(old(data)[0] != 0)) && data == old(data)[1..]
    {
      var b := ReadByte(1);
      r := if b.Err? then Err(b.error) else Ok(Boolean(b.value[0] != 0));
    }

    method Amf0DecodeString() returns (r: Result<Value>)
      modifies this
      ensures |data| <= |old(data)|
      ensures |old(data)| < 2 ==> r == Err(Short(old(data)))
      ensures |old(data)| >= 2 ==>
        && r.Ok? && r.value.Str?
        && (r.value.s, data) == ParseText(FromBE(old(data)[..2]), old(data)[2..])
    {
      var length := ReadUint32(2);
      if length.Err? {
        return Err(length.error);
      }
      var s := ReadString(length.value);
      r := Ok(Str(s));
    }

    /** Fields until a zero length; the end of the stream reads as one, because the error is not looked at. */
    method Amf0DecodeObject() returns (r: Result<Value>)
      modifies this
      ensures |data| <= |old(data)|
      ensures Follows(r, data, ParseFields(old(data), map[]))
      decreases |data|
    {
      hide FromBE, Parse;
      var ret: map<seq<byte>, Value> := map[];
      while true
        invariant |data| <= |old(data)|
        invariant ParseFields(data, ret) == ParseFields(old(data), map[])
        decreases |data|
      {
        var read := ReadUint32(2);
        var length := if read.Ok? then read.value else 0;
        if length == 0 {
          var end := ReadByte(1);
          return Ok(Object(ret));
        }
        var key := ReadString(length);
        var value := AmfDecode();
        if value.Err? {
          return Err(value.error);
        }
        ret := ret[key := value.value];
      }
    }

    method Amf0DecodeEcmaArray() returns (r: Result<Value>)
      modifies this
      ensures |data| <= |old(data)|
      ensures |old(data)| < 4 ==> r == Err(Short(old(data)))
      ensures |old(data)| >= 4 ==> Follows(r, data, ParseFields(old(data)[4..], map[]))
      decreases |data|
    {
      var count := ReadUint32(4);
      if count.Err? {
        return Err(count.error);
      }
      r := Amf0DecodeObject();
    }

    /** Values until the first error. */
    method AmfUnmarshal() returns (vs: seq<Value>, e: Error)
      modifies this
      ensures (vs, e) == ParseAll(old(data))
    {
      hide Parse;
      vs := [];
      assert ParseAll(data).0 == vs + ParseAll(data).0;
      while true
        invariant ParseAll(old(data)) == (vs + ParseAll(data).0, ParseAll(data).1)
        decreases |data|
      {
        ghost var before := data;
        var v := AmfDecode();
        match v
        case Err(error) =>
          assert vs + [] == vs;
          return vs, error;
        case Ok(value) =>
          assert vs + ParseAll(before).0 == vs + [value] + ParseAll(data).0;
          vs := vs + [value];
      }
    }
  }

  class Writer {
    var buf: seq<byte>  // what has been written

    constructor ()
      ensures buf == []
    {
      buf := [];
    }

    method Write(b: seq<byte>) returns (n: nat)
      modifies this
      ensures buf == old(buf) + b && n == |b|
    {
      buf, n := buf + b, |b|;
    }

    method Amf0EncodeString(v: seq<byte>, wType: bool) returns (n: nat)
      modifies this
      ensures buf == old(buf) + (if wType then Print(TStr(v)) else Text(v))
      ensures n == if wType then |Print(TStr(v))| else |Text(v)|
    {
      hide ToBE, ToLE;
      n := 0;
      if wType {
        n := Write([0x02]);
      }
      // WriteUint32 of two bytes: the low half of the length.
      var length := UintToByte(|v|, 2, null, 0, 0, BE);
      var k := Write(length);
      var m := Write(v);
      n := n + k + m;
      PrintText(v);
    }

    /** AmfEncode: some tree that means v is printed, and its size is what is returned. */
    method AmfEncode(v: Value) returns (n: nat, ghost t: Tree)
      modifies this
      ensures Meaning(t) == v && Orderly(t)
      ensures buf == old(buf) + Print(t) && n == |Print(t)|
      decreases v, 1
    {
      match v
      case Null =>
        t := TNull;
        n := Write([0x05]);
      case Str(s) =>
        t := TStr(s);
        n := Amf0EncodeString(s, true);
      case Boolean(b) =>
        t := TBoolean(b);
        n := Write([0x01]);
        var m := Write([if b then 0x01 else 0x00]);
        n := n + m;
        assert Print(t) == [0x01] + [if b then 0x01 else 0x00];
      case Number(bits) =>
        t := TNumber(bits);
        n := Write([0x00]);
        var m := Write(bits);
        n := n + m;
      case Object(_) =>
        n, t := Amf0EncodeObject(v);
    }

    /** The fields in whatever order the map gives them. */
    method Amf0EncodeObject(v: Value) returns (n: nat, ghost t: Tree)
      requires v.Object?
      modifies this
      ensures Meaning(t) == v && Orderly(t)
      ensures buf == old(buf) + Print(t) && n == |Print(t)|
      decreases v, 0
    {
      hide Text, Print, Meaning, Orderly, FieldMap, FieldsOrderly, PrintFields;
      var o := v.fields;
      ghost var fields: seq<Field> := [];
      NoFields();
      n := Write([0x03]);
      var left := o.Keys;
      while left != {}
        invariant left <= o.Keys
        invariant FieldsOrderly(fields) && forall f :: f in fields ==> f.key in o.Keys - left
        invariant FieldMap(fields, map[]) == map k | k in o && k !in left :: o[k]
        invariant buf == old(buf) + [0x03] + PrintFields(fields) && n == 1 + |PrintFields(fields)|
        decreases |left|
      {
        var k :| k in left;
        var m := Amf0EncodeString(k, false);
        n := n + m;
        var m', t' := AmfEncode(o[k]);
        n := n + m';
        Snoc(fields, Field(k, t'), map[]);
        fields := fields + [Field(k, t')];
        left := left - {k};
      }
      t := TObject(fields);
      EmptyText();
      var m := Amf0EncodeString([], false);
      var m' := Write([0x09]);
      n := n + m + m';
      ObjectOf(fields);
      assert buf == old(buf) + Print(t);
      assert FieldMap(fields, map[]) == o;
    }

    /** All values one after the other; on a new writer they read back if and only if all are encodable. */
    method AmfMarshal(vs: seq<Value>) returns (ghost ts: seq<Tree>)
      modifies this
      ensures Meanings(ts) == vs && forall t :: t in ts ==> Orderly(t)
      ensures buf == old(buf) + PrintAll(ts)
      ensures old(buf) == [] ==> (ParseAll(buf) == (vs, Eof) <==> forall v :: v in vs ==> Encodable(v))
    {
      hide Meaning, Orderly, Print, Parse, Encodable, ParseAll;
      ts := [];
      for i := 0 to |vs|
        invariant Meanings(ts) == vs[..i] && forall t :: t in ts ==> Orderly(t)
        invariant buf == old(buf) + PrintAll(ts)
      {
        var _, t := AmfEncode(vs[i]);
        PrintAllSnoc(ts, t);
        ts := ts + [t];
      }
      assert vs[..|vs|] == vs;
      if old(buf) == [] {
        OnNewWriter(ts, buf);
      }
    }
  }

  lemma OnNewWriter(ts: seq<Tree>, buf: seq<byte>)
    requires (forall t :: t in ts ==> Orderly(t)) && buf == [] + PrintAll(ts)
    ensures ParseAll(buf) == (Meanings(ts), Eof) <==> forall v :: v in Meanings(ts) ==> Encodable(v)
  {
    hide *;
    MarshalRoundTripExactly(ts);
    assert buf == PrintAll(ts);
  }

  lemma EmptyText()
    ensures Text([]) == [0x00, 0x00]
  {
    assert ToBE(0, 0) == [];
    assert ToBE(0, 1) == [0x00];
  }

  lemma PrintText(s: seq<byte>)
    ensures Text(s) == ToBE(|s|, 2) + s && Print(TStr(s)) == [0x02] + ToBE(|s|, 2) + s
  {
  }

  lemma NoFields()
    ensures FieldMap([], map[]) == map[] && FieldsOrderly([]) && PrintFields([]) == []
  {
  }

  lemma ObjectOf(fields: seq<Field>)
    ensures Print(TObject(fields)) == [0x03] + PrintFields(fields) + [0x00, 0x00] + [0x09]
    ensures Meaning(TObject(fields)) == Object(FieldMap(fields, map[]))
    ensures Orderly(TObject(fields)) <==> FieldsOrderly(fields)
  {
    assert [0x00, 0x00] + [0x09] == END;
  }

  /** A field more at the end. */
  lemma Snoc(fields: seq<Field>, f: Field, m: map<seq<byte>, Value>)
    requires FieldsOrderly(fields) && Orderly(f.value) && forall g :: g in fields ==> g.key != f.key
    ensures FieldsOrderly(fields + [f])
    ensures FieldMap(fields + [f], m) == FieldMap(fields, m)[f.key := Meaning(f.value)]
    ensures PrintFields(fields + [f]) == PrintFields(fields) + Text(f.key) + Print(f.value)
  {
    hide *;
    OrderlySnoc(fields, f);
    MapSnoc(fields, f, m);
    PrintSnoc(fields, f);
  }

  lemma {:induction false} OrderlySnoc(fields: seq<Field>, f: Field)
    requires FieldsOrderly(fields) && Orderly(f.value) && forall g :: g in fields ==> g.key != f.key
    ensures FieldsOrderly(fields + [f])
    decreases fields
  {
    hide Orderly;
    if fields != [] {
      OrderlySnoc(fields[1..], f);
      assert (fields + [f])[1..] == fields[1..] + [f];
    }
  }

  lemma {:induction false} MapSnoc(fields: seq<Field>, f: Field, m: map<seq<byte>, Value>)
    ensures FieldMap(fields + [f], m) == FieldMap(fields, m)[f.key := Meaning(f.value)]
    decreases fields
  {
    hide Meaning;
    if fields == [] {
      assert fields + [f] == [f];
    } else {
      MapSnoc(fields[1..], f, m[fields[0].key := Meaning(fields[0].value)]);
      assert (fields + [f])[1..] == fields[1..] + [f];
    }
  }

  lemma {:induction false} PrintSnoc(fields: seq<Field>, f: Field)
    ensures PrintFields(fields + [f]) == PrintFields(fields) + Text(f.key) + Print(f.value)
    decreases fields
  {
    hide Text, Print;
    if fields == [] {
      assert fields + [f] == [f];
      assert PrintFields([f]) == Text(f.key) + (Print(f.value) + PrintFields([f][1..]));
    } else {
      PrintSnoc(fields[1..], f);
      assert (fields + [f])[1..] == fields[1..] + [f];
    }
  }

  lemma {:induction false} PrintAllSnoc(ts: seq<Tree>, t: Tree)
    ensures PrintAll(ts + [t]) == PrintAll(ts) + Print(t)
    ensures Meanings(ts + [t]) == Meanings(ts) + [Meaning(t)]
    decreases ts
  {
    hide Print, Meaning;
    if ts == [] {
      assert ts + [t] == [t] && PrintAll([t][1..]) == [] && Meanings([t][1..]) == [];
    } else {
      PrintAllSnoc(ts[1..], t);
      assert (ts + [t])[1..] == ts[1..] + [t];
    }
  }
}
