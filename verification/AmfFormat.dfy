/**
  AMF0 as its specification spells values (sections 2.2 to 2.11), byte by byte: what the encoder writes spells the
  value, and whatever spells a value, the decoder reads as that value (amf.go:134-387).
 */
module AmfFormat {
  import opened Amf0
  import opened Bytes

  /** U16 and that many bytes. */
  predicate SpellsText(b: seq<byte>, s: seq<byte>) {
    |b| == 2 + |s| && (b[0] as nat) * 256 + b[1] == |s| && b[2..] == s
  }

  /** number-marker 0, boolean-marker 1, string-marker 2, object-marker 3, null-marker 5, ecma-array-marker 8. */
  ghost predicate Spells(b: seq<byte>, t: Tree)
    decreases t
  {
    match t
    case TNumber(bits) => |b| == 9 && b[0] == 0 && b[1..] == bits
    case TBoolean(v) => |b| == 2 && b[0] == 1 && (v <==> b[1] != 0)
    case TStr(s) => b != [] && b[0] == 2 && SpellsText(b[1..], s)
    case TNull => b == [5]
    case TObject(fields) =>
      || (b != [] && b[0] == 3 && SpellsFields(b[1..], fields))
      || (|b| >= 5 && b[0] == 8 && SpellsFields(b[5..], fields))
  }

  /** Keys, none of them empty, each with its value; at the end an empty key and object-end-marker 9. */
  ghost predicate SpellsFields(b: seq<byte>, fields: seq<Field>)
    decreases fields
  {
    if fields == [] then b == [0, 0, 9]
    else
      exists n: nat, m: nat ::
        && n <= m <= |b| && SpellsText(b[..n], fields[0].key) && fields[0].key != []
        && Spells(b[n..m], fields[0].value) && SpellsFields(b[m..], fields[1..])
  }

  lemma TextLength(b: seq<byte>)
    requires |b| >= 2
    ensures FromBE(b[..2]) == (b[0] as nat) * 256 + b[1]
  {
    assert b[..2][..1] == [b[0]] && [b[0]][..0] == [];
    assert FromBE([b[0]]) == b[0];
  }

  // ---------------------------------------------------------------- what is written

  lemma TextSpells(s: seq<byte>)
    requires |s| < TWO_TO_THE_16
    ensures SpellsText(Text(s), s)
  {
    assert Pow256(2) == TWO_TO_THE_16;
    FieldRoundTrip(|s|, 2, BE);
    assert Text(s)[..2] == ToBE(|s|, 2);
    TextLength(Text(s));
    hide FromBE;
  }

  lemma {:induction false} PrintSpells(t: Tree)
    requires TreeEncodable(t)
    ensures Spells(Print(t), t)
    decreases t
  {
    hide ToBE, Text, SpellsText, PrintFields;
    var b := Print(t);
    match t
    case TStr(s) =>
      TextSpells(s);
      assert b[1..] == Text(s);
    case TObject(fields) =>
      FieldsSpell(fields);
      assert b[1..] == PrintFields(fields) + END;
    case _ =>
  }

  lemma {:induction false} FieldsSpell(fields: seq<Field>)
    requires FieldsEncodable(fields)
    ensures SpellsFields(PrintFields(fields) + END, fields)
    decreases fields
  {
    hide Text, Print, SpellsText, Spells;
    var b := PrintFields(fields) + END;
    if fields == [] {
      assert b == [0, 0, 9];
    } else {
      var f, rest := fields[0], PrintFields(fields[1..]) + END;
      TextSpells(f.key);
      PrintSpells(f.value);
      FieldsSpell(fields[1..]);
      var n := |Text(f.key)|;
      var m := n + |Print(f.value)|;
      assert b == Text(f.key) + (Print(f.value) + rest);
      assert b[..n] == Text(f.key) && b[n..m] == Print(f.value) && b[m..] == rest;
    }
  }

  // ---------------------------------------------------------------- what is read

  lemma TextRead(b: seq<byte>, s: seq<byte>, rest: seq<byte>)
    requires SpellsText(b, s)
    ensures var r := b + rest;
      |r| >= 2 && FromBE(r[..2]) == |s| && ParseText(|s|, r[2..]) == (s, rest)
  {
    var r := b + rest;
    TextLength(r);
    hide FromBE;
    assert r[2..] == s + rest && (s + rest)[..|s|] == s && (s + rest)[|s|..] == rest;
  }

  /** Every spelling of a value, an object spelled as an ECMA array among them, is read as the value. */
  lemma {:induction false} SpelledIsRead(b: seq<byte>, t: Tree, rest: seq<byte>)
    requires Spells(b, t)
    ensures Parse(b + rest) == Parsed(Meaning(t), rest)
    decreases t
  {
    hide FromBE, SpellsText, SpellsFields, ParseFields;
    var r := b + rest;
    match t
    case TNumber(bits) =>
      assert r[1..] == bits + rest && (bits + rest)[..8] == bits && (bits + rest)[8..] == rest;
    case TBoolean(_) =>
      assert r[1..] == b[1..] + rest && r[1..][1..] == rest;
    case TStr(s) =>
      assert r[1..] == b[1..] + rest;
      TextRead(b[1..], s, rest);
    case TNull =>
      assert r[1..] == rest;
    case TObject(fields) =>
      assert r[1..] == b[1..] + rest;
      if b[0] == 3 {
        SpelledFieldsAreRead(b[1..], fields, map[], rest);
      } else {
        assert r[1..][4..] == b[5..] + rest;
        SpelledFieldsAreRead(b[5..], fields, map[], rest);
      }
  }

  lemma {:induction false} AllSpelledAreRead(ts: seq<Tree>, rest: seq<byte>)
    requires forall t :: t in ts ==> TreeEncodable(t)
    ensures var (vs, e) := ParseAll(rest); ParseAll(PrintAll(ts) + rest) == (Meanings(ts) + vs, e)
    decreases ts
  {
    hide Print, Parse, Meaning, TreeEncodable;
    if ts == [] {
      assert PrintAll(ts) + rest == rest && [] + ParseAll(rest).0 == ParseAll(rest).0;
    } else {
      assert ts[0] in ts && forall t :: t in ts[1..] ==> t in ts;
      AllSpelledAreRead(ts[1..], rest);
      PrintReadsBack(ts[0], PrintAll(ts[1..]) + rest);
      assert PrintAll(ts) + rest == Print(ts[0]) + (PrintAll(ts[1..]) + rest);
      assert [Meaning(ts[0])] + (Meanings(ts[1..]) + ParseAll(rest).0) == Meanings(ts) + ParseAll(rest).0;
    }
  }

  /**
    A stream that is cut inside a number: what was before is decoded, and the error says so if and only if any byte of
    the number is there; cut right behind the marker, the stream reads as one that has ended.
   */
  lemma CutNumber(ts: seq<Tree>, bits: Double, n: nat)
    requires n < 8 && forall t :: t in ts ==> TreeEncodable(t)
    ensures ParseAll(PrintAll(ts) + ([0] + bits[..n])) == (Meanings(ts), if n == 0 then Eof else UnexpectedEof)
  {
    var cut := [0] + bits[..n];
    assert cut[1..] == bits[..n];
    assert Parse(cut) == Amf0.Failed(if n == 0 then Eof else UnexpectedEof);
    assert Meanings(ts) + [] == Meanings(ts);
    hide Parse, Meaning, TreeEncodable;
    AllSpelledAreRead(ts, cut);
  }

  lemma {:induction false} SpelledFieldsAreRead(b: seq<byte>, fields: seq<Field>, m: map<seq<byte>, Value>,
                                                rest: seq<byte>)
    requires SpellsFields(b, fields)
    ensures ParseFields(b + rest, m) == Parsed(Object(FieldMap(fields, m)), rest)
    decreases fields
  {
    hide FromBE, SpellsText, Spells, Parse;
    var r := b + rest;
    if fields == [] {
      TextLength(r);
      assert r[2..][1..] == rest;
    } else {
      var f := fields[0];
      var n: nat, k: nat :| n <= k <= |b| && SpellsText(b[..n], f.key) && f.key != []
        && Spells(b[n..k], f.value) && SpellsFields(b[k..], fields[1..]);
      var r2 := b[k..] + rest;
      assert r == b[..n] + (b[n..k] + r2);
      TextRead(b[..n], f.key, b[n..k] + r2);
      SpelledIsRead(b[n..k], f.value, r2);
      SpelledFieldsAreRead(b[k..], fields[1..], m[f.key := Meaning(f.value)], rest);
    }
  }
}
