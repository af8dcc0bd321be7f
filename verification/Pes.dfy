/**
  Packetized elementary stream packets (hls.go:821-1064; sections 2.4.3.6 and 2.4.3.7 of ISO/IEC 13818-1): one
  frame of the RTMP stream with its time stamps, and what a reader gets back from it.
 */
module Pes {
  import opened Bytes
  import opened Bits
  import opened DataTypes
  import opened ParameterSets
  import Adts
  import TsPacket

  const CLOCK: nat := 90
  const TWO_TO_THE_33: nat := 0x2_0000_0000
  const BIT_30: nat := 0x4000_0000

  // ---------------------------------------------------------------- time stamps

  /** The decoding time in ticks; the product is a uint32. */
  function Dts(timestamp: nat): (t: nat)
    ensures t < TWO_TO_THE_32
  {
    timestamp * CLOCK % TWO_TO_THE_32
  }

  /** How much data the muxer takes for granted: the tag header of a video or an audio message. */
  function TagLen(kind: Kind): nat {
    if kind == Aac then 2 else 9
  }

  function Pts(kind: Kind, timestamp: nat, data: seq<byte>): nat
    requires |data| >= TagLen(kind)
  {
    if kind == Aac then Dts(timestamp) else Dts(timestamp) + FromBE(data[2..5]) * CLOCK % TWO_TO_THE_32
  }

  lemma PtsFits(kind: Kind, timestamp: nat, data: seq<byte>)
    requires |data| >= TagLen(kind)
    ensures Pts(kind, timestamp, data) < TWO_TO_THE_33
  {
    if kind != Aac {
      FromBound(data[2..5], BE);
      assert Pow256(3) == TWO_TO_THE_24;
    }
  }

  /** 5 bytes with a time stamp as the source packs it: the top field comes through the mask 0xd. */
  function Stamp(tag: nat, t: nat): (s: seq<byte>)
    requires tag < 16
    ensures |s| == 5
  {
    [tag * 16 + Field(t, 0x8000_0000, 4) * 4 + 1,
     Field(t, 0x40_0000, 256),
     Field(t, 0x8000, 128) * 2 + 1,
     Field(t, 0x80, 256),
     Field(t, 1, 128) * 2 + 1]
  }

  /** The mask and the marker of the source on what the shift by 29 leaves: bit 30 goes. */
  lemma MaskOfStamp(t: nat)
    ensures (((Field(t, 0x2000_0000, 16) as bv8) & 0xd) | 0x1) as nat == Field(t, 0x8000_0000, 4) * 4 + 1
  {
    Inner(t, 0x2000_0000, 4, 4);
    FourBits(Field(t, 0x2000_0000, 16));
  }

  lemma FourBits(x: nat)
    requires x < 16
    ensures (((x as bv8) & 0xd) | 0x1) as nat == Field(x, 4, 4) * 4 + 1
  {
  }

  function ReadStamp(s: seq<byte>): nat
    requires |s| == 5
  {
    Field(s[0], 2, 8) * BIT_30 + (s[1] as nat) * 0x40_0000 + Field(s[2], 2, 128) * 0x8000 + (s[3] as nat) * 0x80 +
    Field(s[4], 2, 128)
  }

  predicate Marked(s: seq<byte>)
    requires |s| == 5
  {
    Field(s[0], 1, 2) == 1 && Field(s[2], 1, 2) == 1 && Field(s[4], 1, 2) == 1
  }

  /** t without bit 30. */
  function Masked(t: nat): nat
  {
    Field(t, 0x8000_0000, 4) * 0x8000_0000 + Field(t, 1, BIT_30)
  }

  /** Every time stamp of 33 bits reads back without bit 30, with all marker bits set. */
  lemma StampReadsBack(tag: nat, t: nat)
    requires tag < 16 && t < TWO_TO_THE_33
    ensures ReadStamp(Stamp(tag, t)) == Masked(t) && Marked(Stamp(tag, t))
    ensures Field(Stamp(tag, t)[0], 16, 16) == tag
    ensures ReadStamp(Stamp(tag, t)) == t <==> Field(t, BIT_30, 2) == 0
  {
    hide Field;
    var s := Stamp(tag, t);
    var top := Field(t, 0x8000_0000, 4);
    Place(0, tag, top * 4 + 1, 16, 16);
    Place(tag, top * 2, 1, 2, 8);
    Place(tag * 8 + top * 2, 1, 0, 1, 2);
    Place(0, Field(t, 0x8000, 128), 1, 2, 128);
    Place(Field(t, 0x8000, 128), 1, 0, 1, 2);
    Place(0, Field(t, 1, 128), 1, 2, 128);
    Place(Field(t, 1, 128), 1, 0, 1, 2);
    Split(t, 1, 0x80, 0x80_0000);
    Split(t, 0x80, 0x100, 0x8000);
    Split(t, 0x8000, 0x80, 0x100);
    Split(t, 1, BIT_30, 8);
    Split(t, BIT_30, 2, 4);
    Fits(t, TWO_TO_THE_33);
  }

  lemma MaskedExactly(t: nat)
    requires t < TWO_TO_THE_33
    ensures Masked(t) == t <==> Field(t, BIT_30, 2) == 0
    ensures t < BIT_30 ==> Masked(t) == t
  {
    hide Field;
    Split(t, 1, BIT_30, 8);
    Split(t, BIT_30, 2, 4);
    Fits(t, TWO_TO_THE_33);
    if t < BIT_30 {
      Fits(t, BIT_30);
    }
  }

  /** What the mask takes off. */
  lemma MaskedIs(t: nat)
    requires t < TWO_TO_THE_33
    ensures Masked(t) == t - Field(t, BIT_30, 2) * BIT_30
  {
    hide Field;
    Split(t, 1, BIT_30, 8);
    Split(t, BIT_30, 2, 4);
    Fits(t, TWO_TO_THE_33);
  }

  /** The 32 bits of a decoding time hold the lower bits of the product. */
  lemma DtsBits(n: nat)
    ensures var d := n % TWO_TO_THE_32;
      && Field(d, BIT_30, 2) == Field(n, BIT_30, 2)
      && n % TWO_TO_THE_33 == Field(n, TWO_TO_THE_32, 2) * TWO_TO_THE_32 + d
  {
    Split(n, 1, TWO_TO_THE_32, 2);
    Inner(n, 1, BIT_30, 4);
    hide Field;
    var d := Field(n, 1, TWO_TO_THE_32);
    assert Field(n, 1, TWO_TO_THE_33) == n % TWO_TO_THE_33 && d == n % TWO_TO_THE_32 by {
      FieldOne(n);
    }
    Inner(n, BIT_30, 2, 2);
    Inner(d, BIT_30, 2, 2);
  }

  lemma FieldOne(n: nat)
    ensures Field(n, 1, TWO_TO_THE_33) == n % TWO_TO_THE_33 && Field(n, 1, TWO_TO_THE_32) == n % TWO_TO_THE_32
  {
  }

  /**
    The decoding time is the timestamp in ticks mod 2^33, as the field could hold it, if and only if bits 30 and 32 of
    the ticks are 0: the one is masked out, the other lost to the uint32 product.
   */
  lemma DtsExactly(timestamp: nat)
    ensures var n := timestamp * 90;
      Masked(Dts(timestamp)) == n % TWO_TO_THE_33 <==> Field(n, BIT_30, 2) == 0 && Field(n, TWO_TO_THE_32, 2) == 0
  {
    var n := timestamp * CLOCK;
    DtsBits(n);
    MaskedIs(Dts(timestamp));
    hide Field, Masked;
  }

  /** The composition time as FLV has it: 24 bits with a sign. */
  function SignedOffset(u: nat): int {
    if u < 0x80_0000 then u else u - TWO_TO_THE_24
  }

  /** The presentation time is the decoding time and the offset if and only if the offset is not negative. */
  lemma PtsExactly(kind: Kind, timestamp: nat, data: seq<byte>)
    requires |data| >= TagLen(kind) && kind != Aac
    ensures var u, t := FromBE(data[2..5]), timestamp * 90 % TWO_TO_THE_32;
      Pts(kind, timestamp, data) == (t + SignedOffset(u) * 90) % TWO_TO_THE_33 <==> u < 0x80_0000
  {
    PtsFits(kind, timestamp, data);
    FromBound(data[2..5], BE);
    assert Pow256(3) == TWO_TO_THE_24;
    hide FromBE, Dts;
    var u, d := FromBE(data[2..5]), Dts(timestamp);
    assert u * CLOCK % TWO_TO_THE_32 == u * CLOCK;
    if u >= 0x80_0000 {
      var t := d + u * CLOCK;
      var less := t - TWO_TO_THE_24 * CLOCK;
      assert (if less >= 0 then less else less + TWO_TO_THE_33) == less % TWO_TO_THE_33;
    }
  }

  // ---------------------------------------------------------------- the packet

  function StreamId(kind: Kind): byte {
    if kind == Aac then 0xc0 else 0xe0
  }

  /** PesHeaderCreate; the packet length is left 0. */
  function Header(kind: Kind, pts: nat, dts: nat): (h: seq<byte>)
    ensures |h| == if pts != dts then 19 else 14
  {
    [0, 0, 1, StreamId(kind), 0, 0, 0x80] +
    if pts != dts then [0xc0, 10] + Stamp(3, pts) + Stamp(1, dts) else [0x80, 5] + Stamp(2, pts)
  }

  const DELIMITER: seq<byte> := [0, 0, 0, 1, 0x09, 0xf0]

  /** What goes behind the header; the parameter sets are written with keyframes, the ADTS header with audio. */
  function Body(kind: Kind, spsPps: seq<byte>, adts: seq<byte>, data: seq<byte>): seq<byte>
    requires |data| >= TagLen(kind) && (kind == Aac ==> |adts| == Adts.ADTS_LEN)
  {
    match kind
    case Key => DELIMITER + spsPps + START_CODE + data[9..]
    case Inter => DELIMITER + START_CODE + data[9..]
    case Aac => Adts.WithLength(adts, AdtsSize(data)) + data[2..]
  }

  /** The frame size that goes into the ADTS header, as a uint16. */
  function AdtsSize(data: seq<byte>): nat
    requires |data| >= 2
  {
    (Adts.ADTS_LEN + |data| - 2) % TWO_TO_THE_16
  }

  /** SetPesPakcetLength with the argument `uint16(len) - 6`; there is no size it can find too large. */
  function WithPacketLength(pes: seq<byte>): (r: seq<byte>)
    requires |pes| >= 6
    ensures |r| == |pes|
  {
    pes[..4] + ToBE((|pes| - 6) % TWO_TO_THE_16, 2) + pes[6..]
  }

  /** The PES packet of a frame. */
  function Packet(kind: Kind, timestamp: nat, spsPps: seq<byte>, adts: seq<byte>, data: seq<byte>): (p: seq<byte>)
    requires |data| >= TagLen(kind) && (kind == Aac ==> |adts| == Adts.ADTS_LEN)
    ensures |p| >= 14
  {
    var pes := Header(kind, Pts(kind, timestamp, data), Dts(timestamp)) + Body(kind, spsPps, adts, data);
    if kind == Key then pes else WithPacketLength(pes)
  }

  // ---------------------------------------------------------------- reading it

  /** A unit cut to its PES_packet_length; 0 means up to the next unit. */
  function Trimmed(unit: seq<byte>): seq<byte>
    requires |unit| >= 6
  {
    var length := FromBE(unit[4..6]);
    if length == 0 || 6 + length >= |unit| then unit else unit[..6 + length]
  }

  datatype Read = Read(streamId: byte, pts: nat, dts: nat, body: seq<byte>) | Malformed

  /** A time stamp under its prefix of four bits, with its marker bits. */
  predicate Stamped(s: seq<byte>, prefix: nat)
    requires |s| == 5
  {
    Field(s[0], 16, 16) == prefix && Marked(s)
  }

  /** The fields of a PES packet with times and no other options; a decoding time left out is the presentation time. */
  function Parse(pes: seq<byte>): Read {
    if |pes| < 14 || pes[..3] != [0, 0, 1] || Field(pes[6], 16, 16) != 8 || Field(pes[7], 1, 64) != 0 then Malformed
    else
      var flags := Field(pes[7], 64, 4);
      if flags == 2 && pes[8] == 5 && Stamped(pes[9..14], 2) then
        var t := ReadStamp(pes[9..14]); Read(pes[3], t, t, pes[14..])
      else if flags == 3 && pes[8] == 10 && |pes| >= 19 && Stamped(pes[9..14], 3) && Stamped(pes[14..19], 1) then
        Read(pes[3], ReadStamp(pes[9..14]), ReadStamp(pes[14..19]), pes[19..])
      else Malformed
  }

  /** What a PES packet carries: its times without bit 30, and its body. */
  lemma HeaderReadsBack(kind: Kind, pts: nat, dts: nat, length: seq<byte>, body: seq<byte>)
    requires pts < TWO_TO_THE_33 && dts < TWO_TO_THE_33 && |length| == 2
    ensures var h := Header(kind, pts, dts);
      Parse(h[..4] + length + h[6..] + body) == Read(StreamId(kind), Masked(pts), Masked(dts), body)
  {
    hide Stamp, ReadStamp, Masked, Parse, Marked, Field;
    var h := Header(kind, pts, dts);
    var front := h[..4] + length + h[6..9];
    if pts != dts {
      StampReadsBack(3, pts);
      StampReadsBack(1, dts);
      assert h[..4] + length + h[6..] + body == front + (Stamp(3, pts) + (Stamp(1, dts) + body));
      LongParse(front, Stamp(3, pts), Stamp(1, dts), body);
    } else {
      StampReadsBack(2, pts);
      assert h[..4] + length + h[6..] + body == front + (Stamp(2, pts) + body);
      ShortParse(front, Stamp(2, pts), body);
    }
  }

  lemma ShortParse(front: seq<byte>, t: seq<byte>, body: seq<byte>)
    requires |front| == 9 && front[..3] == [0, 0, 1] && front[6] == 0x80 && front[7] == 0x80 && front[8] == 5
    requires |t| == 5 && Stamped(t, 2)
    ensures Parse(front + (t + body)) == Read(front[3], ReadStamp(t), ReadStamp(t), body)
  {
    hide ReadStamp, Stamped;
    Cut(front, t, body);
    assert (front + (t + body))[..3] == front[..3];
  }

  lemma LongParse(front: seq<byte>, p: seq<byte>, d: seq<byte>, body: seq<byte>)
    requires |front| == 9 && front[..3] == [0, 0, 1] && front[6] == 0x80 && front[7] == 0xc0 && front[8] == 10
    requires |p| == |d| == 5 && Stamped(p, 3) && Stamped(d, 1)
    ensures Parse(front + (p + (d + body))) == Read(front[3], ReadStamp(p), ReadStamp(d), body)
  {
    hide ReadStamp, Stamped;
    Cut(front, p, d + body);
    Cut(front + p, d, body);
    assert front + (p + (d + body)) == front + p + (d + body);
    assert (front + (p + (d + body)))[..3] == front[..3];
  }

  lemma Cut(a: seq<byte>, b: seq<byte>, c: seq<byte>)
    ensures var s := a + (b + c);
      s[|a|..|a| + |b|] == b && s[|a| + |b|..] == c
  {
  }

  /**
    A frame's PES packet reads back: stream id, both times with bit 30 cleared, and the body whole.
   */
  lemma PacketReadsBack(kind: Kind, timestamp: nat, spsPps: seq<byte>, adts: seq<byte>, data: seq<byte>)
    requires |data| >= TagLen(kind) && (kind == Aac ==> |adts| == Adts.ADTS_LEN)
    ensures Parse(Packet(kind, timestamp, spsPps, adts, data)) == Read(StreamId(kind),
              Masked(Pts(kind, timestamp, data)), Masked(Dts(timestamp)), Body(kind, spsPps, adts, data))
  {
    hide Parse, Header, Body, Masked, Dts, Pts, Field, ToBE, StreamId;
    PtsFits(kind, timestamp, data);
    var pts, dts := Pts(kind, timestamp, data), Dts(timestamp);
    var h, body := Header(kind, pts, dts), Body(kind, spsPps, adts, data);
    var pes := h + body;
    if kind == Key {
      HeaderReadsBack(kind, pts, dts, h[4..6], body);
      assert h[..4] + h[4..6] + h[6..] + body == pes;
    } else {
      var length := ToBE((|pes| - 6) % TWO_TO_THE_16, 2);
      HeaderReadsBack(kind, pts, dts, length, body);
      assert WithPacketLength(pes) == h[..4] + length + h[6..] + body;
    }
  }

  /** What a demultiplexer recovers of a PES packet before it looks at its length. */
  function Unit(kind: Kind, pes: seq<byte>): seq<byte> {
    match kind
    case Key => TsPacket.KeyUnit(pes)
    case Inter => TsPacket.InterUnit(pes)
    case Aac => pes
  }

  /** Byte 8 of a PES packet tells how long its header is. */
  lemma HeaderLength(kind: Kind, timestamp: nat, spsPps: seq<byte>, data: seq<byte>)
    requires |data| >= 9 && kind != Aac
    ensures var pes := Packet(kind, timestamp, spsPps, [], data);
      |pes| == (if pes[8] == 10 then 19 else 14) + |Body(kind, spsPps, [], data)|
  {
    hide Stamp, Pts, Dts, ToBE;
    var h, body := Header(kind, Pts(kind, timestamp, data), Dts(timestamp)), Body(kind, spsPps, [], data);
    var pes := h + body;
    assert pes[8] == h[8];
    if kind != Key {
      assert WithPacketLength(pes)[8] == pes[6..][2] == pes[8];
    }
  }

  /** Video frames of one length with different payloads make different units. */
  lemma UnitsDiffer(kind: Kind, timestamp: nat, spsPps: seq<byte>, a: seq<byte>, b: seq<byte>)
    requires kind != Aac && |a| == |b| >= 9 && a[9..] != b[9..]
    ensures Unit(kind, Packet(kind, timestamp, spsPps, [], a)) != Unit(kind, Packet(kind, timestamp, spsPps, [], b))
  {
    BodiesDiffer(kind, spsPps, a, b);
    HeaderLength(kind, timestamp, spsPps, a);
    HeaderLength(kind, timestamp, spsPps, b);
    PacketReadsBack(kind, timestamp, spsPps, [], a);
    PacketReadsBack(kind, timestamp, spsPps, [], b);
    hide Packet, Body, Parse, Unit;
    var x, y := Packet(kind, timestamp, spsPps, [], a), Packet(kind, timestamp, spsPps, [], b);
    UnitKeepsLength(kind, x);
    UnitKeepsLength(kind, y);
    assert x[8] == Unit(kind, x)[..|x|][8] && y[8] == Unit(kind, y)[..|y|][8];
  }

  lemma BodiesDiffer(kind: Kind, spsPps: seq<byte>, a: seq<byte>, b: seq<byte>)
    requires kind != Aac && |a| == |b| >= 9 && a[9..] != b[9..]
    ensures Body(kind, spsPps, [], a) != Body(kind, spsPps, [], b)
    ensures |Body(kind, spsPps, [], a)| == |Body(kind, spsPps, [], b)|
  {
    var front := if kind == Key then DELIMITER + spsPps + START_CODE else DELIMITER + START_CODE;
    assert Body(kind, spsPps, [], a)[|front|..] == a[9..] && Body(kind, spsPps, [], b)[|front|..] == b[9..];
  }

  /**
    Trimming a recovered unit gives back the PES packet exactly when a keyframe's fills its first packet, or any
    other's length fits the 16 bits of its length field, or is cut by them to 0.
   */
  lemma TrimmedExactly(kind: Kind, timestamp: nat, spsPps: seq<byte>, adts: seq<byte>, data: seq<byte>)
    requires |data| >= TagLen(kind) && (kind == Aac ==> |adts| == Adts.ADTS_LEN)
    ensures var pes := Packet(kind, timestamp, spsPps, adts, data); var n := |pes|;
      Trimmed(Unit(kind, pes)) == pes <==>
        if kind == Key then n >= 176 else n - 6 < TWO_TO_THE_16 || (n - 6) % TWO_TO_THE_16 == 0
  {
    hide Body, Stamp, Pts, Dts, Field, ToBE;
    var h, body := Header(kind, Pts(kind, timestamp, data), Dts(timestamp)), Body(kind, spsPps, adts, data);
    var pes, n := Packet(kind, timestamp, spsPps, adts, data), |h + body|;
    if kind == Key {
      assert pes[4..6] == [0, 0];
      UnitKeepsLength(kind, pes);
      ZeroLength();
    } else {
      var length := (n - 6) % TWO_TO_THE_16;
      assert pes[4..6] == ToBE(length, 2);
      UnitKeepsLength(kind, pes);
      assert Pow256(2) == TWO_TO_THE_16;
      FieldRoundTrip(length, 2, BE);
      LengthField(kind, pes, length);
    }
  }

  lemma ZeroLength()
    ensures FromBE([0, 0]) == 0
  {
    assert [0, 0][..1] == [0] && [0][..0] == [];
  }

  lemma UnitKeepsLength(kind: Kind, pes: seq<byte>)
    requires |pes| >= 6
    ensures |Unit(kind, pes)| >= |pes| && Unit(kind, pes)[..|pes|] == pes
    ensures Unit(kind, pes)[4..6] == pes[4..6]
    ensures kind == Key ==> (Unit(kind, pes) == pes <==> |pes| >= 176)
    ensures kind == Inter && |pes| >= 184 ==> Unit(kind, pes) == pes
  {
    var unit := Unit(kind, pes);
    assert unit[..|pes|] == pes;
    assert unit[4..6] == unit[..|pes|][4..6];
  }

  lemma LengthField(kind: Kind, pes: seq<byte>, length: nat)
    requires kind != Key && |pes| >= 7 && length == (|pes| - 6) % TWO_TO_THE_16 == FromBE(pes[4..6])
    ensures Trimmed(Unit(kind, pes)) == pes <==> |pes| - 6 < TWO_TO_THE_16 || length == 0
  {
    hide FromBE;
    var n := |pes|;
    UnitKeepsLength(kind, pes);
    if n - 6 < TWO_TO_THE_16 {
      assert length == n - 6;
    } else {
      assert length < n - 6;
    }
  }
}
