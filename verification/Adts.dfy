/**
  The ADTS header of AAC frames (hls.go:180-276; Annex 1.A of ISO/IEC 14496-3): prepared once from the audio
  header, then patched in place with the length of every frame.
 */
module Adts {
  import opened Bytes
  import opened Bits
  import opened Masks

  const ADTS_LEN: nat := 7

  /** struct Adts. */
  datatype Adts = Adts(
    syncword: nat,
    id: nat,
    layer: nat,
    protectionAbsent: nat,
    profileObjectType: nat,
    samplingFrequencyIndex: nat,
    privateBit: nat,
    channelConfiguration: nat,
    originalCopy: nat,
    home: nat,
    copyrightIdentificationBit: nat,
    copyrightIdentificationStart: nat,
    aacFrameLength: nat,
    adtsBufferFullness: nat,
    numberOfRawDataBlocksInFrame: nat)

  /** Every field at the width it has in the header; the syncword is always the standard's. */
  function Narrowed(a: Adts): Adts {
    Adts(0xfff, Field(a.id, 1, 2), Field(a.layer, 1, 4), Field(a.protectionAbsent, 1, 2),
         Field(a.profileObjectType, 1, 4), Field(a.samplingFrequencyIndex, 1, 16), Field(a.privateBit, 1, 2),
         Field(a.channelConfiguration, 1, 8), Field(a.originalCopy, 1, 2), Field(a.home, 1, 2),
         Field(a.copyrightIdentificationBit, 1, 2), Field(a.copyrightIdentificationStart, 1, 2),
         Field(a.aacFrameLength, 1, 8192), Field(a.adtsBufferFullness, 1, 2048),
         Field(a.numberOfRawDataBlocksInFrame, 1, 4))
  }

  /** The 7 bytes of a header, every field masked to its width. */
  function Layout(a: Adts): (d: seq<byte>)
    ensures |d| == ADTS_LEN
  {
    [0xff,
     0xf0 + Field(a.id, 1, 2) * 8 + Field(a.layer, 1, 4) * 2 + Field(a.protectionAbsent, 1, 2),
     Field(a.profileObjectType, 1, 4) * 64 + Field(a.samplingFrequencyIndex, 1, 16) * 4 +
     Field(a.privateBit, 1, 2) * 2 + Field(a.channelConfiguration, 4, 2),
     Field(a.channelConfiguration, 1, 4) * 64 + Field(a.originalCopy, 1, 2) * 32 + Field(a.home, 1, 2) * 16 +
     Field(a.copyrightIdentificationBit, 1, 2) * 8 + Field(a.copyrightIdentificationStart, 1, 2) * 4 +
     Field(a.aacFrameLength, 2048, 4),
     Field(a.aacFrameLength, 8, 256),
     Field(a.aacFrameLength, 1, 8) * 32 + Field(a.adtsBufferFullness, 64, 32),
     Field(a.adtsBufferFullness, 1, 64) * 4 + Field(a.numberOfRawDataBlocksInFrame, 1, 4)]
  }

  function Parse(d: seq<byte>): Adts
    requires |d| == ADTS_LEN
  {
    var b0: nat, b1: nat, b2: nat, b3: nat := d[0], d[1], d[2], d[3];
    var b4: nat, b5: nat, b6: nat := d[4], d[5], d[6];
    Adts(b0 * 16 + Field(b1, 16, 16), Field(b1, 8, 2), Field(b1, 2, 4), Field(b1, 1, 2),
         Field(b2, 64, 4), Field(b2, 4, 16), Field(b2, 2, 2), Field(b2, 1, 2) * 4 + Field(b3, 64, 4),
         Field(b3, 32, 2), Field(b3, 16, 2), Field(b3, 8, 2), Field(b3, 4, 2),
         Field(b3, 1, 4) * 2048 + b4 * 8 + Field(b5, 32, 8), Field(b5, 1, 32) * 64 + Field(b6, 4, 64),
         Field(b6, 1, 4))
  }

  // ---------------------------------------------------------------- the header bytes, one by one

  lemma Byte1Parts(h: nat, i: nat, l: nat, p: nat, x: nat)
    requires h < 16 && i < 2 && l < 4 && p < 2 && x == h * 16 + i * 8 + l * 2 + p
    ensures Field(x, 16, 16) == h && Field(x, 8, 2) == i && Field(x, 2, 4) == l && Field(x, 1, 2) == p
  {
    hide *;
    Place(0, h, i * 8 + l * 2 + p, 16, 16);
    Place(h, i, l * 2 + p, 8, 2);
    Place(h * 2 + i, l, p, 2, 4);
    Place(h * 8 + i * 4 + l, p, 0, 1, 2);
  }

  lemma Byte2Parts(p: nat, s: nat, v: nat, c: nat, x: nat)
    requires p < 4 && s < 16 && v < 2 && c < 2 && x == p * 64 + s * 4 + v * 2 + c
    ensures Field(x, 64, 4) == p && Field(x, 4, 16) == s && Field(x, 2, 2) == v && Field(x, 1, 2) == c
  {
    hide *;
    Place(0, p, s * 4 + v * 2 + c, 64, 4);
    Place(p, s, v * 2 + c, 4, 16);
    Place(p * 16 + s, v, c, 2, 2);
    Place(p * 32 + s * 2 + v, c, 0, 1, 2);
  }

  lemma Byte3Parts(c: nat, o: nat, h: nat, b: nat, s: nat, l: nat, x: nat)
    requires c < 4 && o < 2 && h < 2 && b < 2 && s < 2 && l < 4
    requires x == c * 64 + o * 32 + h * 16 + b * 8 + s * 4 + l
    ensures Field(x, 64, 4) == c && Field(x, 32, 2) == o && Field(x, 16, 2) == h && Field(x, 8, 2) == b
    ensures Field(x, 4, 2) == s && Field(x, 1, 4) == l
  {
    hide *;
    Place(0, c, o * 32 + h * 16 + b * 8 + s * 4 + l, 64, 4);
    Place(c, o, h * 16 + b * 8 + s * 4 + l, 32, 2);
    Place(c * 2 + o, h, b * 8 + s * 4 + l, 16, 2);
    Place(c * 4 + o * 2 + h, b, s * 4 + l, 8, 2);
    Place(c * 8 + o * 4 + h * 2 + b, s, l, 4, 2);
    Place(c * 16 + o * 8 + h * 4 + b * 2 + s, l, 0, 1, 4);
  }

  lemma TwoParts(high: nat, low: nat, k: nat, m: nat, x: nat)
    requires high < m && low < k && x == high * k + low
    ensures Field(x, k, m) == high && Field(x, 1, k) == low
  {
    hide *;
    Place(0, high, low, k, m);
    Place(high, low, 0, 1, k);
    assert (0 * m + high) * k == high * k;
  }

  lemma Byte1Whole(x: nat)
    requires x < 256
    ensures x == Field(x, 16, 16) * 16 + Field(x, 8, 2) * 8 + Field(x, 2, 4) * 2 + Field(x, 1, 2)
  {
    hide *;
    Fits(x, 256);
    Split(x, 1, 16, 16);
    Split(x, 1, 8, 2);
    Split(x, 1, 2, 4);
  }

  lemma Byte2Whole(x: nat)
    requires x < 256
    ensures x == Field(x, 64, 4) * 64 + Field(x, 4, 16) * 4 + Field(x, 2, 2) * 2 + Field(x, 1, 2)
  {
    hide *;
    Fits(x, 256);
    Split(x, 1, 64, 4);
    Split(x, 1, 4, 16);
    Split(x, 1, 2, 2);
  }

  lemma Byte3Whole(x: nat)
    requires x < 256
    ensures x == Field(x, 64, 4) * 64 + Field(x, 32, 2) * 32 + Field(x, 16, 2) * 16 + Field(x, 8, 2) * 8 +
      Field(x, 4, 2) * 4 + Field(x, 1, 4)
  {
    hide *;
    Fits(x, 256);
    Split(x, 1, 64, 4);
    Split(x, 1, 32, 2);
    Split(x, 1, 16, 2);
    Split(x, 1, 8, 2);
    Split(x, 1, 4, 2);
  }

  lemma LowBytesWhole(x: nat)
    requires x < 256
    ensures x == Field(x, 32, 8) * 32 + Field(x, 1, 32) && x == Field(x, 4, 64) * 4 + Field(x, 1, 4)
  {
    hide *;
    Fits(x, 256);
    Split(x, 1, 32, 8);
    Split(x, 1, 4, 64);
  }

  /** The fields that lie across two or three bytes. */
  lemma AcrossBytes(c: nat, l: nat, f: nat)
    ensures Field(c, 1, 8) == Field(c, 4, 2) * 4 + Field(c, 1, 4)
    ensures Field(l, 1, 8192) == Field(l, 2048, 4) * 2048 + Field(l, 8, 256) * 8 + Field(l, 1, 8)
    ensures Field(f, 1, 2048) == Field(f, 64, 32) * 64 + Field(f, 1, 64)
  {
    hide *;
    Split(c, 1, 4, 2);
    Split(l, 1, 2048, 4);
    Split(l, 1, 8, 256);
    Split(f, 1, 64, 32);
  }

  // ---------------------------------------------------------------- both ways

  /** Parsing a laid out header gives every field at its width. */
  lemma ParseInvertsLayout(a: Adts)
    ensures Parse(Layout(a)) == Narrowed(a)
  {
    hide Field;
    var d := Layout(a);
    AcrossBytes(a.channelConfiguration, a.aacFrameLength, a.adtsBufferFullness);
    Byte1Parts(0xf, Field(a.id, 1, 2), Field(a.layer, 1, 4), Field(a.protectionAbsent, 1, 2), d[1]);
    Byte2Parts(Field(a.profileObjectType, 1, 4), Field(a.samplingFrequencyIndex, 1, 16), Field(a.privateBit, 1, 2),
               Field(a.channelConfiguration, 4, 2), d[2]);
    Byte3Parts(Field(a.channelConfiguration, 1, 4), Field(a.originalCopy, 1, 2), Field(a.home, 1, 2),
               Field(a.copyrightIdentificationBit, 1, 2), Field(a.copyrightIdentificationStart, 1, 2),
               Field(a.aacFrameLength, 2048, 4), d[3]);
    TwoParts(Field(a.aacFrameLength, 1, 8), Field(a.adtsBufferFullness, 64, 32), 32, 8, d[5]);
    TwoParts(Field(a.adtsBufferFullness, 1, 64), Field(a.numberOfRawDataBlocksInFrame, 1, 4), 4, 64, d[6]);
  }

  /** The fields of a parsed header are already at their widths. */
  lemma ParsedIsNarrow(d: seq<byte>)
    requires |d| == ADTS_LEN
    ensures var a := Parse(d); Narrowed(a) == a.(syncword := 0xfff)
  {
    hide Field;
    var a := Parse(d);
    Fits(a.id, 2);
    Fits(a.layer, 4);
    Fits(a.protectionAbsent, 2);
    Fits(a.profileObjectType, 4);
    Fits(a.samplingFrequencyIndex, 16);
    Fits(a.privateBit, 2);
    Fits(a.channelConfiguration, 8);
    Fits(a.originalCopy, 2);
    Fits(a.home, 2);
    Fits(a.copyrightIdentificationBit, 2);
    Fits(a.copyrightIdentificationStart, 2);
    Fits(a.aacFrameLength, 8192);
    Fits(a.adtsBufferFullness, 2048);
    Fits(a.numberOfRawDataBlocksInFrame, 4);
  }

  /** Two headers that parse the same are the same bytes. */
  lemma ParseIsInjective(d: seq<byte>, e: seq<byte>)
    requires |d| == |e| == ADTS_LEN && Parse(d) == Parse(e)
    ensures d == e
  {
    ParsedPieces(d);
    ParsedPieces(e);
    hide Field, Parse;
    assert forall i :: 0 <= i < 7 ==> d[i] == e[i];
  }

  /** Every byte from the fields of the parsed header. */
  lemma ParsedPieces(d: seq<byte>)
    requires |d| == ADTS_LEN
    ensures var a := Parse(d);
      && d[0] == Field(a.syncword, 16, 256)
      && d[1] == Field(a.syncword, 1, 16) * 16 + a.id * 8 + a.layer * 2 + a.protectionAbsent
      && d[2] == a.profileObjectType * 64 + a.samplingFrequencyIndex * 4 + a.privateBit * 2 +
        Field(a.channelConfiguration, 4, 2)
      && d[3] == Field(a.channelConfiguration, 1, 4) * 64 + a.originalCopy * 32 + a.home * 16 +
        a.copyrightIdentificationBit * 8 + a.copyrightIdentificationStart * 4 + Field(a.aacFrameLength, 2048, 4)
      && d[4] == Field(a.aacFrameLength, 8, 256)
      && d[5] == Field(a.aacFrameLength, 1, 8) * 32 + Field(a.adtsBufferFullness, 64, 32)
      && d[6] == Field(a.adtsBufferFullness, 1, 64) * 4 + a.numberOfRawDataBlocksInFrame
  {
    hide Field;
    var a := Parse(d);
    var b0: nat, b1: nat, b2: nat, b3: nat := d[0], d[1], d[2], d[3];
    var b4: nat, b5: nat, b6: nat := d[4], d[5], d[6];
    TwoParts(b0, Field(b1, 16, 16), 16, 256, a.syncword);
    Byte1Whole(b1);
    Byte2Whole(b2);
    Byte3Whole(b3);
    LowBytesWhole(b5);
    LowBytesWhole(b6);
    TwoParts(Field(b2, 1, 2), Field(b3, 64, 4), 4, 2, a.channelConfiguration);
    TwoParts(Field(b5, 1, 32), Field(b6, 4, 64), 64, 32, a.adtsBufferFullness);
    LengthPieces(Field(b3, 1, 4), b4, Field(b5, 32, 8), a.aacFrameLength);
  }

  lemma LengthPieces(h: nat, m: nat, l: nat, x: nat)
    requires h < 4 && m < 256 && l < 8 && x == h * 2048 + m * 8 + l
    ensures Field(x, 2048, 4) == h && Field(x, 8, 256) == m && Field(x, 1, 8) == l
  {
    hide *;
    Place(0, h, m * 8 + l, 2048, 4);
    Place(h, m, l, 8, 256);
    Place(h * 256 + m, l, 0, 1, 8);
  }

  /** Nothing of a header is lost in parsing it: 7 bytes come back if and only if they begin with the syncword. */
  lemma LayoutInvertsParse(d: seq<byte>)
    requires |d| == ADTS_LEN
    ensures Layout(Parse(d)) == d <==> Parse(d).syncword == 0xfff
  {
    hide Field, Parse, Layout;
    ParsedIsNarrow(d);
    ParseInvertsLayout(Parse(d));
    if Parse(d).syncword == 0xfff {
      ParseIsInjective(Layout(Parse(d)), d);
    }
  }

  // ---------------------------------------------------------------- the frame length

  /** What the header keeps of a length: bit 11 is masked out, because 0x2 stands where 0x3 is meant. */
  function Kept(size: nat): nat {
    Field(size, 4096, 2) * 4096 + Field(size, 1, 2048)
  }

  function WithLength(d: seq<byte>, size: nat): (r: seq<byte>)
    requires |d| == ADTS_LEN
    ensures |r| == ADTS_LEN
  {
    d[3 := Field(d[3], 4, 64) * 4 + Field(size, 4096, 2) * 2][4 := Field(size, 8, 256)]
     [5 := Field(d[5], 1, 32) + Field(size, 1, 8) * 32]
  }

  /** The masks of the source on the byte with the top of the length: 0x2 keeps one of two bits. */
  lemma MaskOfLength(x: byte, size: nat)
    ensures (((x as bv8) & 0xfc) | ((Field(size, 2048, 32) as bv8) & 0x2)) as nat ==
      Field(x, 4, 64) * 4 + Field(size, 4096, 2) * 2
  {
    hide Field;
    var y := Field(size, 2048, 32);
    Inner(size, 2048, 2, 16);
    Inner(size, 4096, 2, 8);
    ByteBack(x);
    TopField(x, y);
    HighAndBit1(x as bv8, y);
  }

  lemma TopField(x: byte, y: nat)
    requires y < 32
    ensures Field(x, 4, 64) == (x as nat) / 4 && Field(Field(y, 2, 16), 1, 2) == y / 2 % 2
  {
  }

  /** And on the byte with its low bits. */
  lemma MaskOfLowLength(x: byte, size: nat)
    ensures (((x as bv8) & 0x1f) | ((Field(size, 1, 8) as bv8) << 5)) as nat == Field(x, 1, 32) + Field(size, 1, 8) * 32
  {
    var y := Field(size, 1, 8);
    ByteBack(x);
    LowAndTop(x as bv8, y);
  }

  lemma HighPart(x: nat, h: nat, y: nat)
    requires h < 2 && y == Field(x, 4, 64) * 4 + h * 2 < 256
    ensures Field(y, 64, 4) == Field(x, 64, 4) && Field(y, 32, 2) == Field(x, 32, 2)
    ensures Field(y, 16, 2) == Field(x, 16, 2) && Field(y, 8, 2) == Field(x, 8, 2)
    ensures Field(y, 4, 2) == Field(x, 4, 2) && Field(y, 1, 4) == h * 2
  {
    hide *;
    Split(x, 4, 16, 4);
    Split(x, 4, 8, 2);
    Split(x, 4, 4, 2);
    Split(x, 4, 2, 2);
    Byte3Parts(Field(x, 64, 4), Field(x, 32, 2), Field(x, 16, 2), Field(x, 8, 2), Field(x, 4, 2), h * 2, y);
  }

  /** Patching changes the length and no other field. */
  lemma WithLengthParses(d: seq<byte>, size: nat)
    requires |d| == ADTS_LEN
    ensures Parse(WithLength(d, size)) == Parse(d).(aacFrameLength := Kept(size))
  {
    hide Field;
    var r := WithLength(d, size);
    HighPart(d[3], Field(size, 4096, 2), r[3]);
    TwoParts(Field(size, 1, 8), Field(d[5], 1, 32), 32, 8, r[5]);
    Split(size, 1, 8, 256);
    assert r[1] == d[1] && r[2] == d[2] && r[6] == d[6];
  }

  /** A length that was patched in leaves no trace in the next. */
  lemma WithLengthAbsorbs(d: seq<byte>, m: nat, n: nat)
    requires |d| == ADTS_LEN
    ensures WithLength(WithLength(d, m), n) == WithLength(d, n)
  {
    hide Field;
    var r := WithLength(d, m);
    Place(0, Field(d[3], 4, 64), Field(m, 4096, 2) * 2, 4, 64);
    TwoParts(Field(m, 1, 8), Field(d[5], 1, 32), 32, 8, r[5]);
    assert WithLength(r, n) == WithLength(d, n);
  }

  lemma KeptExactly(size: nat)
    ensures Kept(size) <= size
    ensures Kept(size) == size <==> size < 8192 && Field(size, 2048, 2) == 0
    ensures size < 2048 ==> Kept(size) == size
  {
    hide Field;
    Split(size, 1, 2048, 2);
    Split(size, 1, 4096, 2);
    Within(size, 8192);
    if size < 2048 {
      Fits(size, 2048);
    }
    if size < 8192 {
      Fits(size, 8192);
    }
  }

  lemma Within(x: nat, size: nat)
    requires size >= 1
    ensures Field(x, 1, size) <= x
  {
  }

  /** The header after any number of frames. */
  function Patched(d: seq<byte>, sizes: seq<nat>): (r: seq<byte>)
    requires |d| == ADTS_LEN
    ensures |r| == ADTS_LEN
  {
    if sizes == [] then d else WithLength(Patched(d, sizes[..|sizes| - 1]), sizes[|sizes| - 1])
  }

  /** However often it was patched, the header has the last length, and all other fields as first prepared. */
  lemma {:induction false} PatchedParses(d: seq<byte>, sizes: seq<nat>)
    requires |d| == ADTS_LEN
    ensures Parse(Patched(d, sizes)) ==
      if sizes == [] then Parse(d) else Parse(d).(aacFrameLength := Kept(sizes[|sizes| - 1]))
  {
    hide Parse, Kept, WithLength;
    if sizes != [] {
      PatchedParses(d, sizes[..|sizes| - 1]);
      WithLengthParses(Patched(d, sizes[..|sizes| - 1]), sizes[|sizes| - 1]);
    }
  }

  // ---------------------------------------------------------------- frames in a stream

  /** The first frame of an ADTS stream without its header, if it is all there. */
  function FirstFrame(stream: seq<byte>): seq<byte> {
    if |stream| < ADTS_LEN then []
    else
      var n := Parse(stream[..ADTS_LEN]).aacFrameLength;
      if ADTS_LEN <= n <= |stream| then stream[ADTS_LEN..n] else []
  }

  /** A frame with its header in front, as an audio PES packet carries it. */
  function Framed(d: seq<byte>, raw: seq<byte>): seq<byte>
    requires |d| == ADTS_LEN
  {
    WithLength(d, ADTS_LEN + |raw|) + raw
  }

  /** Of a size only 16 bits are looked at. */
  lemma LowSize(d: seq<byte>, size: nat)
    requires |d| == ADTS_LEN
    ensures WithLength(d, size % TWO_TO_THE_16) == WithLength(d, size)
  {
    Inner(size, 1, 4096, 16);
    Inner(size, 4096, 2, 8);
    Inner(size, 1, 8, 8192);
    Inner(size, 8, 256, 32);
    var low := Field(size, 1, TWO_TO_THE_16);
    Inner(low, 4096, 2, 8);
    Inner(low, 8, 256, 32);
    assert low == size % TWO_TO_THE_16;
    hide Field;
  }

  /** A decoder finds the end of a frame if and only if its size is below 8192 with bit 11 clear. */
  lemma FrameReadsBackExactly(d: seq<byte>, raw: seq<byte>, rest: seq<byte>)
    requires |d| == ADTS_LEN
    ensures var size := ADTS_LEN + |raw|;
      FirstFrame(Framed(d, raw) + rest) == raw <==> size < 8192 && Field(size, 2048, 2) == 0
  {
    hide Parse, Kept, WithLength, Field;
    var size := ADTS_LEN + |raw|;
    var stream := Framed(d, raw) + rest;
    assert stream[..ADTS_LEN] == WithLength(d, size);
    WithLengthParses(d, size);
    KeptExactly(size);
    if Kept(size) == size {
      assert stream[ADTS_LEN..size] == raw;
    }
  }

  // ---------------------------------------------------------------- the source's operations

  /** What PrepareAdtsData makes of an AudioSpecificConfig; an object type of 0 wraps to 255. */
  function Configured(data: seq<byte>): Adts
    requires |data| >= 4
  {
    Adts(0xfff, 1, 0, 1, (Field(data[2], 8, 32) + 255) % 256, Field(data[2], 1, 8) * 2 + Field(data[3], 128, 2), 0,
         Field(data[3], 8, 16), 0, 0, 0, 0, 7, 0x7ff, 0)
  }

  /** The assignments of PrepareAdtsData. */
  method Write(a: Adts) returns (d: array<byte>)
    ensures fresh(d) && d[..] == Layout(a)
  {
    hide Field;
    var b1: byte := 0xf0 + Field(a.id, 1, 2) * 8 + Field(a.layer, 1, 4) * 2 + Field(a.protectionAbsent, 1, 2);
    var b2: byte := Field(a.profileObjectType, 1, 4) * 64 + Field(a.samplingFrequencyIndex, 1, 16) * 4 +
    Field(a.privateBit, 1, 2) * 2 + Field(a.channelConfiguration, 4, 2);
    var b3: byte := Field(a.channelConfiguration, 1, 4) * 64 + Field(a.originalCopy, 1, 2) * 32 +
    Field(a.home, 1, 2) * 16 + Field(a.copyrightIdentificationBit, 1, 2) * 8 +
    Field(a.copyrightIdentificationStart, 1, 2) * 4 + Field(a.aacFrameLength, 2048, 4);
    var b4: byte := Field(a.aacFrameLength, 8, 256);
    var b5: byte := Field(a.aacFrameLength, 1, 8) * 32 + Field(a.adtsBufferFullness, 64, 32);
    var b6: byte := Field(a.adtsBufferFullness, 1, 64) * 4 + Field(a.numberOfRawDataBlocksInFrame, 1, 4);
    assert Layout(a) == [0xff, b1, b2, b3, b4, b5, b6];
    hide Layout;
    d := new byte[] [0xff, b1, b2, b3, b4, b5, b6];
  }

  method PrepareAdtsData(data: seq<byte>) returns (adtsData: array<byte>)
    requires |data| >= 4
    ensures fresh(adtsData) && adtsData[..] == Layout(Configured(data))
    ensures Parse(adtsData[..]) == Narrowed(Configured(data))
  {
    hide Field, Parse, Narrowed, Layout;
    var objectType := Field(data[2], 8, 32);
    var samplingIdx := Field(data[2], 1, 8) * 2 + Field(data[3], 128, 2);
    var channelNum := Field(data[3], 8, 16);
    var a := Adts(0xfff, 1, 0, 1, (objectType + 255) % 256, samplingIdx, 0, channelNum, 0, 0, 0, 0, 7, 0x7ff, 0);
    ParseInvertsLayout(a);
    adtsData := Write(a);
  }

  method ParseAdtsData(data: array<byte>) returns (adts: Adts)
    requires data.Length == ADTS_LEN
    ensures adts == Parse(data[..])
    ensures Layout(adts) == data[..] <==> adts.syncword == 0xfff
  {
    LayoutInvertsParse(data[..]);
    hide Field, Layout;
    var b0: nat, b1: nat, b2: nat, b3: nat := data[0], data[1], data[2], data[3];
    var b4: nat, b5: nat, b6: nat := data[4], data[5], data[6];
    adts := Adts(
      b0 * 16 + Field(b1, 16, 16), Field(b1, 8, 2), Field(b1, 2, 4), Field(b1, 1, 2),
      Field(b2, 64, 4), Field(b2, 4, 16), Field(b2, 2, 2), Field(b2, 1, 2) * 4 + Field(b3, 64, 4),
      Field(b3, 32, 2), Field(b3, 16, 2), Field(b3, 8, 2), Field(b3, 4, 2),
      Field(b3, 1, 4) * 2048 + b4 * 8 + Field(b5, 32, 8), Field(b5, 1, 32) * 64 + Field(b6, 4, 64),
      Field(b6, 1, 4));
  }

  /** The two bytes that share the length with other fields, by the masks and shifts of the source. */
  method LengthBytes(d3: byte, d5: byte, size: nat) returns (b3: byte, b5: byte)
    requires size < TWO_TO_THE_16
    ensures b3 == Field(d3, 4, 64) * 4 + Field(size, 4096, 2) * 2
    ensures b5 == Field(d5, 1, 32) + Field(size, 1, 8) * 32
  {
    MaskOfLength(d3, size);
    MaskOfLowLength(d5, size);
    hide Field;
    b3 := (((d3 as bv8) & 0xfc) | ((Field(size, 2048, 32) as bv8) & 0x2)) as nat;
    b5 := (((d5 as bv8) & 0x1f) | ((Field(size, 1, 8) as bv8) << 5)) as nat;
  }

  method SetAdtsLength(d: array<byte>, size: nat)
    requires d.Length == ADTS_LEN && size < TWO_TO_THE_16
    modifies d
    ensures d[..] == WithLength(old(d[..]), size)
    ensures Parse(d[..]) == Parse(old(d[..])).(aacFrameLength := Kept(size))
  {
    WithLengthParses(d[..], size);
    hide Parse, Kept, Field;
    var b3, b5 := LengthBytes(d[3], d[5], size);
    d[3] := b3;
    d[4] := Field(size, 8, 256);
    d[5] := b5;
    assert d[..] == WithLength(old(d[..]), size);
  }
}
