/** The PES packets as the source builds them in byte slices (hls.go:880-1064), proved against Pes.dfy. */
module PesIo {
  import opened Bytes
  import opened DataTypes
  import opened ParameterSets
  import opened Bits
  import opened Pes
  import Adts

  method PutStamp(d: array<byte>, at: nat, tag: nat, t: nat)
    requires at + 5 <= d.Length && tag < 16
    modifies d
    ensures d[..at + 5] == old(d[..at]) + Stamp(tag, t)
  {
    MaskOfStamp(t);
    hide Field;
    var top := (((Field(t, 0x2000_0000, 16) as bv8) & 0xd) | 0x1) as nat;
    var b0: byte := tag * 16 + top;
    var b2: byte := Field(t, 0x8000, 128) * 2 + 1;
    var b4: byte := Field(t, 1, 128) * 2 + 1;
    d[at] := b0;
    d[at + 1] := Field(t, 0x40_0000, 256);
    d[at + 2] := b2;
    d[at + 3] := Field(t, 0x80, 256);
    d[at + 4] := b4;
    assert d[..at + 5] == d[..at] + Stamp(tag, t);
  }

  lemma Constants()
    ensures ToBE(1, 4) == [0, 0, 0, 1] && ToBE(1, 3) == [0, 0, 1] && ToBE(0, 2) == [0, 0]
  {
    assert ToBE(0, 1) == [0];
    assert ToBE(1, 1) == [1];
    assert ToBE(0, 2) == [0, 0];
    assert ToBE(0, 3) == [0, 0, 0];
  }

  /** PesHeaderCreate, the times. */
  method Times(kind: Kind, timestamp: nat, data: seq<byte>) returns (pts: nat, dts: nat)
    requires |data| >= TagLen(kind)
    ensures pts == Pts(kind, timestamp, data) && dts == Dts(timestamp)
    ensures pts < TWO_TO_THE_33
  {
    PtsFits(kind, timestamp, data);
    dts := timestamp * CLOCK % TWO_TO_THE_32;
    pts := dts;
    if kind != Aac {
      var compositionTime := ByteToUint(data[2..5], 4, BE);
      assert data[2..5][..Min(3, 4)] == data[2..5];
      pts := dts + compositionTime * CLOCK % TWO_TO_THE_32;
    }
  }

  /** PesHeaderCreate, the fixed part. */
  method PutFixed(d: array<byte>, kind: Kind, both: bool)
    requires d.Length >= 9
    modifies d
    ensures d[..9] == [0, 0, 1, StreamId(kind), 0, 0, 0x80] + if both then [0xc0, 10] else [0x80, 5]
  {
    Constants();
    hide ToBE;
    PutUint(d, 0, 3, 1);
    d[3] := if kind == Aac then 0xc0 else 0xe0;
    assert d[..4] == d[..3] + [StreamId(kind)];
    PutUint(d, 4, 6, 0);
    d[6] := 0x80;
    d[7] := if both then 0xc0 else 0x80;
    d[8] := if both then 10 else 5;
    assert d[..9] == d[..6] + [0x80, d[7], d[8]];
  }

  /** The packet length is left 0. */
  method PesHeaderCreate(kind: Kind, timestamp: nat, data: seq<byte>)
    returns (pts: nat, dts: nat, pesData: array<byte>)
    requires |data| >= TagLen(kind)
    ensures pts == Pts(kind, timestamp, data) && dts == Dts(timestamp)
    ensures fresh(pesData) && pesData[..] == Header(kind, pts, dts)
  {
    hide Pts, Dts, Stamp;
    pts, dts := Times(kind, timestamp, data);
    var both := pts != dts;
    pesData := new byte[if both then 19 else 14];
    PutFixed(pesData, kind, both);
    PutStamp(pesData, 9, if both then 3 else 2, pts);
    if both {
      PutStamp(pesData, 14, 1, dts);
      assert pesData[..] == pesData[..19];
    } else {
      assert pesData[..] == pesData[..14];
    }
    assert pesData[..] == Header(kind, pts, dts);
  }

  /** The size is a uint16 already, so that the test for one that is too large never holds. */
  method SetPesPakcetLength(d: array<byte>, size: nat)
    requires d.Length >= 6 && size < TWO_TO_THE_16
    modifies d
    ensures d[..] == old(d[..4]) + ToBE(size, 2) + old(d[6..])
  {
    hide ToBE, ToLE;
    if size > 0xffff {
      return;
    }
    var r := UintToByte(size, 2, d, 4, 6, BE);
    assert r[..Min(2, 2)] == r;
    assert d[..] == Overwrite(old(d[..]), 4, r);
  }

  /** An access unit delimiter. */
  method PutDelimiter(d: array<byte>, ss: nat, ee: nat)
    requires ss + 6 == ee <= d.Length
    modifies d
    ensures d[..ee] == old(d[..ss]) + DELIMITER
  {
    Constants();
    hide ToBE;
    PutUint(d, ss, ss + 4, 1);
    d[ss + 4] := 0x09;
    d[ss + 5] := 0xf0;
    assert d[..ee] == d[..ss + 4] + [0x09, 0xf0];
  }

  method PesDataCreateKeyFrame(msgData: seq<byte>, spsPpsData: seq<byte>, phd: array<byte>)
    returns (data: array<byte>)
    requires |msgData| >= 9
    ensures fresh(data) && data[..] == phd[..] + Body(Key, spsPpsData, [], msgData)
  {
    Constants();
    hide ToBE;
    var msgDataLen := |msgData| - 9;
    data := new byte[phd.Length + |spsPpsData| + 6 + 3 + msgDataLen];
    var ss, ee := 0, phd.Length;
    Put(data, ss, ee, phd[..]);
    ss, ee := ee, ee + 6;
    PutDelimiter(data, ss, ee);
    ss, ee := ee, ee + |spsPpsData|;
    Put(data, ss, ee, spsPpsData);
    ss, ee := ee, ee + 3;
    PutUint(data, ss, ee, 1);
    ss, ee := ee, ee + msgDataLen;
    Put(data, ss, ee, msgData[9..]);
    assert data[..ee] == data[..];
    assert data[..] == phd[..] + DELIMITER + spsPpsData + START_CODE + msgData[9..];
  }

  method PesDataCreateInterFrame(msgData: seq<byte>, phd: array<byte>) returns (data: array<byte>)
    requires |msgData| >= 9
    ensures fresh(data) && data[..] == phd[..] + Body(Inter, [], [], msgData)
  {
    Constants();
    hide ToBE;
    var msgDataLen := |msgData| - 9;
    data := new byte[phd.Length + 6 + 3 + msgDataLen];
    var ss, ee := 0, phd.Length;
    Put(data, ss, ee, phd[..]);
    ss, ee := ee, ee + 6;
    PutDelimiter(data, ss, ee);
    ss, ee := ee, ee + 3;
    PutUint(data, ss, ee, 1);
    ss, ee := ee, ee + msgDataLen;
    Put(data, ss, ee, msgData[9..]);
    assert data[..ee] == data[..];
    assert data[..] == phd[..] + DELIMITER + START_CODE + msgData[9..];
  }

  /** The header kept for the stream is patched with this frame's length, and copied. */
  method PesDataCreateAacFrame(msgData: seq<byte>, adtsData: array<byte>, phd: array<byte>)
    returns (data: array<byte>)
    requires |msgData| >= 2 && adtsData.Length == Adts.ADTS_LEN && phd != adtsData
    modifies adtsData
    ensures adtsData[..] == Adts.WithLength(old(adtsData[..]), AdtsSize(msgData))
    ensures fresh(data) && data[..] == phd[..] + Body(Aac, [], old(adtsData[..]), msgData)
  {
    hide Adts.WithLength, Adts.Parse, Adts.Layout, Adts.Kept;
    var msgDataLen := |msgData| - 2;
    data := new byte[phd.Length + 7 + msgDataLen];
    var ss, ee := 0, phd.Length;
    Put(data, ss, ee, phd[..]);
    ss, ee := ee, ee + 7;
    Adts.SetAdtsLength(adtsData, (7 + msgDataLen) % TWO_TO_THE_16);
    var _ := Adts.ParseAdtsData(adtsData);
    Put(data, ss, ee, adtsData[..]);
    ss, ee := ee, ee + msgDataLen;
    Put(data, ss, ee, msgData[2..]);
    assert data[..ee] == data[..];
    assert data[..] == phd[..] + adtsData[..] + msgData[2..];
  }
}
