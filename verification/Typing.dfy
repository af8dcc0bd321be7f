/** Which messages get which DataType (rtmp.go:822-862, 957-1192), in terms of what publishers lay out. */
module Typing {
  import opened Bytes
  import opened DataTypes
  import opened FlvMedia
  import opened ParameterSets
  import opened Receiver
  import Adts
  import Amf0
  import AnnexB
  import Bits
  import Chunks
  import Segments

  lemma AvcParts(body: seq<byte>, frameType: nat, packetType: byte)
    requires frameType < 16
    ensures IsAvc(body, frameType, packetType) <==>
      |body| >= 5 && body[0] == frameType * 16 + 7 && body[1] == packetType
  {
    if |body| >= 5 && body[0] == frameType * 16 + 7 && body[1] == packetType {
      assert body == AvcBody(frameType, packetType, body[2..5], body[5..]);
    }
  }

  lemma AacParts(body: seq<byte>, packetType: byte)
    ensures IsAac(body, packetType) <==> |body| >= 2 && 0xa0 <= body[0] < 0xb0 && body[1] == packetType
  {
    if |body| >= 2 && 0xa0 <= body[0] < 0xb0 && body[1] == packetType {
      assert body == AacBody(body[0] - 0xa0, packetType, body[2..]);
    }
  }

  /** The two halves of a tag body's first byte. */
  lemma Halves(x: byte, high: nat, low: nat)
    requires low < 16
    ensures (x as nat) / 16 == high && x % 16 == low <==> x == high * 16 + low
  {
  }

  /**
    A message is typed a keyframe if and only if it is a video message that holds NAL units under FrameType 1; an inter
    frame, the same under FrameType 2; a video header, a configuration record under either whose indices are in range.
   */
  lemma VideoExactly(m: Chunks.Message)
    ensures TypeOf(m) == Passed(Frame(Key)) <==> m.typeId == 9 && IsAvc(m.data, 1, 1)
    ensures TypeOf(m) == Passed(Frame(Inter)) <==> m.typeId == 9 && IsAvc(m.data, 2, 1)
    ensures TypeOf(m) == Passed(VideoHeader) <==>
      m.typeId == 9 && (IsAvc(m.data, 1, 0) || IsAvc(m.data, 2, 0)) && RecordOk(m.data)
    ensures m.typeId == 9 && IsAvc(m.data, 1, 1) ==>
      ContentOf(m) == MediaFrame(Key) && ForHls(m, DataTypeOf(m)) == Segments.Media(Key, m.timestamp, m.data)
    ensures m.typeId == 9 && IsAvc(m.data, 2, 1) ==>
      ContentOf(m) == MediaFrame(Inter) && ForHls(m, DataTypeOf(m)) == Segments.Media(Inter, m.timestamp, m.data)
    ensures ContentOf(m) == Head(VideoHead) <==> TypeOf(m) == Passed(VideoHeader)
    ensures ContentOf(m) == Head(VideoHead) ==> ForHls(m, DataTypeOf(m)) == Segments.VideoHeader(m.data)
  {
    forall f, t | f == 1 || f == 2
      ensures IsAvc(m.data, f, t) <==> |m.data| >= 5 && m.data[0] == f * 16 + 7 && m.data[1] == t
    {
      AvcParts(m.data, f, t);
    }
    if m.data != [] {
      Halves(m.data[0], 1, 7);
      Halves(m.data[0], 2, 7);
    }
    CommandIsPlain(m.data);
    TypesOfMedia(m.data);
    hide RecordOk, CommandType, IsAvc, AudioType;
  }

  /** Of the video messages that pass, configuration records are headers. */
  lemma PassedVideo(m: Chunks.Message)
    requires TypeOf(m).Passed? && m.typeId == 9
    ensures IsAvc(m.data, 1, 0) || IsAvc(m.data, 2, 0) ==> TypeOf(m) == Passed(VideoHeader)
  {
    AvcParts(m.data, 1, 0);
    AvcParts(m.data, 2, 0);
    hide RecordOk, IsAvc;
  }

  /**
    Sound is typed by SoundFormat 10 and AACPacketType: 0 is a header, if there are two bytes of configuration, and
    every other value a frame.
   */
  lemma AudioExactly(m: Chunks.Message)
    ensures TypeOf(m) == Passed(AudioHeader) <==> m.typeId == 8 && IsAac(m.data, 0) && |m.data| >= 4
    ensures TypeOf(m) == Passed(Frame(Aac)) <==> m.typeId == 8 && exists t: byte :: t != 0 && IsAac(m.data, t)
    ensures TypeOf(m) == Passed(Frame(Aac)) ==>
      ContentOf(m) == MediaFrame(Aac) && ForHls(m, DataTypeOf(m)) == Segments.Media(Aac, m.timestamp, m.data)
    ensures ContentOf(m) == Head(AudioHead) <==> TypeOf(m) == Passed(AudioHeader)
    ensures ContentOf(m) == Head(AudioHead) ==> ForHls(m, DataTypeOf(m)) == Segments.AudioHeader(m.data)
  {
    forall t: byte
      ensures IsAac(m.data, t) <==> |m.data| >= 2 && 0xa0 <= m.data[0] < 0xb0 && m.data[1] == t
    {
      AacParts(m.data, t);
    }
    if m.data != [] {
      assert (m.data[0] as nat) / 16 == 10 <==> 0xa0 <= m.data[0] < 0xb0;
    }
    CommandIsPlain(m.data);
    TypesOfMedia(m.data);
    hide CommandType, IsAac, VideoType;
    if |m.data| >= 2 && m.data[1] != 0 && IsAac(m.data, m.data[1]) {
      assert exists t: byte :: t != 0 && IsAac(m.data, t);
    }
  }

  /** Metadata is told by its type id, and cached if what it holds was marshalled as AMF0. */
  lemma MetadataExactly(m: Chunks.Message, ts: seq<Amf0.Tree>)
    requires forall t :: t in ts ==> Amf0.TreeEncodable(t)
    ensures TypeOf(m) == Passed(Metadata) <==> m.typeId == 18 || m.typeId == 15
    ensures TypeOf(m) == Passed(Metadata) && m.data == Amf0.PrintAll(ts) ==> ContentOf(m) == Head(MetaHead)
    ensures ContentOf(m) == Head(MetaHead) ==> TypeOf(m) == Passed(Metadata)
  {
    Amf0.AllReadBack(ts);
    CommandIsPlain(m.data);
    TypesOfMedia(m.data);
    hide CommandType, AudioType, VideoType, Amf0.ParseAll;
  }

  /** The commands that leave a session as it is, by name (section 7.2 of the RTMP 1.0 specification). */
  predicate IsPassedOver(name: seq<byte>) {
    || name == Ascii("releaseStream") || name == Ascii("FCPublish") || name == Ascii("createStream")
    || name == Ascii("publish") || name == Ascii("play") || name == Ascii("getStreamLength")
  }

  /** What connect asks of the objects behind it: these fields, where they are there, are strings and a number. */
  ghost predicate WellTyped(ts: seq<Amf0.Tree>) {
    forall v, key :: v in Amf0.Meanings(ts) && v.Object? && key in v.fields ==>
      && (key == Ascii("app") || key == Ascii("flashVer") || key == Ascii("tcUrl") || key == Ascii("type") ==>
            v.fields[key].Str?)
      && (key == Ascii("objectEncoding") ==> v.fields[key].Number?)
  }

  lemma ConnectExactly(ts: seq<Amf0.Tree>)
    ensures ConnectOk(Amf0.Meanings(ts)) <==> WellTyped(ts)
  {
    hide Ascii, Amf0.Meaning;
    var vs := Amf0.Meanings(ts);
    if ConnectOk(vs) {
      forall v, key | v in vs && v.Object? && key in v.fields
        ensures key == Ascii("app") || key == Ascii("flashVer") || key == Ascii("tcUrl") || key == Ascii("type") ==>
          v.fields[key].Str?
        ensures key == Ascii("objectEncoding") ==> v.fields[key].Number?
      {
        var i :| 0 <= i < |vs| && vs[i] == v;
      }
    }
  }

  /**
    A command that was marshalled from encodable values: connect passes or panics by the types of its fields; all others
    pass or are refused by their names alone, and without a name there is a panic.
   */
  lemma CommandsExactly(m: Chunks.Message, ts: seq<Amf0.Tree>)
    requires m.typeId == 20 && m.data == Amf0.PrintAll(ts) && forall t :: t in ts ==> Amf0.TreeEncodable(t)
    ensures TypeOf(m) ==
      if ts == [] || !ts[0].TStr? then Panics
      else if ts[0].s == Ascii("connect") then (if WellTyped(ts) then Passed(Untyped) else Panics)
      else if IsPassedOver(ts[0].s) then Passed(Untyped)
      else Refused
    ensures ContentOf(m) == Plain
  {
    Amf0.AllReadBack(ts);
    ConnectExactly(ts);
    hide Ascii, Amf0.ParseAll, Amf0.TreeEncodable, ConnectOk, WellTyped;
  }

  // ---------------------------------------------------------------- what the headers hold

  lemma BigEndian(b: seq<byte>)
    requires |b| == 2
    ensures FromBE(b) == (b[0] as nat) * 256 + b[1]
  {
    assert b[..1] == [b[0]] && [b[0]][..0] == [];
    assert FromBE([b[0]]) == b[0];
  }

  lemma EndOfSps(d: seq<byte>, sps: seq<byte>, pps: seq<byte>)
    requires HasSets(d, sps, pps)
    ensures FromBE(d[11..13]) == |sps| && EndPos(d) == (13 + |sps|) % TWO_TO_THE_16
  {
    BigEndian(d[11..13]);
    hide FromBE;
  }

  lemma HeadOfTail(d: seq<byte>, at: nat, n: nat)
    requires at + n <= |d|
    ensures |d[at..]| >= n && d[at..][..n] == d[at..at + n]
  {
  }

  /** Where the server finds the sets, if positions fit 16 bits. */
  lemma SetsFound(d: seq<byte>, sps: seq<byte>, pps: seq<byte>)
    requires HasSets(d, sps, pps) && 16 + |sps| < TWO_TO_THE_16
    ensures EndPos(d) == 13 + |sps| && RecordOk(d) && SpsSize(d) == |sps| && PpsSize(d) == |pps|
    ensures d[13..EndPos(d)] == sps && |d[Behind(d, 3)..]| >= |pps| && d[Behind(d, 3)..][..|pps|] == pps
  {
    hide FromBE, EndPos;
    var n := |sps|;
    EndOfSps(d, sps, pps);
    BigEndian(d[14 + n..16 + n]);
    PositionsFound(d, n);
    hide Behind;
    HeadOfTail(d, 16 + n, |pps|);
  }

  lemma PositionsFound(d: seq<byte>, n: nat)
    requires |d| >= 16 + n && 16 + n < TWO_TO_THE_16 && EndPos(d) == 13 + n
    ensures Behind(d, 1) == 14 + n && Behind(d, 3) == 16 + n && RecordOk(d)
  {
    hide EndPos;
  }

  lemma PositionsFit(d: seq<byte>, sps: seq<byte>, pps: seq<byte>)
    requires HasSets(d, sps, pps) && RecordOk(d)
    ensures SpsSize(d) == |sps| && (16 + |sps| < TWO_TO_THE_16 || EndPos(d) == LAST_POS)
  {
    EndOfSps(d, sps, pps);
    hide FromBE;
    var e := EndPos(d);
    assert e == 13 + |sps| by {
      assert |sps| < TWO_TO_THE_16;
    }
  }

  /** With the positions wrapped round to the tag header, its first bytes are a size that is too large. */
  lemma WrapsAround(d: seq<byte>)
    requires RecordOk(d) && EndPos(d) == LAST_POS && 16 + SpsSize(d) >= TWO_TO_THE_16 && d[0] >= 16
    ensures !PrepareOk(d)
  {
    BigEndian(d[0..2]);
    PrepareExactly(d);
    assert PpsSize(d) == FromBE(d[0..2]);
  }

  /**
    A header with one sequence parameter set can be prepared if and only if positions and sizes fit 16 bits with the
    start codes; then the set and the first picture parameter set are kept, each behind a start code.
   */
  lemma SetsKept(d: seq<byte>, sps: seq<byte>, pps: seq<byte>)
    requires HasSets(d, sps, pps) && d[0] >= 16
    ensures RecordOk(d) && PrepareOk(d) <==> 16 + |sps| < TWO_TO_THE_16 && 6 + |sps| + |pps| < TWO_TO_THE_16
    ensures RecordOk(d) && PrepareOk(d) ==> SpsPps(d) == AnnexB.Stream([sps, pps])
  {
    if 16 + |sps| < TWO_TO_THE_16 {
      SetsFound(d, sps, pps);
      PrepareExactly(d);
      TwoSets(sps, pps);
      AsTheyAre(d, sps, pps);
    } else if RecordOk(d) {
      PositionsFit(d, sps, pps);
      WrapsAround(d);
    }
    hide *;
  }

  lemma AsTheyAre(d: seq<byte>, sps: seq<byte>, pps: seq<byte>)
    requires RecordOk(d) && SpsSize(d) == |sps| && PpsSize(d) == |pps|
    requires d[13..EndPos(d)] == sps && |d[Behind(d, 3)..]| >= |pps| && d[Behind(d, 3)..][..|pps|] == pps
    ensures SpsPps(d) == [0, 0, 1] + sps + ([0, 0, 1] + pps)
  {
    hide FromBE, EndPos, Behind, SpsSize, PpsSize;
    assert Sized(sps, |sps|) == sps;
  }

  lemma TwoSets(sps: seq<byte>, pps: seq<byte>)
    ensures AnnexB.Stream([sps, pps]) == [0, 0, 1] + sps + ([0, 0, 1] + pps)
  {
    assert [sps, pps][1..] == [pps] && [pps][1..] == [];
    assert AnnexB.Stream([pps]) == [0, 0, 1] + pps;
  }

  /** A video header with two sequence parameter sets and one picture parameter set. */
  const TWO_SPS: seq<byte> :=
    [0x17, 0, 0, 0, 0, 1, 77, 64, 31, 0xff, 0xe2, 0, 2, 0x67, 1, 0, 2, 0x67, 2, 1, 0, 2, 0x68, 3]

  lemma TwoSpsIsHeader()
    ensures IsAvc(TWO_SPS, 1, 0)
  {
    assert TWO_SPS[0] == 0x17 && TWO_SPS[1] == 0;
    AvcParts(TWO_SPS, 1, 0);
  }

  /**
    A header that announces two sequence parameter sets can pass and be prepared, and something else is in the place of
    its picture parameter set: the size of that is looked for inside the second set.
   */
  lemma SecondSpsMisread()
    ensures IsAvc(TWO_SPS, 1, 0) && RecordOk(TWO_SPS) && PrepareOk(TWO_SPS)
    ensures SpsPps(TWO_SPS) != AnnexB.Stream([[0x67, 1], [0x67, 2], [0x68, 3]])
    ensures SpsPps(TWO_SPS) != AnnexB.Stream([[0x67, 1], [0x68, 3]])
  {
    hide IsAvc, PrepareOk, AnnexB.Stream, RecordOk, SpsPps, SpsSize, PpsSize;
    TwoSpsIsHeader();
    TwoSpsSizes();
    PrepareExactly(TWO_SPS);
    TwoSets([0x67, 1], [0x68, 3]);
    ThreeSets([0x67, 1], [0x67, 2], [0x68, 3]);
    assert |SpsPps(TWO_SPS)| == 6 + SpsSize(TWO_SPS) + PpsSize(TWO_SPS) by {
      KeptLength(TWO_SPS);
    }
  }

  lemma TwoSpsSizes()
    ensures RecordOk(TWO_SPS) && SpsSize(TWO_SPS) == 2 && PpsSize(TWO_SPS) == 513
  {
    BigEndian(TWO_SPS[11..13]);
    BigEndian(TWO_SPS[18..20]);
    hide FromBE;
    assert EndPos(TWO_SPS) == 17 && Behind(TWO_SPS, 1) == 18 && Behind(TWO_SPS, 3) == 20;
  }

  lemma KeptLength(d: seq<byte>)
    requires RecordOk(d)
    ensures |SpsPps(d)| == 6 + SpsSize(d) + PpsSize(d)
  {
    hide SpsSize, PpsSize, EndPos, Behind, Sized;
  }

  lemma ThreeSets(a: seq<byte>, b: seq<byte>, c: seq<byte>)
    ensures |AnnexB.Stream([a, b, c])| == 9 + |a| + |b| + |c|
  {
    TwoSets(b, c);
    assert [a, b, c][1..] == [b, c];
  }

  lemma ConfigBytes(objectType: nat, frequency: nat, channels: nat, flags: nat)
    requires objectType < 32 && frequency < 16 && channels < 16 && flags < 8
    ensures ToBE(objectType * 2048 + frequency * 128 + channels * 8 + flags, 2) ==
      [objectType * 8 + frequency / 2, frequency % 2 * 128 + channels * 8 + flags]
  {
    var v := objectType * 2048 + frequency * 128 + channels * 8 + flags;
    assert v / 256 == objectType * 8 + frequency / 2 && v % 256 == frequency % 2 * 128 + channels * 8 + flags;
    assert ToBE(v, 2) == ToBE(v / 256, 1) + [v % 256];
    assert ToBE(v / 256, 1) == ToBE(v / 256 / 256, 0) + [v / 256 % 256];
  }

  lemma ConfigFields(d: seq<byte>, objectType: nat, frequency: nat, channels: nat, flags: nat)
    requires objectType < 32 && frequency < 16 && channels < 16 && flags < 8 && |d| >= 4
    requires d[2] == objectType * 8 + frequency / 2 && d[3] == frequency % 2 * 128 + channels * 8 + flags
    ensures Bits.Field(d[2], 8, 32) == objectType && Bits.Field(d[3], 8, 16) == channels
    ensures Bits.Field(d[2], 1, 8) * 2 + Bits.Field(d[3], 128, 2) == frequency
  {
  }

  /**
    Of an AudioSpecificConfig the ADTS header, as it parses (`Adts.ParseInvertsLayout`), keeps the frequency always, the
    object type if it is 1 to 4, and the channels below 8: those are what its 2 and 3 bits can say. The other fields are
    fixed, for one frame without a check sum at a variable rate.
   */
  lemma ConfigKept(sound: nat, objectType: nat, frequency: nat, channels: nat, flags: nat, more: seq<byte>)
    requires sound < 16 && objectType < 32 && frequency < 16 && channels < 16 && flags < 8
    ensures var d := AacBody(sound, 0, AudioConfig(objectType, frequency, channels, flags, more));
      |d| >= 4 && var a := Adts.Narrowed(Adts.Configured(d));
        && a.samplingFrequencyIndex == frequency
        && (a.profileObjectType + 1 == objectType <==> 1 <= objectType <= 4)
        && (a.channelConfiguration == channels <==> channels < 8)
        && a.syncword == 0xfff && a.layer == 0 && a.protectionAbsent == 1 && a.id == 1
        && a.adtsBufferFullness == 0x7ff && a.numberOfRawDataBlocksInFrame == 0
  {
    ConfigBytes(objectType, frequency, channels, flags);
    var d := AacBody(sound, 0, AudioConfig(objectType, frequency, channels, flags, more));
    assert d[2] == AudioConfig(objectType, frequency, channels, flags, more)[0];
    assert d[3] == AudioConfig(objectType, frequency, channels, flags, more)[1];
    ConfigFields(d, objectType, frequency, channels, flags);
    NarrowConfig(Adts.Configured(d), frequency, channels, objectType);
    hide Adts.Narrowed, Bits.Field;
  }

  lemma NarrowConfig(a: Adts.Adts, frequency: nat, channels: nat, objectType: nat)
    requires a.samplingFrequencyIndex == frequency < 16 && a.channelConfiguration == channels < 16
    requires a.profileObjectType == (objectType + 255) % 256 && objectType < 32
    requires a.layer == 0 && a.protectionAbsent == a.id == 1
    requires a.adtsBufferFullness == 0x7ff && a.numberOfRawDataBlocksInFrame == 0
    ensures var b := Adts.Narrowed(a);
      && b.samplingFrequencyIndex == frequency
      && (b.profileObjectType + 1 == objectType <==> 1 <= objectType <= 4)
      && (b.channelConfiguration == channels <==> channels < 8)
      && b.syncword == 0xfff && b.layer == 0 && b.protectionAbsent == 1 && b.id == 1
      && b.adtsBufferFullness == 0x7ff && b.numberOfRawDataBlocksInFrame == 0
  {
  }
}
