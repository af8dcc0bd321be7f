/**
  What publishers put into video and audio messages: the tag bodies of sections E.4.2 and E.4.3 of the FLV 10.1
  specification, with the records of section 5.2.4.1 of ISO/IEC 14496-15 and section 1.6.2.1 of ISO/IEC 14496-3.
 */
module FlvMedia {
  import opened Bytes
  import AnnexB

  // ---------------------------------------------------------------- pictures

  /** VIDEODATA with CodecID 7: FrameType and CodecID, AVCPacketType, CompositionTime, and what they are about. */
  function AvcBody(frameType: nat, packetType: byte, time: seq<byte>, data: seq<byte>): seq<byte>
    requires frameType < 16
  {
    [frameType * 16 + 7, packetType] + (time + data)
  }

  ghost predicate IsAvc(body: seq<byte>, frameType: nat, packetType: byte)
    requires frameType < 16
  {
    exists time, data :: |time| == 3 && body == AvcBody(frameType, packetType, time, data)
  }

  /** A frame of some NAL units: FrameType 1 says keyframe, 2 inter frame; AVCPacketType 1 says NAL units. */
  function FrameBody(keyframe: bool, time: seq<byte>, nals: seq<seq<byte>>): seq<byte> {
    AvcBody(if keyframe then 1 else 2, 1, time, AnnexB.Sample(nals))
  }

  /**
    AVCDecoderConfigurationRecord, behind the five bytes of the tag header and the five of version, profile and length
    size: the record has one sequence parameter set, which is sps, and its first picture parameter set is pps. Each set
    has its size in front of it, and the picture parameter sets their number.
   */
  predicate HasSets(body: seq<byte>, sps: seq<byte>, pps: seq<byte>) {
    var n, m := |sps|, |pps|;
    && |body| >= 16 + n + m
    && body[10] % 32 == 1
    && (body[11] as nat) * 256 + body[12] == n && body[13..13 + n] == sps
    && body[13 + n] >= 1
    && (body[14 + n] as nat) * 256 + body[15 + n] == m && body[16 + n..16 + n + m] == pps
  }

  // ---------------------------------------------------------------- sound

  /** AUDIODATA with SoundFormat 10: SoundFormat and what else is in that byte, AACPacketType, and the rest. */
  function AacBody(sound: nat, packetType: byte, data: seq<byte>): seq<byte>
    requires sound < 16
  {
    [0xa0 + sound, packetType] + data
  }

  ghost predicate IsAac(body: seq<byte>, packetType: byte) {
    exists sound: nat, data :: sound < 16 && body == AacBody(sound, packetType, data)
  }

  /** AudioSpecificConfig: 5, 4 and 4 bits, and 3 that do not matter here. */
  function AudioConfig(objectType: nat, frequency: nat, channels: nat, flags: nat, more: seq<byte>): seq<byte>
    requires objectType < 32 && frequency < 16 && channels < 16 && flags < 8
  {
    ToBE(objectType * 2048 + frequency * 128 + channels * 8 + flags, 2) + more
  }
}
