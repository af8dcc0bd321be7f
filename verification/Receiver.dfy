/**
  What the receiver makes of a message (rtmp.go:822-862, 940-1192): its DataType, a place in the GOP cache, and what
  that obliges the HLS producer to handle (hls.go:302-331).
 */
module Receiver {
  import opened Bytes
  import opened DataTypes
  import opened ParameterSets
  import Amf0
  import AmfIo
  import Chunks
  import Gop
  import Mux
  import Pes
  import Segments

  const AUDIO: nat := 8
  const VIDEO: nat := 9
  const DATA_AMF3: nat := 15
  const DATA_AMF0: nat := 18
  const COMMAND: nat := 20

  datatype DataType = Untyped | Metadata | VideoHeader | AudioHeader | Frame(kind: Kind)

  /** Panics is an index out of range, Refused an error; both end the stream. */
  datatype Outcome = Panics | Refused | Passed(dataType: DataType)

  // ---------------------------------------------------------------- the DataType of a message

  function Ascii(s: string): (b: seq<byte>)
    ensures |b| == |s|
  {
    seq(|s|, i requires 0 <= i < |s| => (s[i] as int) % 256)
  }

  /** The commands that are answered or passed over, other than connect. */
  predicate Known(name: seq<byte>) {
    || name == Ascii("releaseStream") || name == Ascii("FCPublish") || name == Ascii("createStream")
    || name == Ascii("publish") || name == Ascii("play") || name == Ascii("getStreamLength")
  }

  /** The type assertions of AmfConnectHandle hold. */
  predicate ConnectOk(vs: seq<Amf0.Value>) {
    forall i :: 0 <= i < |vs| && vs[i].Object? ==> FieldsOk(vs[i].fields)
  }

  predicate FieldsOk(o: map<seq<byte>, Amf0.Value>) {
    && IsText(o, Ascii("app")) && IsText(o, Ascii("flashVer")) && IsText(o, Ascii("tcUrl")) && IsText(o, Ascii("type"))
    && (Ascii("objectEncoding") in o ==> o[Ascii("objectEncoding")].Number?)
  }

  predicate IsText(o: map<seq<byte>, Amf0.Value>, key: seq<byte>) {
    key in o ==> o[key].Str?
  }

  /** AmfHandle: a command that cannot be decoded or is not known is an error, one without a name panics. */
  function CommandType(data: seq<byte>): Outcome {
    var (vs, e) := Amf0.ParseAll(data);
    if e != Amf0.Eof then Refused
    else if vs == [] || !vs[0].Str? then Panics
    else if vs[0].s == Ascii("connect") then (if ConnectOk(vs) then Passed(Untyped) else Panics)
    else if Known(vs[0].s) then Passed(Untyped)
    else Refused
  }

  function VideoType(data: seq<byte>): Outcome {
    if |data| < 1 then Panics
    else if (data[0] as nat) / 16 != 1 && (data[0] as nat) / 16 != 2 then Refused
    else if data[0] % 16 != 7 then Refused
    else if |data| < 5 then Panics
    else AvcType(data, if (data[0] as nat) / 16 == 1 then Key else Inter)
  }

  /** By the packet type: a configuration record or a frame. */
  function AvcType(data: seq<byte>, kind: Kind): Outcome
    requires |data| >= 5
  {
    if data[1] == 0 then (if RecordOk(data) then Passed(VideoHeader) else Panics)
    else if data[1] == 1 then Passed(Frame(kind))
    else Refused
  }

  function AudioType(data: seq<byte>): Outcome {
    if |data| < 1 then Panics
    else if (data[0] as nat) / 16 != 10 then Refused
    else if |data| < 2 then Panics
    else if data[1] == 0 then (if |data| < 4 then Panics else Passed(AudioHeader))
    else Passed(Frame(Aac))
  }

  /** Metadata passes even when it cannot be decoded: its error is not looked at. */
  function TypeOf(m: Chunks.Message): Outcome {
    if m.typeId == COMMAND then CommandType(m.data)
    else if m.typeId == AUDIO then AudioType(m.data)
    else if m.typeId == VIDEO then VideoType(m.data)
    else if m.typeId == DATA_AMF3 || m.typeId == DATA_AMF0 then Passed(Metadata)
    else Passed(Untyped)
  }

  /** What a message is to the cache; metadata that cannot be decoded is not cached. */
  function ContentOf(m: Chunks.Message): Content {
    match TypeOf(m)
    case Passed(Frame(kind)) => MediaFrame(kind)
    case Passed(VideoHeader) => Head(VideoHead)
    case Passed(AudioHeader) => Head(AudioHead)
    case Passed(Metadata) => if Amf0.ParseAll(m.data).1 == Amf0.Eof then Head(MetaHead) else Plain
    case _ => Plain
  }

  /** What the HLS producer makes of a message's bytes, going by the DataType that the receiver has given it. */
  function ForHls(m: Chunks.Message, dataType: DataType): Segments.Chunk {
    match dataType
    case Untyped => Segments.Other(m.timestamp)
    case Metadata => Segments.Metadata
    case VideoHeader => Segments.VideoHeader(m.data)
    case AudioHeader => Segments.AudioHeader(m.data)
    case Frame(kind) => Segments.Media(kind, m.timestamp, m.data)
  }

  // ---------------------------------------------------------------- what the HLS producer can take

  /** What the receiver does not check, of one message that passed. */
  predicate Sufficient(m: Chunks.Message, dataType: DataType, audioHeader: bool)
    requires TypeOf(m) == Passed(dataType)
  {
    match dataType
    case Frame(kind) => if kind == Aac then audioHeader else |m.data| >= 9
    case VideoHeader => 6 + SpsSize(m.data) + PpsSize(m.data) < TWO_TO_THE_16
    case _ => true
  }

  /** The messages of a stream all pass. */
  predicate AllPass(ms: seq<Chunks.Message>) {
    forall m :: m in ms ==> TypeOf(m).Passed?
  }

  function HlsChunks(ms: seq<Chunks.Message>): (cs: seq<Segments.Chunk>)
    requires AllPass(ms)
    ensures |cs| == |ms|
  {
    if ms == [] then []
    else
      var m := Segments.Last(ms);
      LastPasses(ms);
      HlsChunks(Segments.Front(ms)) + [ForHls(m, TypeOf(m).dataType)]
  }

  lemma LastPasses(ms: seq<Chunks.Message>)
    requires AllPass(ms) && ms != []
    ensures AllPass(Segments.Front(ms)) && Segments.Last(ms) in ms
  {
    hide TypeOf;
    assert forall m :: m in Segments.Front(ms) ==> m in ms;
  }

  /** An audio header is among them. */
  predicate HasAudioHeader(ms: seq<Chunks.Message>)
    requires AllPass(ms)
  {
    ms != [] && (
      LastPasses(ms);
      TypeOf(Segments.Last(ms)) == Passed(AudioHeader) || HasAudioHeader(Segments.Front(ms)))
  }

  lemma {:induction false} AudioHeaderKnown(ms: seq<Chunks.Message>)
    requires AllPass(ms)
    ensures HasAudioHeader(ms) <==> Mux.LastAdts(HlsChunks(ms)) != []
    decreases |ms|
  {
    if ms != [] {
      LastPasses(ms);
      AudioHeaderKnown(Segments.Front(ms));
      var m := Segments.Last(ms);
      HeaderForHls(m);
      assert Segments.Front(HlsChunks(ms)) == HlsChunks(Segments.Front(ms));
      assert Segments.Last(HlsChunks(ms)) == ForHls(m, TypeOf(m).dataType);
      hide TypeOf, ForHls;
    }
  }

  lemma HeaderForHls(m: Chunks.Message)
    requires TypeOf(m).Passed?
    ensures ForHls(m, TypeOf(m).dataType).AudioHeader? <==> TypeOf(m) == Passed(AudioHeader)
    ensures var c := ForHls(m, TypeOf(m).dataType);
      c.AudioHeader? ==> c.config == m.data && |m.data| >= 4
  {
    hide CommandType, RecordOk;
    CommandIsPlain(m.data);
    TypesOfMedia(m.data);
  }

  /** What the receiver does not check, of all the messages of a stream. */
  predicate AllSufficient(ms: seq<Chunks.Message>)
    requires AllPass(ms)
  {
    ms == [] || (
      LastPasses(ms);
      var before, m := Segments.Front(ms), Segments.Last(ms);
      AllSufficient(before) && Sufficient(m, TypeOf(m).dataType, HasAudioHeader(before)))
  }

  /**
    The HLS producer gets through a stream that the receiver let pass if and only if every video frame has the 9
    bytes of a tag with a NALU length, no AAC frame comes before the first audio header, and the parameter sets of
    every video header stay, with their start codes, below 65536 bytes.
   */
  lemma {:induction false} HlsRunsExactly(ms: seq<Chunks.Message>)
    requires AllPass(ms)
    ensures Mux.Runs(HlsChunks(ms)) <==> AllSufficient(ms)
    decreases |ms|
  {
    if ms != [] {
      LastPasses(ms);
      var before, m := Segments.Front(ms), Segments.Last(ms);
      HlsRunsExactly(before);
      AudioHeaderKnown(before);
      assert Segments.Front(HlsChunks(ms)) == HlsChunks(before);
      if TypeOf(m) == Passed(VideoHeader) {
        HeaderPrepares(m);
      }
      hide RecordOk, PrepareOk, SpsPps, SpsSize, PpsSize, HasAudioHeader, Mux.LastAdts, HlsChunks, CommandType;
      assert Mux.Acceptable(HlsChunks(before), ForHls(m, TypeOf(m).dataType)) <==>
        Sufficient(m, TypeOf(m).dataType, HasAudioHeader(before));
    }
  }

  lemma HeaderPrepares(m: Chunks.Message)
    requires TypeOf(m) == Passed(VideoHeader)
    ensures RecordOk(m.data)
    ensures PrepareOk(m.data) <==> 6 + SpsSize(m.data) + PpsSize(m.data) < TWO_TO_THE_16
  {
    hide RecordOk, PrepareOk, SpsSize, PpsSize, Amf0.ParseAll;
    PrepareExactly(m.data);
  }

  /** The receiver lets these messages pass, and they are enough for the HLS producer. */
  predicate Publishable(ms: seq<Chunks.Message>) {
    AllPass(ms) && AllSufficient(ms)
  }

  lemma {:induction false} PrefixPublishable(ms: seq<Chunks.Message>, n: nat)
    requires Publishable(ms) && n <= |ms|
    ensures Publishable(ms[..n])
    decreases |ms|
  {
    hide TypeOf;
    if n == |ms| {
      assert ms[..n] == ms;
    } else {
      LastPasses(ms);
      PrefixPublishable(Segments.Front(ms), n);
      assert Segments.Front(ms)[..n] == ms[..n];
    }
  }

  lemma PartPasses(ms: seq<Chunks.Message>, more: seq<Chunks.Message>)
    requires AllPass(ms + more)
    ensures AllPass(ms) && AllPass(more)
  {
    hide TypeOf;
    assert forall m :: m in ms || m in more ==> m in ms + more;
  }

  /** The DataType that the receiver gives a message. */
  function DataTypeOf(m: Chunks.Message): DataType {
    match TypeOf(m)
    case Passed(dataType) => dataType
    case _ => Untyped
  }

  lemma {:induction false} HlsChunkAt(ms: seq<Chunks.Message>, k: nat)
    requires AllPass(ms) && k < |ms|
    ensures HlsChunks(ms)[k] == ForHls(ms[k], DataTypeOf(ms[k]))
    decreases |ms|
  {
    hide TypeOf, ForHls;
    LastPasses(ms);
    if k < |ms| - 1 {
      HlsChunkAt(Segments.Front(ms), k);
    }
  }

  // ---------------------------------------------------------------- the receiver

  /** What the messages are to the cache. */
  function ContentsOf(ms: seq<Chunks.Message>): (cs: seq<Content>)
    ensures |cs| == |ms|
  {
    if ms == [] then [] else ContentsOf(Segments.Front(ms)) + [ContentOf(Segments.Last(ms))]
  }

  lemma OneMoreContent(ms: seq<Chunks.Message>, m: Chunks.Message)
    ensures ContentsOf(ms + [m]) == ContentsOf(ms) + [ContentOf(m)]
  {
    assert Segments.Front(ms + [m]) == ms && Segments.Last(ms + [m]) == m;
  }

  class Publisher {
    const cache: Gop.GopCache
    var heads: map<HeadKind, nat>  // MetaData, VideoHeader and AudioHeader, by number
    var received: nat
    ghost var passed: seq<Chunks.Message>

    ghost predicate Valid()
      reads this, cache
    {
      && cache.Valid() && cache.max == 1 && received == |passed| && AllPass(passed)
      && cache.history == Gop.FramesIn(ContentsOf(passed)) && heads == Gop.HeadsIn(ContentsOf(passed))
    }

    constructor ()
      ensures Valid() && passed == [] && cache.media == []
    {
      cache := new Gop.GopCache(1);
      heads, received, passed := map[], 0, [];
    }

    /** RtmpReceiver on a message that is merged: typed, and if it is a frame or a header, cached. */
    method RtmpReceiver(m: Chunks.Message) returns (o: Outcome)
      requires Valid()
      modifies this, cache
      ensures Valid() && o == TypeOf(m)
      ensures passed == if o.Passed? then old(passed) + [m] else old(passed)
    {
      hide TypeOf, ContentOf, ContentsOf, Gop.FramesIn, Gop.HeadsIn, Gop.After;
      var content;
      o, content := DataHandle(m);
      if o.Passed? {
        OneMoreContent(passed, m);
        Gop.OneMore(ContentsOf(passed), content);
        if content.Head? {
          heads := heads[content.head := received];
        }
        passed := passed + [m];
        received := received + 1;
      }
    }

    /** The handler that goes with the message's type. */
    method DataHandle(m: Chunks.Message) returns (o: Outcome, content: Content)
      requires cache.Valid()
      modifies cache
      ensures cache.Valid() && cache.max == old(cache.max) && o == TypeOf(m)
      ensures content == if o.Passed? then ContentOf(m) else Plain
      ensures cache.history == old(cache.history) + Gop.Cached(content, received)
    {
      hide RecordOk, CommandType, AudioType, VideoType, Amf0.ParseAll;
      content := Plain;
      if m.typeId == COMMAND {
        o := AmfHandle(m.data);
      } else if m.typeId == AUDIO {
        o, content := AudioHandle(m.data);
      } else if m.typeId == VIDEO {
        o, content := VideoHandle(m.data);
      } else if m.typeId == DATA_AMF3 || m.typeId == DATA_AMF0 {
        content := MetadataHandle(m.data);
        o := Passed(Metadata);
      } else {
        o := Passed(Untyped);
      }
      CommandIsPlain(m.data);
      TypesOfMedia(m.data);
    }

    /** The values of a command or of metadata. */
    method Unmarshal(data: seq<byte>) returns (vs: seq<Amf0.Value>, e: Amf0.Error)
      ensures (vs, e) == Amf0.ParseAll(data)
    {
      var r := new AmfIo.Reader(data);
      vs, e := r.AmfUnmarshal();
    }

    method AmfHandle(data: seq<byte>) returns (o: Outcome)
      ensures o == CommandType(data)
    {
      var vs, e := Unmarshal(data);
      if e != Amf0.Eof {
        return Refused;
      }
      if vs == [] || !vs[0].Str? {
        return Panics;
      }
      var name := vs[0].s;
      if name == Ascii("connect") {
        return if ConnectOk(vs) then Passed(Untyped) else Panics;
      }
      o := if Known(name) then Passed(Untyped) else Refused;
    }

    method MetadataHandle(data: seq<byte>) returns (content: Content)
      ensures content == if Amf0.ParseAll(data).1 == Amf0.Eof then Head(MetaHead) else Plain
    {
      var _, e := Unmarshal(data);
      content := if e == Amf0.Eof then Head(MetaHead) else Plain;
    }

    method AudioHandle(data: seq<byte>) returns (o: Outcome, content: Content)
      requires cache.Valid()
      modifies cache
      ensures cache.Valid() && cache.max == old(cache.max) && o == AudioType(data)
      ensures content == (match o
        case Passed(Frame(kind)) => MediaFrame(kind)
        case Passed(_) => Head(AudioHead)
        case _ => Plain)
      ensures cache.history == old(cache.history) + Gop.Cached(content, received)
    {
      content := Plain;
      if |data| < 1 {
        return Panics, Plain;
      }
      if (data[0] as nat) / 16 != 10 {
        return Refused, Plain;
      }
      if |data| < 2 {
        return Panics, Plain;
      }
      if data[1] == 0 {
        if |data| < 4 {
          return Panics, Plain;
        }
        return Passed(AudioHeader), Head(AudioHead);
      }
      cache.PushAudio(Gop.Frame(Aac, received));
      o, content := Passed(Frame(Aac)), MediaFrame(Aac);
    }

    method VideoHandle(data: seq<byte>) returns (o: Outcome, content: Content)
      requires cache.Valid()
      modifies cache
      ensures cache.Valid() && cache.max == old(cache.max) && o == VideoType(data)
      ensures content == (match o
        case Passed(Frame(kind)) => MediaFrame(kind)
        case Passed(_) => Head(VideoHead)
        case _ => Plain)
      ensures cache.history == old(cache.history) + Gop.Cached(content, received)
    {
      if |data| < 1 {
        return Panics, Plain;
      }
      var frameType, codecId := (data[0] as nat) / 16, data[0] % 16;
      if frameType != 1 && frameType != 2 {
        return Refused, Plain;
      }
      if codecId != 7 {
        return Refused, Plain;
      }
      if |data| < 5 {
        return Panics, Plain;
      }
      o, content := AvcHandle(data, if frameType == 1 then Key else Inter);
    }

    /** The part of VideoHandle that goes by the packet type. */
    method AvcHandle(data: seq<byte>, kind: Kind) returns (o: Outcome, content: Content)
      requires cache.Valid() && |data| >= 5 && kind != Aac
      modifies cache
      ensures cache.Valid() && cache.max == old(cache.max) && o == AvcType(data, kind)
      ensures content == (match o
        case Passed(Frame(kind)) => MediaFrame(kind)
        case Passed(_) => Head(VideoHead)
        case _ => Plain)
      ensures cache.history == old(cache.history) + Gop.Cached(content, received)
    {
      hide RecordOk;
      if data[1] == 0 {
        if RecordOk(data) {
          return Passed(VideoHeader), Head(VideoHead);
        }
        return Panics, Plain;
      } else if data[1] == 1 {
        cache.PushVideo(Gop.Frame(kind, received));
        return Passed(Frame(kind)), MediaFrame(kind);
      }
      o, content := Refused, Plain;
    }
  }

  lemma CommandIsPlain(data: seq<byte>)
    ensures CommandType(data).Passed? ==> CommandType(data) == Passed(Untyped)
  {
    hide Amf0.ParseAll;
  }

  lemma TypesOfMedia(data: seq<byte>)
    ensures match AudioType(data) case Passed(t) => t == AudioHeader || t == Frame(Aac) case _ => true
    ensures match VideoType(data) case Passed(t) => t == VideoHeader || t.Frame? case _ => true
  {
    hide RecordOk;
  }
}
