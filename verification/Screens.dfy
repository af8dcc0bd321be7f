/** From the publisher's wire to what decoders get: the pictures of video messages, under every schedule. */
module Screens {
  import opened Bytes
  import opened EndToEnd
  import opened FlvMedia
  import AnnexB
  import ChunkRuns
  import Chunks
  import DataTypes
  import Mux
  import Pes
  import Playback
  import Receiver
  import Segments
  import Shared
  import TsPacket
  import Typing

  /** A video frame, as publishers lay it out. */
  ghost predicate IsPicture(m: Chunks.Message) {
    m.typeId == 9 && (IsAvc(m.data, 1, 1) || IsAvc(m.data, 2, 1))
  }

  ghost predicate IsVideoHeader(m: Chunks.Message) {
    m.typeId == 9 && (IsAvc(m.data, 1, 0) || IsAvc(m.data, 2, 0))
  }

  ghost function Pictures(ms: seq<Chunks.Message>): nat {
    if ms == [] then 0
    else Pictures(Segments.Front(ms)) + if IsPicture(Segments.Last(ms)) then 1 else 0
  }

  ghost predicate LastHeader(ms: seq<Chunks.Message>, k: nat, h: nat) {
    h < k <= |ms| && IsVideoHeader(ms[h]) && forall i :: h < i < k ==> !IsVideoHeader(ms[i])
  }

  /** The parameter sets of the last video header before the k-th message, or none if none has come. */
  ghost predicate SetsSent(ms: seq<Chunks.Message>, k: nat, sets: seq<seq<byte>>) {
    k <= |ms| && Playback.AllNals(sets) &&
    if sets == [] then forall i :: 0 <= i < k ==> !IsVideoHeader(ms[i])
    else |sets| == 2 && exists h: nat :: LastHeader(ms, k, h) && HasSets(ms[h].data, sets[0], sets[1])
  }

  // ---------------------------------------------------------------- messages and what the producer makes of them

  ghost predicate SameRoles(ms: seq<Chunks.Message>, cs: seq<Segments.Chunk>) {
    |cs| == |ms| && forall i :: 0 <= i < |ms| ==> SameRole(ms[i], cs[i])
  }

  ghost predicate SameRole(m: Chunks.Message, c: Segments.Chunk) {
    && (c.VideoHeader? <==> IsVideoHeader(m))
    && (c.VideoHeader? ==> c.record == m.data && m.data != [] && m.data[0] >= 16)
    && (Playback.OnPid(c, 0x100) <==> IsPicture(m))
    && (IsPicture(m) ==> c.timestamp == m.timestamp && c.data == m.data)
    && (IsPicture(m) ==> (c.kind == DataTypes.Key <==> IsAvc(m.data, 1, 1)))
  }

  lemma RoleOf(m: Chunks.Message)
    requires Receiver.TypeOf(m).Passed?
    ensures SameRole(m, Receiver.ForHls(m, Receiver.DataTypeOf(m)))
  {
    Typing.VideoExactly(m);
    if m.typeId == 9 {
      Typing.PassedVideo(m);
    }
    Typing.AvcParts(m.data, 1, 0);
    Typing.AvcParts(m.data, 2, 0);
    Typing.AvcParts(m.data, 1, 1);
    Typing.AvcParts(m.data, 2, 1);
    hide IsAvc, Receiver.TypeOf;
  }

  lemma RolesOf(ms: seq<Chunks.Message>)
    requires Receiver.AllPass(ms)
    ensures SameRoles(ms, Receiver.HlsChunks(ms))
  {
    hide SameRole, Receiver.TypeOf, Receiver.HlsChunks, Receiver.ForHls, Receiver.DataTypeOf;
    forall i | 0 <= i < |ms|
      ensures SameRole(ms[i], Receiver.HlsChunks(ms)[i])
    {
      assert ms[i] in ms;
      Receiver.HlsChunkAt(ms, i);
      RoleOf(ms[i]);
    }
  }

  lemma {:induction false} SameCount(ms: seq<Chunks.Message>, cs: seq<Segments.Chunk>)
    requires SameRoles(ms, cs)
    ensures Playback.Count(cs, 0x100) == Pictures(ms)
    decreases |ms|
  {
    hide IsPicture, IsVideoHeader, Playback.OnPid;
    if ms != [] {
      SameCount(Segments.Front(ms), Segments.Front(cs));
      assert SameRole(ms[|ms| - 1], cs[|ms| - 1]);
    }
  }

  lemma SameSets(ms: seq<Chunks.Message>, cs: seq<Segments.Chunk>, k: nat, sets: seq<seq<byte>>)
    requires SameRoles(ms, cs) && SetsSent(ms, k, sets)
    ensures Playback.SetsBefore(cs, k, sets)
  {
    hide IsPicture, IsVideoHeader, Playback.OnPid, HasSets, Playback.AllNals;
    assert forall i :: 0 <= i < k ==> SameRole(ms[i], cs[i]);
    if sets != [] {
      var h: nat :| LastHeader(ms, k, h) && HasSets(ms[h].data, sets[0], sets[1]);
      assert SameRole(ms[h], cs[h]);
      assert Playback.LastVideoHeader(cs, k, h) && Playback.HeaderHas(cs[h], sets[0], sets[1]);
    }
  }

  // ---------------------------------------------------------------- end to end

  /**
    Of messages that can be published: a video frame of some NAL units comes out of what players are to get at its
    place among the video frames, with its times, and for a decoder as the delimiter, the parameter sets of the last
    header in front of a keyframe, and its NAL units, if and only if all of them but the first are single bytes.
   */
  lemma PictureExpected(ms: seq<Chunks.Message>, k: nat, keyframe: bool, sets: seq<seq<byte>>, time: seq<byte>,
                        nals: seq<seq<byte>>)
    returns (pes: seq<byte>)
    requires Receiver.Publishable(ms) && k < |ms| && SetsSent(ms, k, sets)
    requires |time| == 3 && nals != [] && AnnexB.Coded(nals)
    requires ms[k].typeId == 9 && ms[k].data == FrameBody(keyframe, time, nals)
    ensures var us, n := Expected(ms, 0x100), Pictures(ms[..k]);
      |us| == Pictures(ms) > n && |us[n]| >= 6 && pes <= us[n] && Playback.TrimsTo(us[n], pes, KindOf(keyframe))
    ensures Playback.ShowsPicture(pes, ms[k].timestamp, time, if keyframe then sets else [], nals)
  {
    Receiver.HlsRunsExactly(ms);
    PassesAll(ms);
    RolesOf(ms);
    hide Receiver.Publishable, Receiver.HlsChunks, Mux.Runs, Mux.Jobs, Mux.UnitsOf, Playback.Count, Pictures, SameRoles,
      Playback.SetsBefore, SetsSent, Playback.ShowsPicture, Playback.TrimsTo, AnnexB.Coded, FrameBody;
    var cs := Receiver.HlsChunks(ms);
    FrameIs(ms, cs, k, keyframe, time, nals);
    SameCount(ms, cs);
    SomeRoles(ms, cs, k);
    SameCount(ms[..k], cs[..k]);
    SameSets(ms, cs, k, sets);
    pes := Playback.PictureUnit(cs, k, sets, time, nals);
  }

  function KindOf(keyframe: bool): DataTypes.Kind {
    if keyframe then DataTypes.Key else DataTypes.Inter
  }

  lemma PassesAll(ms: seq<Chunks.Message>)
    requires Receiver.Publishable(ms)
    ensures Receiver.AllPass(ms) && Receiver.AllSufficient(ms)
  {
  }

  lemma SomeRoles(ms: seq<Chunks.Message>, cs: seq<Segments.Chunk>, k: nat)
    requires SameRoles(ms, cs) && k <= |ms|
    ensures SameRoles(ms[..k], cs[..k])
  {
    hide SameRole;
    assert forall i :: 0 <= i < k ==> SameRole(ms[i], cs[i]);
  }

  /** The frame as the producer gets it. */
  lemma FrameIs(ms: seq<Chunks.Message>, cs: seq<Segments.Chunk>, k: nat, keyframe: bool, time: seq<byte>,
                nals: seq<seq<byte>>)
    requires SameRoles(ms, cs) && k < |ms| && |time| == 3 && nals != []
    requires ms[k].typeId == 9 && ms[k].data == FrameBody(keyframe, time, nals)
    ensures var c := cs[k];
      && c.Media? && c.kind == KindOf(keyframe) && c.timestamp == ms[k].timestamp
      && c.data == FrameBody(c.kind == DataTypes.Key, time, nals)
  {
    var m, c := ms[k], cs[k];
    assert SameRole(m, c);
    Typing.AvcParts(m.data, 1, 1);
    Typing.AvcParts(m.data, 2, 1);
    hide IsAvc, AnnexB.Sample;
  }

  /**
    From the wire to the decoder, under every schedule of a safe run: each video frame that the producer has read comes
    out of the segment files so.
   */
  lemma WireToPictures(events: seq<ChunkRuns.Event>, chunkSize: nat, max: int, run: seq<Shared.Action>, maxTime: nat,
                       k: nat, keyframe: bool, sets: seq<seq<byte>>, time: seq<byte>, nals: seq<seq<byte>>)
    returns (pes: seq<byte>)
    requires chunkSize >= 1 && max >= 1 && ChunkRuns.LegalRun(map[], events, chunkSize)
    requires Receiver.Publishable(Sent(events, chunkSize))
    requires Shared.WorldOk(Shared.Start(events, chunkSize, max))
    requires Shared.SafeRun(Shared.Start(events, chunkSize, max).line, max)
    requires Shared.ValidRun(Shared.Start(events, chunkSize, max), run)
    requires k < |Shared.Exec(Shared.Start(events, chunkSize, max), run).hls| && k < |Sent(events, chunkSize)|
    requires SetsSent(Sent(events, chunkSize), k, sets) && |time| == 3 && nals != [] && AnnexB.Coded(nals)
    requires var m := Sent(events, chunkSize)[k]; m.typeId == 9 && m.data == FrameBody(keyframe, time, nals)
    ensures var w, ms := Shared.Exec(Shared.Start(events, chunkSize, max), run), Sent(events, chunkSize);
      |w.hls| <= |ms| && Mux.Runs(w.hls) &&
      var us, n := TsPacket.Demux(Files(w.hls, maxTime), 0x100), Pictures(ms[..k]);
      && |us| == Pictures(ms[..|w.hls|]) > n && |us[n]| >= 6 && pes <= us[n]
      && Playback.TrimsTo(us[n], pes, KindOf(keyframe))
    ensures Playback.ShowsPicture(pes, Sent(events, chunkSize)[k].timestamp, time, if keyframe then sets else [], nals)
  {
    hide *;
    var ms, w := Sent(events, chunkSize), Shared.Exec(Shared.Start(events, chunkSize, max), run);
    IsVideoPid();
    WireToSegments(events, chunkSize, max, run, maxTime, TsPacket.VIDEO_PID);
    SetsSentIn(ms, |w.hls|, k, sets);
    assert ms[..|w.hls|][..k] == ms[..k];
    pes := PictureExpected(ms[..|w.hls|], k, keyframe, sets, time, nals);
  }

  lemma IsVideoPid()
    ensures TsPacket.VIDEO_PID == 0x100
  {
  }

  lemma SetsSentIn(ms: seq<Chunks.Message>, n: nat, k: nat, sets: seq<seq<byte>>)
    requires k <= n <= |ms| && SetsSent(ms, k, sets)
    ensures SetsSent(ms[..n], k, sets)
  {
    hide IsVideoHeader, HasSets, Playback.AllNals;
    if sets != [] {
      var h: nat :| LastHeader(ms, k, h) && HasSets(ms[h].data, sets[0], sets[1]);
      assert LastHeader(ms[..n], k, h);
    }
  }
}
