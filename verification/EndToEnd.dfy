/** From the publisher's wire to the segment files: the layers put together. */
module EndToEnd {
  import opened Bytes
  import Chunks
  import ChunkRuns
  import Connection
  import DataTypes
  import EarlyReuse
  import Flv
  import Looks
  import Mux
  import Pes
  import Pipeline
  import Players
  import Receiver
  import Segments
  import Shared
  import SharedRuns
  import TsPacket

  /** The messages that a publisher sends from a fresh connection on. */
  ghost function Sent(run: seq<ChunkRuns.Event>, chunkSize: nat): seq<Chunks.Message>
    requires chunkSize >= 1 && ChunkRuns.LegalRun(map[], run, chunkSize)
  {
    ChunkRuns.Completed(map[], run, chunkSize)
  }

  /** The messages that the receiver takes from the wire. */
  ghost function Got(run: seq<ChunkRuns.Event>, chunkSize: nat): seq<Chunks.Message>
    requires chunkSize >= 1 && ChunkRuns.LegalRun(map[], run, chunkSize)
  {
    Chunks.Receive(map[], chunkSize, ChunkRuns.Wire(map[], run, chunkSize), true)
  }

  /** The packets in all segment files, one file after the other, of what the producer has read. */
  function Files(hls: seq<Segments.Chunk>, maxTime: nat): seq<TsPacket.Packet>
    requires Mux.Runs(hls)
  {
    Mux.Emitted(Mux.Run(hls, maxTime).files)
  }

  /** What a player is to get for one PID. */
  function Expected(ms: seq<Chunks.Message>, pid: nat): seq<seq<byte>>
    requires Receiver.Publishable(ms)
  {
    Receiver.HlsRunsExactly(ms);
    Mux.UnitsOf(Mux.Jobs(Receiver.HlsChunks(ms)), pid)
  }

  /** The receiver takes from the wire just the messages that went onto it. */
  lemma WireDelivers(run: seq<ChunkRuns.Event>, chunkSize: nat)
    requires chunkSize >= 1 && ChunkRuns.LegalRun(map[], run, chunkSize)
    ensures Got(run, chunkSize) == Sent(run, chunkSize)
  {
    hide Chunks.Receive, ChunkRuns.Wire, ChunkRuns.Completed, ChunkRuns.LegalRun;
    ChunkRuns.RunDelivers(map[], run, chunkSize, map[], true);
  }

  /** What goes in as messages comes out of the segment files as units. */
  lemma MuxRecovers(ms: seq<Chunks.Message>, maxTime: nat, pid: nat)
    requires Receiver.Publishable(ms) && (pid == TsPacket.VIDEO_PID || pid == TsPacket.AUDIO_PID)
    ensures Mux.Runs(Receiver.HlsChunks(ms))
    ensures TsPacket.Demux(Files(Receiver.HlsChunks(ms), maxTime), pid) == Expected(ms, pid)
  {
    Receiver.HlsRunsExactly(ms);
    hide Mux.Run, Mux.Runs, Mux.Jobs, Mux.UnitsOf, Mux.Emitted, TsPacket.Demux, Receiver.HlsChunks,
      Receiver.AllSufficient, Receiver.AllPass;
    Mux.RunRecovers(Receiver.HlsChunks(ms), maxTime, pid);
  }

  // ---------------------------------------------------------------- over the buffers, under any schedule

  /** All messages of a run that has still to be sent, and of what has been. */
  ghost function AllMessages(l: Connection.Line): seq<Chunks.Message>
    requires Connection.LineOk(l)
  {
    l.feed.msgs + ChunkRuns.Completed(l.lanes, l.todo, l.chunkSize)
  }

  /** They all pass, and are these. */
  ghost predicate Sends(l: Connection.Line, ms: seq<Chunks.Message>) {
    && Connection.LineOk(l) && AllMessages(l) == ms
    && Receiver.AllPass(ChunkRuns.Completed(l.lanes, l.todo, l.chunkSize))
  }

  lemma {:induction false} MessagesStay(w: Shared.World, run: seq<Shared.Action>, ms: seq<Chunks.Message>)
    requires Shared.WorldOk(w) && Shared.ValidRun(w, run) && Sends(w.line, ms)
    ensures Sends(Shared.Exec(w, run).line, ms)
    decreases run
  {
    hide Shared.WorldOk, Sends, Shared.Step, Shared.Enabled;
    if run != [] {
      Shared.StepOk(w, run[0]);
      LineStays(w, run[0], ms);
      MessagesStay(Shared.Step(w, run[0]), run[1..], ms);
    }
  }

  lemma LineStays(w: Shared.World, a: Shared.Action, ms: seq<Chunks.Message>)
    requires Shared.WorldOk(w) && Shared.Enabled(w, a) && Sends(w.line, ms)
    ensures Sends(Shared.Step(w, a).line, ms)
  {
    hide Shared.WorldOk, Shared.Step;
    SharedRuns.LineMoves(w, a);
    if a.Wire? {
      GoneStays(w.line, ms);
    }
    hide Sends;
  }

  lemma GoneStays(l: Connection.Line, ms: seq<Chunks.Message>)
    requires Sends(l, ms) && l.todo != []
    ensures Sends(Connection.Gone(l), ms)
  {
    hide ChunkRuns.Completed, Connection.Gone, Connection.NextMessages, Receiver.AllPass;
    Connection.GoesOn(l);
    var l' := Connection.Gone(l);
    Connection.GoneOk(l);
    assert AllMessages(l') == l.feed.msgs + Connection.NextMessages(l) +
      ChunkRuns.Completed(l'.lanes, l'.todo, l.chunkSize);
  }

  /**
    Whatever a publisher sends, on any number of interleaved chunk streams and under any of the header forms, and
    whatever the schedule of the server: if the messages can be published at all and the run is safe, then the HLS
    producer has read a first part of them, all but the newest 13 at most, and the frames of that part come out of the
    segment files by demultiplexing, all of them, in order.
   */
  lemma WireToSegments(events: seq<ChunkRuns.Event>, chunkSize: nat, max: int, run: seq<Shared.Action>, maxTime: nat,
                       pid: nat)
    requires chunkSize >= 1 && max >= 1 && ChunkRuns.LegalRun(map[], events, chunkSize)
    requires Receiver.Publishable(Sent(events, chunkSize))
    requires Shared.WorldOk(Shared.Start(events, chunkSize, max))
    requires Shared.SafeRun(Shared.Start(events, chunkSize, max).line, max)
    requires Shared.ValidRun(Shared.Start(events, chunkSize, max), run)
    requires pid == TsPacket.VIDEO_PID || pid == TsPacket.AUDIO_PID
    ensures var w, ms := Shared.Exec(Shared.Start(events, chunkSize, max), run), Sent(events, chunkSize);
      && |w.hls| <= |w.line.feed.msgs| <= |w.hls| + 13
      && w.line.feed.msgs <= ms && Receiver.Publishable(ms[..|w.hls|])
      && Mux.Runs(w.hls) && TsPacket.Demux(Files(w.hls, maxTime), pid) == Expected(ms[..|w.hls|], pid)
  {
    hide *;
    var start, ms := Shared.Start(events, chunkSize, max), Sent(events, chunkSize);
    AtStart(events, chunkSize, max);
    SharedRuns.SafeIsRight(start, run);
    MessagesStay(start, run, ms);
    var w := Shared.Exec(start, run);
    ReadSoFar(w, ms);
    Receiver.PrefixPublishable(ms, |w.hls|);
    AlikeToSegments(ms[..|w.hls|], w.hls, maxTime, pid);
  }

  /** What is alike to the producer comes out as what was sent. */
  lemma AlikeToSegments(ms: seq<Chunks.Message>, hls: seq<Segments.Chunk>, maxTime: nat, pid: nat)
    requires Receiver.Publishable(ms) && AsSent(ms, hls) && (pid == TsPacket.VIDEO_PID || pid == TsPacket.AUDIO_PID)
    ensures Mux.Runs(hls) && TsPacket.Demux(Files(hls, maxTime), pid) == Expected(ms, pid)
  {
    Receiver.HlsRunsExactly(ms);
    hide Mux.Run, Mux.Runs, Mux.Jobs, Mux.UnitsOf, Mux.Emitted, TsPacket.Demux, Receiver.HlsChunks, Looks.Alike,
      Receiver.AllSufficient, Receiver.AllPass, Receiver.ForHls, Receiver.DataTypeOf;
    forall k | 0 <= k < |hls|
      ensures Looks.Alike(Receiver.HlsChunks(ms)[k], hls[k])
    {
      Receiver.HlsChunkAt(ms, k);
    }
    Looks.AlikeUnits(Receiver.HlsChunks(ms), hls, pid);
    Mux.RunRecovers(hls, maxTime, pid);
  }

  ghost predicate AsSent(ms: seq<Chunks.Message>, hls: seq<Segments.Chunk>) {
    |hls| == |ms| && forall k :: 0 <= k < |hls| ==> Looks.Alike(Shared.HlsThen(ms[k]), hls[k])
  }

  lemma AtStart(events: seq<ChunkRuns.Event>, chunkSize: nat, max: int)
    requires chunkSize >= 1 && max >= 1 && ChunkRuns.LegalRun(map[], events, chunkSize)
    requires Shared.WorldOk(Shared.Start(events, chunkSize, max)) && Receiver.Publishable(Sent(events, chunkSize))
    ensures var start := Shared.Start(events, chunkSize, max);
      start.pipe.max == max && Shared.Right(start) && Sends(start.line, Sent(events, chunkSize))
  {
    hide ChunkRuns.LegalRun, ChunkRuns.Completed, Receiver.AllPass, Receiver.AllSufficient;
  }

  lemma ReadSoFar(w: Shared.World, ms: seq<Chunks.Message>)
    requires Shared.WorldOk(w) && Shared.Right(w) && Sends(w.line, ms)
    ensures |w.hls| <= |w.line.feed.msgs| <= |w.hls| + 13 && w.line.feed.msgs <= ms && AsSent(ms[..|w.hls|], w.hls)
  {
    hide Connection.LineOk, Pipeline.Inv, ChunkRuns.Completed, Receiver.ContentsOf, Looks.Alike, Shared.HlsThen;
    Shared.Within(w);
    SharedRuns.Counted(w.pipe);
    assert w.line.feed.msgs == ms[..|w.line.feed.msgs|];
  }

  /**
    Where that condition fails: of two frames of one kind, publishable in themselves, the second under fmt 2, the
    segment files can get the second one twice and the first one not at all.
   */
  lemma FrameLost(a: seq<byte>, b: seq<byte>, chunkSize: nat, max: int, maxTime: nat)
    requires |a| == |b| <= chunkSize && 9 <= |a| < TWO_TO_THE_24 && max >= 1 && a[9..] != b[9..]
    requires Receiver.VideoType(a) == Receiver.VideoType(b) && IsFrame(a)
    ensures var events, video := EarlyReuse.TwoFrames(a, b), TsPacket.VIDEO_PID;
      && ChunkRuns.LegalRun(map[], events, chunkSize) && Receiver.Publishable(Sent(events, chunkSize))
      && Shared.WorldOk(Shared.Start(events, chunkSize, max))
      && exists run ::
        && Shared.ValidRun(Shared.Start(events, chunkSize, max), run)
        && var hls := Shared.Exec(Shared.Start(events, chunkSize, max), run).hls;
        && hls == Receiver.HlsChunks([EarlyReuse.FirstMessage(b), EarlyReuse.SecondMessage(b)]) && Mux.Runs(hls)
        && TsPacket.Demux(Files(hls, maxTime), video) != Expected(Sent(events, chunkSize), video)
  {
    TwoPublishable(a, b);
    TwoPublishable(b, b);
    OnePublishable(a, b);
    ConfusedIsSecond(a, b);
    FirstUnit(a, b);
    FirstUnit(b, b);
    Pes.UnitsDiffer(Receiver.VideoType(a).dataType.kind, 0, [], a, b);
    hide *;
    EarlyReuse.TwoFramesFail(a, b, chunkSize, max);
    MuxRecovers([EarlyReuse.FirstMessage(b), EarlyReuse.SecondMessage(b)], maxTime, TsPacket.VIDEO_PID);
  }

  predicate IsFrame(data: seq<byte>) {
    Receiver.VideoType(data).Passed? && Receiver.VideoType(data).dataType.Frame?
    && Receiver.VideoType(data).dataType.kind != DataTypes.Aac
  }

  lemma TwoPublishable(a: seq<byte>, b: seq<byte>)
    requires |a| >= 9 && |b| >= 9 && IsFrame(a) && IsFrame(b)
    ensures Receiver.Publishable([EarlyReuse.FirstMessage(a), EarlyReuse.SecondMessage(b)])
  {
    hide Receiver.VideoType, Receiver.CommandType, Receiver.AudioType;
    var ms := [EarlyReuse.FirstMessage(a), EarlyReuse.SecondMessage(b)];
    assert Segments.Front(ms) == [EarlyReuse.FirstMessage(a)] && Segments.Front(Segments.Front(ms)) == [];
    assert Receiver.AllPass(ms);
    Receiver.LastPasses(ms);
    Receiver.LastPasses(Segments.Front(ms));
    assert Receiver.AllSufficient([]);
    assert Receiver.AllSufficient(Segments.Front(ms));
  }

  lemma OnePublishable(a: seq<byte>, b: seq<byte>)
    requires Receiver.Publishable([EarlyReuse.FirstMessage(a), EarlyReuse.SecondMessage(b)])
    ensures Receiver.Publishable([EarlyReuse.FirstMessage(a)])
  {
    hide Receiver.Publishable;
    var ms := [EarlyReuse.FirstMessage(a), EarlyReuse.SecondMessage(b)];
    Receiver.PrefixPublishable(ms, 1);
    assert ms[..1] == [EarlyReuse.FirstMessage(a)];
  }

  lemma ConfusedIsSecond(a: seq<byte>, b: seq<byte>)
    requires Receiver.VideoType(a) == Receiver.VideoType(b) && IsFrame(b) && |b| >= 9
    requires Receiver.Publishable([EarlyReuse.FirstMessage(b), EarlyReuse.SecondMessage(b)])
    ensures EarlyReuse.Confused(a, b) + [Shared.HlsThen(EarlyReuse.SecondMessage(b))] ==
      Receiver.HlsChunks([EarlyReuse.FirstMessage(b), EarlyReuse.SecondMessage(b)])
  {
    hide Receiver.VideoType, Receiver.ForHls;
    var ms := [EarlyReuse.FirstMessage(b), EarlyReuse.SecondMessage(b)];
    Receiver.HlsChunkAt(ms, 0);
    Receiver.HlsChunkAt(ms, 1);
  }

  /** The first unit that is to come out. */
  lemma FirstUnit(a: seq<byte>, b: seq<byte>)
    requires |a| >= 9 && |b| >= 9 && IsFrame(a) && IsFrame(b)
    requires Receiver.Publishable([EarlyReuse.FirstMessage(a), EarlyReuse.SecondMessage(b)])
    ensures var kind := Receiver.VideoType(a).dataType.kind;
      var us := Expected([EarlyReuse.FirstMessage(a), EarlyReuse.SecondMessage(b)], TsPacket.VIDEO_PID);
      us != [] && us[0] == Pes.Unit(kind, Pes.Packet(kind, 0, [], [], a))
  {
    hide Receiver.VideoType, Mux.UnitsOf, Mux.Runs, Mux.Jobs, Pes.Unit, Pes.Packet;
    var ms := [EarlyReuse.FirstMessage(a), EarlyReuse.SecondMessage(b)];
    Receiver.HlsRunsExactly(ms);
    Receiver.HlsChunkAt(ms, 0);
    Receiver.HlsChunkAt(ms, 1);
    var cs := Receiver.HlsChunks(ms);
    TwoUnits(cs[0], cs[1]);
    assert cs == [cs[0], cs[1]];
  }

  lemma TwoUnits(c: Segments.Chunk, d: Segments.Chunk)
    requires c.Media? && d.Media? && c.kind != DataTypes.Aac && d.kind != DataTypes.Aac
    requires |c.data| >= 9 && |d.data| >= 9
    ensures Mux.Runs([c, d])
    ensures var us := Mux.UnitsOf(Mux.Jobs([c, d]), TsPacket.VIDEO_PID);
      us != [] && us[0] == Pes.Unit(c.kind, Pes.Packet(c.kind, c.timestamp, [], [], c.data))
  {
    hide Mux.UnitsOf, Mux.Jobs, Mux.Runs, Pes.Unit, Pes.Packet, Mux.PesOf;
    OneUnit(c);
    assert [c] + [d] == [c, d];
    Looks.UnitsMore([c], d, TsPacket.VIDEO_PID);
  }

  lemma OneUnit(c: Segments.Chunk)
    requires c.Media? && c.kind != DataTypes.Aac && |c.data| >= 9
    ensures Mux.Runs([c])
    ensures Mux.UnitsOf(Mux.Jobs([c]), TsPacket.VIDEO_PID) ==
      [Pes.Unit(c.kind, Pes.Packet(c.kind, c.timestamp, [], [], c.data))]
  {
    hide Mux.UnitsOf, Mux.Jobs, Mux.Runs, Pes.Unit, Pes.Packet;
    NoUnits();
    Looks.UnitsMore([], c, TsPacket.VIDEO_PID);
    assert [] + [c] == [c];
  }

  lemma NoUnits()
    ensures Mux.Runs([]) && Mux.UnitsOf(Mux.Jobs([]), TsPacket.VIDEO_PID) == []
  {
  }

  // ---------------------------------------------------------------- to the players

  /** What a player was to be sent of the messages delivered, as far as it has been. */
  ghost function Due(w: Shared.World, p: Pipeline.PlayerId): (ms: seq<Chunks.Message>)
    requires Shared.WorldOk(w) && p in w.pipe.players && w.pipe.players[p].Served?
    ensures p in w.shown && |ms| == |w.shown[p]|
  {
    SharedRuns.SentWithin(w, p);
    var all := Pipeline.SentTo(w.pipe.players[p]);
    seq(|w.shown[p]|, k requires 0 <= k < |w.shown[p]| => w.line.feed.msgs[all[k]])
  }

  /** Of these messages m is the last that is cached as a header of this kind. */
  ghost predicate IsLast(ms: seq<Chunks.Message>, head: DataTypes.HeadKind, m: Chunks.Message) {
    exists n: nat :: n < |ms| && ms[n] == m && Receiver.ContentOf(m) == DataTypes.Head(head) &&
      forall i :: n < i < |ms| ==> Receiver.ContentOf(ms[i]) != DataTypes.Head(head)
  }

  /** The last metadata, video header and audio header of those received by then, and behind them as many frames. */
  ghost predicate Begins(due: seq<Chunks.Message>, received: seq<Chunks.Message>, frames: nat) {
    && (|due| > 0 ==> IsLast(received, DataTypes.MetaHead, due[0]))
    && (|due| > 1 ==> IsLast(received, DataTypes.VideoHead, due[1]))
    && (|due| > 2 ==> IsLast(received, DataTypes.AudioHead, due[2]))
    && (forall i :: 3 <= i < |due| && i < 3 + frames ==> Receiver.ContentOf(due[i]).MediaFrame?)
  }

  lemma {:induction false} ContentAt(ms: seq<Chunks.Message>, i: nat)
    requires i < |ms|
    ensures Receiver.ContentsOf(ms)[i] == Receiver.ContentOf(ms[i])
    decreases |ms|
  {
    hide Receiver.ContentOf;
    if i < |ms| - 1 {
      ContentAt(Segments.Front(ms), i);
    }
  }

  lemma ContentsAre(ms: seq<Chunks.Message>, upTo: nat)
    requires upTo <= |ms|
    ensures forall i :: 0 <= i < upTo ==> Receiver.ContentsOf(ms)[..upTo][i] == Receiver.ContentOf(ms[i])
  {
    hide Receiver.ContentOf, Receiver.ContentsOf;
    forall i | 0 <= i < upTo
      ensures Receiver.ContentsOf(ms)[..upTo][i] == Receiver.ContentOf(ms[i])
    {
      ContentAt(ms, i);
    }
  }

  /** What is so of the contents is so of the messages. */
  lemma LastOfKind(ms: seq<Chunks.Message>, received: seq<DataTypes.Content>, head: DataTypes.HeadKind, n: nat)
    requires |received| == |ms| && forall i :: 0 <= i < |ms| ==> received[i] == Receiver.ContentOf(ms[i])
    requires Pipeline.IsLastHead(received, head, n)
    ensures n < |ms| && IsLast(ms, head, ms[n])
  {
    hide Receiver.ContentOf;
  }

  lemma BeginsWith(player: Pipeline.Player, ms: seq<Chunks.Message>, received: seq<DataTypes.Content>,
                   due: seq<Chunks.Message>)
    requires player.Served? && Pipeline.Started(player, received)
    requires |received| <= |ms|
    requires forall i :: 0 <= i < |received| ==> received[i] == Receiver.ContentOf(ms[..|received|][i])
    requires |due| <= |Pipeline.SentTo(player)| && forall i :: 0 <= i < |due| ==>
      Pipeline.SentTo(player)[i] < |ms| && due[i] == ms[Pipeline.SentTo(player)[i]]
    ensures Begins(due, ms[..|received|], |player.burst|)
  {
    hide Receiver.ContentOf, Pipeline.SentTo, IsLast, Pipeline.IsLastHead;
    var sent := Pipeline.SentTo(player);
    LastOfKind(ms[..|received|], received, DataTypes.MetaHead, sent[0]);
    LastOfKind(ms[..|received|], received, DataTypes.VideoHead, sent[1]);
    LastOfKind(ms[..|received|], received, DataTypes.AudioHead, sent[2]);
    forall i | 3 <= i < |due| && i < 3 + |player.burst|
      ensures Receiver.ContentOf(due[i]).MediaFrame?
    {
      var f := player.burst[i - 3];
      assert sent[i] == sent[3..][i - 3] == f.number && f in player.burst;
      assert received[f.number] == Receiver.ContentOf(ms[..|received|][f.number]);
    }
  }

  lemma DueBegins(w: Shared.World, p: Pipeline.PlayerId)
    requires Shared.WorldOk(w) && p in w.pipe.players && w.pipe.players[p].Served?
    ensures var player := w.pipe.players[p];
      player.receivedThen <= |w.line.feed.msgs| &&
      Begins(Due(w, p), w.line.feed.msgs[..player.receivedThen], |player.burst|)
  {
    hide Receiver.ContentOf, Receiver.ContentsOf, Shared.WorldOk, Pipeline.SentTo, Begins, Pipeline.Started;
    var player, ms := w.pipe.players[p], w.line.feed.msgs;
    StartedPlayer(w, p);
    SharedRuns.SentWithin(w, p);
    ContentsAre(ms, player.receivedThen);
    BeginsWith(player, ms, w.pipe.contents[..player.receivedThen], Due(w, p));
  }

  lemma StartedPlayer(w: Shared.World, p: Pipeline.PlayerId)
    requires Shared.WorldOk(w) && p in w.pipe.players && w.pipe.players[p].Served?
    ensures w.pipe.contents == Receiver.ContentsOf(w.line.feed.msgs)
    ensures w.pipe.players[p].receivedThen <= |w.line.feed.msgs|
    ensures Pipeline.Started(w.pipe.players[p], w.pipe.contents[..w.pipe.players[p].receivedThen])
  {
    hide Receiver.ContentsOf, Pipeline.SentFirst, Pipeline.Started, Pipeline.Conserved, Connection.LineOk,
      Shared.Handles;
    Pipeline.InvOf(w.pipe, p);
    Pipeline.StartedAs(w.pipe.players[p], w.pipe.contents[..w.pipe.players[p].receivedThen], w.pipe.max);
  }

  /**
    Under every schedule of a safe run every player is written what it was to be sent: the last headers received by
    then, and then frames. An RTMP player gets all of it
    back if each message can be sent at its chunk size, an FLV player if and only if the fields of each fit a tag.
   */
  lemma WireToPlayers(events: seq<ChunkRuns.Event>, chunkSize: nat, max: int, run: seq<Shared.Action>,
                      p: Pipeline.PlayerId, size: nat)
    requires chunkSize >= 1 && max >= 1 && ChunkRuns.LegalRun(map[], events, chunkSize) && size >= 1
    requires Shared.WorldOk(Shared.Start(events, chunkSize, max))
    requires Shared.SafeRun(Shared.Start(events, chunkSize, max).line, max)
    requires Shared.ValidRun(Shared.Start(events, chunkSize, max), run)
    requires p in Shared.Exec(Shared.Start(events, chunkSize, max), run).pipe.players
    requires Shared.Exec(Shared.Start(events, chunkSize, max), run).pipe.players[p].Served?
    ensures var w := Shared.Exec(Shared.Start(events, chunkSize, max), run);
      var due, player := Due(w, p), w.pipe.players[p];
      && w.shown[p] == due
      && player.receivedThen <= |w.line.feed.msgs|
      && Begins(due, w.line.feed.msgs[..player.receivedThen], |player.burst|)
      && (forall i :: 0 <= i < |due| ==>
            var t := Players.TagsOf(due)[i];
            && t.typeId == (if i == 0 then 0x12 else if i == 1 then 0x9 else if i == 2 then 0x8 else due[i].typeId)
            && t.data == due[i].data && t.timestamp == due[i].timestamp)
      && (Players.AllSendable(due, size) ==>
            Chunks.Receive(map[], size, Players.Written(w.shown[p], size), true) == due)
      && (Flv.ReadFile(Flv.HEAD + Flv.Tags(Players.TagsOf(w.shown[p]))) ==
            Flv.File(true, true, Players.TagsOf(due)) <==>
            forall i :: 0 <= i < |due| ==> Flv.Fits(Players.TagsOf(due)[i]))
  {
    var start := Shared.Start(events, chunkSize, max);
    assert Shared.Right(start) && start.pipe.max == max;
    hide *;
    SharedRuns.SafeIsRight(start, run);
    var w := Shared.Exec(start, run);
    ShownIsDue(w, p);
    DueBegins(w, p);
    var due := Due(w, p);
    Players.TagsSay(due);
    if Players.AllSendable(due, size) {
      NothingReceived();
      Players.AllGo(due, size, map[], true);
    }
    Players.FlvExactly(due);
  }

  lemma NothingReceived()
    ensures Chunks.TableOk(map[])
  {
  }

  lemma ShownIsDue(w: Shared.World, p: Pipeline.PlayerId)
    requires Shared.WorldOk(w) && Shared.Right(w) && p in w.pipe.players && w.pipe.players[p].Served?
    ensures p in w.shown && w.shown[p] == Due(w, p)
  {
    hide Shared.WorldOk, Shared.HlsThen, Looks.Alike, Pipeline.SentTo;
    assert Shared.RightFor(w, p);
    SharedRuns.SentWithin(w, p);
  }
}
