/**
  Publisher, receiver, sender, HLS producer and players over the buffers that they share (rtmp.go:411-471, 763-907,
  1278-1306; hls.go:302-331): a queued or cached message is a pointer to a Chunk whose MsgData the receiver may go on
  writing to, so that whoever reads the message reads what is in its buffer at that step. Taking a message and reading
  it are steps of their own, for the HLS producer and for the sender that writes to a player.
 */
module Shared {
  import opened Buffers
  import opened Bytes
  import opened Connection
  import opened DataTypes
  import ChunkRuns
  import Gop
  import Looks
  import Pipeline
  import Receiver
  import Segments

  // ---------------------------------------------------------------- the server

  datatype World = World(
    line: Line,
    pipe: Pipeline.State,
    making: seq<nat>,                // the message that the HLS producer has taken and not read yet
    hls: seq<Segments.Chunk>,        // what it has read so far
    to: Pipeline.PlayerId,           // whom the sender writes to,
    left: seq<nat>,                  // and what it has still to write to this player
    shown: map<Pipeline.PlayerId, seq<Message>>)  // what every player has been sent

  datatype Action =
    | Wire                           // one chunk comes in
    | Move(step: Pipeline.Action)    // a step of the pipeline
    | Make                           // the producer reads the message it has taken
    | Write                          // the sender reads the next message and writes it

  ghost predicate WorldOk(w: World) {
    && LineOk(w.line) && Pipeline.Inv(w.pipe)
    && w.pipe.contents == Receiver.ContentsOf(w.line.feed.msgs)
    && (!w.line.feed.first ==> w.pipe.receiverHand == [])
    && MakingOk(w) && WritingOk(w) && Handles(w.line.feed.msgs, |w.hls|)
    && forall p :: p in w.pipe.players && w.pipe.players[p].Served? ==> ShownOk(w, p)
  }

  /** What the producer has taken it has read, but for one message at most. */
  ghost predicate MakingOk(w: World) {
    |w.hls| + |w.making| == |w.pipe.consumed| && (w.making == [] || w.making == [|w.hls|])
  }

  /** What is left to write is of the cache as it was when chunk c was being served, or is chunk c. */
  ghost predicate WritingOk(w: World) {
    w.left != [] ==>
      && w.pipe.sender.Serving? && w.to in w.pipe.players && w.to in w.pipe.sender.visited
      && w.pipe.players[w.to].Served?
      && (w.pipe.players[w.to].from == w.pipe.sender.c || w.left == [w.pipe.sender.c])
  }

  function LeftFor(w: World, p: Pipeline.PlayerId): seq<nat> {
    if p == w.to then w.left else []
  }

  /** A player is sent just what it is to get, in order. */
  ghost predicate ShownOk(w: World, p: Pipeline.PlayerId)
    requires p in w.pipe.players && w.pipe.players[p].Served?
  {
    && p in w.shown
    && var all := Pipeline.SentTo(w.pipe.players[p]);
    && |w.shown[p]| <= |all| && LeftFor(w, p) == all[|w.shown[p]|..]
  }

  /** The producer gets through the first n messages. */
  predicate Handles(ms: seq<Message>, n: int) {
    n > 0 ==> n <= |ms| && Receiver.Publishable(ms[..n])
  }

  lemma HandlesLess(ms: seq<Message>, m: int, n: int)
    requires Handles(ms, n) && m <= n
    ensures Handles(ms, m)
  {
    hide Receiver.Publishable;
    if m > 0 {
      Receiver.PrefixPublishable(ms[..n], m);
      assert ms[..n][..m] == ms[..m];
    }
  }

  lemma HandlesStill(ms: seq<Message>, more: seq<Message>, n: int)
    requires Handles(ms, n)
    ensures Handles(ms + more, n)
  {
    hide Receiver.Publishable;
    assert n > 0 ==> (ms + more)[..n] == ms[..n];
  }

  ghost function Start(run: seq<ChunkRuns.Event>, chunkSize: nat, max: int): World {
    World(Line(chunkSize, run, map[], START), Pipeline.Init(max), [], [], 0, [], map[])
  }

  lemma StartOk(run: seq<ChunkRuns.Event>, chunkSize: nat, max: int)
    requires chunkSize >= 1 && max >= 1 && ChunkRuns.LegalRun(map[], run, chunkSize)
    ensures WorldOk(Start(run, chunkSize, max))
  {
  }

  /**
    The receiver takes the next chunk when it has handed on the message before, the producer the next message when it
    has read the one before, and the sender turns to the next player when it has written all to this one. The producer
    does not get past a message that it panics on; until it comes to that, the others go on.
   */
  predicate Enabled(w: World, a: Action) {
    match a
    case Wire => w.line.todo != [] && w.pipe.receiverHand == []
    case Move(step) =>
      && !step.Receive? && Pipeline.Enabled(w.pipe, step)
      && (step.Consume? ==> w.making == [])
      && (step.Serve? || step.FinishRound? ==> w.left == [])
    case Make => w.making != [] && Handles(w.line.feed.msgs, |w.hls| + 1)
    case Write => w.left != []
  }

  /** What the producer makes of message i, with the bytes that it has now. */
  function HlsNow(f: Feed, i: nat): Segments.Chunk
    requires i < |f.refs| == |f.msgs|
  {
    Receiver.ForHls(MessageNow(f, i), Receiver.DataTypeOf(f.msgs[i]))
  }

  /** What it would make of the message as it was delivered. */
  function HlsThen(m: Message): Segments.Chunk {
    Receiver.ForHls(m, Receiver.DataTypeOf(m))
  }

  ghost function Step(w: World, a: Action): World
    requires WorldOk(w) && Enabled(w, a)
  {
    Within(w);
    match a
    case Wire => Wired(w)
    case Move(step) => Moved(w, step)
    case Make => w.(hls := w.hls + [HlsNow(w.line.feed, w.making[0])], making := [])
    case Write =>
      w.(shown := w.shown[w.to := w.shown[w.to] + [MessageNow(w.line.feed, w.left[0])]], left := w.left[1..])
  }

  /** One chunk comes in; a message that it completes is cached and waits for room in DataChan. */
  ghost function Wired(w: World): World
    requires LineOk(w.line) && w.line.todo != [] && w.pipe.receiverHand == []
  {
    var w', ms := w.(line := Gone(w.line)), Delivered(w.line);
    if ms == [] then w'
    else w'.(pipe := Pipeline.Step(w.pipe, Pipeline.Receive(Receiver.ContentOf(ms[0]))))
  }

  /** A step of the pipeline. To be served is to be written to, from here on. */
  function Moved(w: World, step: Pipeline.Action): World
    requires Pipeline.Enabled(w.pipe, step)
  {
    var w' := w.(pipe := Pipeline.Step(w.pipe, step));
    match step {
      case Consume => w'.(making := [w.pipe.hlsChan[0]])
      case Serve(p, true) =>
        if w.pipe.players[p].New? then w'.(to := p, left := Pipeline.FirstOf(w.pipe), shown := w.shown[p := []])
        else w'.(to := p, left := [w.pipe.sender.c])
      case _ => w'
    }
  }

  /** Everything that is read has been delivered. */
  lemma Within(w: World)
    requires WorldOk(w)
    ensures FeedOk(w.line.feed) && |w.pipe.contents| == |w.line.feed.msgs|
    ensures |w.pipe.consumed| <= |w.line.feed.msgs|
    ensures w.making != [] ==> w.making[0] < |w.line.feed.msgs|
    ensures forall p :: p in w.pipe.players && w.pipe.players[p].Served? ==>
      forall n :: n in Pipeline.SentTo(w.pipe.players[p]) ==> n < |w.line.feed.msgs|
    ensures w.left != [] ==> w.to in w.shown && w.left[0] < |w.line.feed.msgs|
  {
    Pipeline.NumbersBelow(w.pipe);
    hide Pipeline.Inv, ChunkRuns.LanesOk, ChunkRuns.LegalRun, ChunkRuns.InStep, Pipeline.SentTo;
    if w.left != [] {
      assert ShownOk(w, w.to);
      var all := Pipeline.SentTo(w.pipe.players[w.to]);
      assert w.left[0] == all[|w.shown[w.to]|] && w.left[0] in all;
    }
  }

  lemma StepOk(w: World, a: Action)
    requires WorldOk(w) && Enabled(w, a)
    ensures WorldOk(Step(w, a))
  {
    match a
    case Wire => WireOk(w);
    case Move(step) => MoveOk(w, step);
    case Make => MakeOk(w);
    case Write => WriteOk(w);
  }

  lemma WireOk(w: World)
    requires WorldOk(w) && Enabled(w, Wire)
    ensures WorldOk(Step(w, Wire))
  {
    hide Handles, LineOk, Pipeline.Inv, Gone, Delivered, Receiver.ContentsOf, Receiver.ContentOf, Gop.Push,
      Pipeline.SentTo;
    GoneOk(w.line);
    HandlesStill(w.line.feed.msgs, Delivered(w.line), |w.hls|);
    if Delivered(w.line) != [] {
      var m := Delivered(w.line)[0];
      assert Delivered(w.line) == [m];
      Pipeline.StepInv(w.pipe, Pipeline.Receive(Receiver.ContentOf(m)));
      Receiver.OneMoreContent(w.line.feed.msgs, m);
    } else {
      assert w.line.feed.msgs + [] == w.line.feed.msgs;
    }
  }

  lemma MakeOk(w: World)
    requires WorldOk(w) && Enabled(w, Make)
    ensures WorldOk(Step(w, Make))
  {
    hide Handles, LineOk, Pipeline.Inv, Receiver.ContentsOf, Pipeline.SentTo, HlsNow;
  }

  lemma WriteOk(w: World)
    requires WorldOk(w) && Enabled(w, Write)
    ensures WorldOk(Step(w, Write))
  {
    hide Handles, LineOk, Pipeline.Inv, Receiver.ContentsOf, Pipeline.SentTo, MessageNow;
    Within(w);
    var w' := Step(w, Write);
    forall p | p in w'.pipe.players && w'.pipe.players[p].Served?
      ensures ShownOk(w', p)
    {
      assert ShownOk(w, p);
    }
  }

  lemma MoveOk(w: World, step: Pipeline.Action)
    requires WorldOk(w) && Enabled(w, Move(step))
    ensures WorldOk(Step(w, Move(step)))
  {
    hide Handles, LineOk, Pipeline.Inv, Receiver.ContentsOf, Pipeline.HeadList, Pipeline.SentTo;
    Pipeline.StepInv(w.pipe, step);
    match step
    case Consume => ConsumeOk(w);
    case Serve(p, true) => ServeOk(w, p);
    case _ => OthersOk(w, step);
  }

  lemma ConsumeOk(w: World)
    requires WorldOk(w) && Enabled(w, Move(Pipeline.Consume))
    ensures WorldOk(Moved(w, Pipeline.Consume))
  {
    hide Handles, LineOk, Pipeline.Inv, Receiver.ContentsOf, Pipeline.SentTo;
    Pipeline.StepInv(w.pipe, Pipeline.Consume);
    Pipeline.NumbersBelow(w.pipe);
  }

  lemma ServeOk(w: World, p: Pipeline.PlayerId)
    requires WorldOk(w) && Enabled(w, Move(Pipeline.Serve(p, true)))
    ensures WorldOk(Moved(w, Pipeline.Serve(p, true)))
  {
    hide Handles, LineOk, Pipeline.Inv, Receiver.ContentsOf, Pipeline.HeadList;
    Pipeline.StepInv(w.pipe, Pipeline.Serve(p, true));
    var w' := Moved(w, Pipeline.Serve(p, true));
    forall q | q in w'.pipe.players && w'.pipe.players[q].Served?
      ensures ShownOk(w', q)
    {
      if q != p {
        assert ShownOk(w, q);
      } else if w.pipe.players[p].Served? {
        assert ShownOk(w, p);
        assert Pipeline.SentTo(w'.pipe.players[p]) == Pipeline.SentTo(w.pipe.players[p]) + [w.pipe.sender.c];
      } else {
        assert Pipeline.SentTo(w'.pipe.players[p]) == Pipeline.FirstOf(w.pipe);
      }
    }
  }

  lemma OthersOk(w: World, step: Pipeline.Action)
    requires WorldOk(w) && Enabled(w, Move(step)) && !step.Consume? && !(step.Serve? && step.ok)
    ensures WorldOk(Moved(w, step))
  {
    hide Handles, LineOk, Pipeline.Inv, Receiver.ContentsOf, Pipeline.SentTo;
    Pipeline.StepInv(w.pipe, step);
    var w' := Moved(w, step);
    forall q | q in w'.pipe.players && w'.pipe.players[q].Served?
      ensures ShownOk(w', q)
    {
      assert ShownOk(w, q);
    }
  }

  ghost predicate ValidRun(w: World, run: seq<Action>)
    requires WorldOk(w)
    decreases run
  {
    run == [] || (Enabled(w, run[0]) && (StepOk(w, run[0]); ValidRun(Step(w, run[0]), run[1..])))
  }

  ghost function Exec(w: World, run: seq<Action>): (w': World)
    requires WorldOk(w) && ValidRun(w, run)
    ensures WorldOk(w')
    decreases run
  {
    if run == [] then w
    else
      StepOk(w, run[0]);
      Exec(Step(w, run[0]), run[1..])
  }

  /** All that the producer has looked at, and all that any player was sent, is as it was delivered. */
  ghost predicate Right(w: World)
    requires WorldOk(w)
  {
    Within(w);
    && (forall k :: 0 <= k < |w.hls| ==> Looks.Alike(HlsThen(w.line.feed.msgs[k]), w.hls[k]))
    && forall p :: p in w.pipe.players && w.pipe.players[p].Served? ==> RightFor(w, p)
  }

  ghost predicate RightFor(w: World, p: Pipeline.PlayerId)
    requires WorldOk(w) && p in w.pipe.players && w.pipe.players[p].Served?
  {
    Within(w);
    var all := Pipeline.SentTo(w.pipe.players[p]);
    forall k :: 0 <= k < |w.shown[p]| ==> (assert all[k] in all; w.shown[p][k] == w.line.feed.msgs[all[k]])
  }

  // ---------------------------------------------------------------- which runs are safe

  /** What the producer looks at has been written over. */
  predicate Misread(f: Feed, i: nat)
    requires i < |f.refs| == |f.msgs|
  {
    !Looks.Alike(HlsThen(f.msgs[i]), HlsNow(f, i))
  }

  /** So many messages can be there from the one that the producer reads on: one less while another comes in. */
  function BeforeProducer(f: Feed): nat {
    if f.first then 13 else 12
  }

  /** And so many from the one that the sender serves on. */
  function BehindSender(f: Feed): nat {
    if f.first then 7 else 6
  }

  /** What a new player is sent first, of the messages received so far; nothing while a header is missing. */
  function Cached(contents: seq<Content>, max: int): seq<nat> {
    var heads := Gop.HeadsIn(contents);
    if Pipeline.AllHeads(heads)
    then Pipeline.HeadList(heads) + Pipeline.Numbers(Gop.After(Gop.FramesIn(contents), max).media)
    else []
  }

  /** The sender may be writing message i out of the cache, as the cache was at some moment since it began to serve. */
  ghost predicate InBurst(f: Feed, max: int, i: nat) {
    Handles(f.msgs, |f.msgs| - BehindSender(f) - 5) &&
    exists m :: 0 <= m <= |f.msgs| < m + BehindSender(f) && i in Cached(Receiver.ContentsOf(f.msgs)[..m], max)
  }

  /** The sender may be writing message i as the newest chunk, to a player that was served the cache a round before. */
  predicate Live(f: Feed, i: nat) {
    && 1 <= i < |f.msgs| <= i + BehindSender(f) && Handles(f.msgs, i - 5)
    && Pipeline.AllHeads(Gop.HeadsIn(Receiver.ContentsOf(f.msgs)[..Min(|f.msgs|, i + 6)]))
  }

  /** Nothing that may still be read, by the producer or for a player, has been written over. */
  ghost predicate SafeNow(f: Feed, max: int)
    requires FeedOk(f)
  {
    forall i :: 0 <= i < |f.msgs| ==>
      && (Misread(f, i) && Handles(f.msgs, i + 1) ==> i + BeforeProducer(f) < |f.msgs|)
      && (Stale(f, i) ==> !InBurst(f, max, i) && !Live(f, i))
  }

  /** The producer can have got so far that there is room for the next chunk. */
  predicate Room(f: Feed) {
    f.first ==> Handles(f.msgs, |f.msgs| - 12)
  }

  /** It is so after every chunk that comes in. */
  ghost predicate SafeRun(l: Line, max: int)
    requires LineOk(l)
    decreases |l.todo|
  {
    SafeNow(l.feed, max) && (l.todo != [] && Room(l.feed) ==> (GoneOk(l); SafeRun(Gone(l), max)))
  }
}
