/** Safe runs of the publisher are read right under every schedule of the server. */
module SharedRuns {
  import opened Buffers
  import opened Bytes
  import opened Connection
  import opened DataTypes
  import opened Shared
  import ChunkRuns
  import Gop
  import Looks
  import Pipeline
  import Receiver

  // ---------------------------------------------------------------- what can be read

  /** Of the steps that read: what the producer has taken is among the newest 13, 12 while another comes in. */
  lemma MakingIsRecent(w: World)
    requires WorldOk(w) && w.making != []
    ensures FeedOk(w.line.feed) && w.making[0] < |w.line.feed.msgs| <= w.making[0] + BeforeProducer(w.line.feed)
  {
    Within(w);
    Counted(w.pipe);
    hide Handles, Pipeline.Inv, LineOk;
  }

  lemma Counted(s: Pipeline.State)
    requires Pipeline.Inv(s)
    ensures |s.contents| == |s.consumed| + |s.hlsChan| + (if s.sender.Holding? then 1 else 0) + |s.dataChan| +
      |s.receiverHand|
    ensures |s.hlsChan| <= Pipeline.CAPACITY && |s.dataChan| <= Pipeline.CAPACITY && |s.receiverHand| <= 1
    ensures s.sender.Serving? ==> s.sender.c + 1 == |s.consumed| + |s.hlsChan|
  {
    hide Pipeline.CacheOk, Pipeline.PlayerOk;
    assert |s.contents| == |s.consumed| + |s.hlsChan| + |Pipeline.InSendersHand(s)| + |s.dataChan| + |s.receiverHand|;
  }

  /** Headers do not go away. */
  lemma {:induction false} HeadsRemain(cs: seq<Content>, m: nat, n: nat)
    requires m <= n <= |cs| && Pipeline.AllHeads(Gop.HeadsIn(cs[..m]))
    ensures Pipeline.AllHeads(Gop.HeadsIn(cs[..n]))
    decreases n
  {
    if m < n {
      HeadsRemain(cs, m, n - 1);
      assert cs[..n] == cs[..n - 1] + [cs[n - 1]];
      Gop.OneMore(cs[..n - 1], cs[n - 1]);
    }
  }

  /** What is left to write is out of the cache of a moment ago, or is the newest chunk. */
  lemma WritingIsRecent(w: World)
    requires WorldOk(w) && w.left != []
    ensures FeedOk(w.line.feed) && w.left[0] < |w.line.feed.msgs|
    ensures InBurst(w.line.feed, w.pipe.max, w.left[0]) || Live(w.line.feed, w.left[0])
  {
    Within(w);
    Counted(w.pipe);
    var s, player := w.pipe, w.pipe.players[w.to];
    assert ShownOk(w, w.to) && Pipeline.PlayerOk(s, w.to, player);
    if player.from == s.sender.c {
      BurstIsCached(w);
    } else {
      LiveIsLate(w);
    }
    hide *;
  }

  lemma BurstIsCached(w: World)
    requires WorldOk(w) && w.left != [] && w.pipe.players[w.to].from == w.pipe.sender.c
    ensures FeedOk(w.line.feed) && InBurst(w.line.feed, w.pipe.max, w.left[0])
  {
    hide LineOk, Gop.HeadsIn, Gop.FramesIn, Gop.After, Receiver.ContentsOf, Pipeline.Conserved;
    Within(w);
    Counted(w.pipe);
    var s, player := w.pipe, w.pipe.players[w.to];
    assert ShownOk(w, w.to) && Pipeline.PlayerOk(s, w.to, player);
    assert player.live == [];
    assert w.left[0] in Pipeline.SentTo(player);
    assert w.left[0] in Cached(Receiver.ContentsOf(w.line.feed.msgs)[..player.receivedThen], s.max);
    HandlesLess(w.line.feed.msgs, |w.line.feed.msgs| - BehindSender(w.line.feed) - 5, |w.hls|);
    hide Handles;
  }

  lemma LiveIsLate(w: World)
    requires WorldOk(w) && w.left != [] && w.pipe.players[w.to].from != w.pipe.sender.c
    ensures FeedOk(w.line.feed) && Live(w.line.feed, w.left[0])
  {
    hide LineOk, Gop.HeadsIn, Gop.FramesIn, Gop.After, Receiver.ContentsOf, Pipeline.Conserved;
    Within(w);
    Counted(w.pipe);
    var s, player := w.pipe, w.pipe.players[w.to];
    assert Pipeline.PlayerOk(s, w.to, player);
    HeadsRemain(s.contents, player.receivedThen, Min(|s.contents|, s.sender.c + 6));
    HandlesLess(w.line.feed.msgs, s.sender.c - 5, |w.hls|);
    hide Handles;
  }

  // ---------------------------------------------------------------- safe runs are right

  lemma RightAfterWire(w: World)
    requires WorldOk(w) && Enabled(w, Wire) && Right(w)
    ensures WorldOk(Step(w, Wire)) && Right(Step(w, Wire))
  {
    hide Handles, LineOk, Receiver.ContentsOf, Receiver.ContentOf, Pipeline.Inv, Gone, Delivered, Gop.Push,
      Looks.Alike, HlsThen, Pipeline.SentTo;
    StepOk(w, Wire);
    Within(w);
    GoneOk(w.line);
    var w', msgs, more := Step(w, Wire), w.line.feed.msgs, Delivered(w.line);
    assert w'.line.feed.msgs == msgs + more;
    forall p | p in w'.pipe.players && w'.pipe.players[p].Served?
      ensures RightFor(w', p)
    {
      assert RightFor(w, p);
      SentWithin(w, p);
    }
  }

  lemma SentWithin(w: World, p: Pipeline.PlayerId)
    requires WorldOk(w) && p in w.pipe.players && w.pipe.players[p].Served?
    ensures p in w.shown && |w.shown[p]| <= |Pipeline.SentTo(w.pipe.players[p])|
    ensures forall k :: 0 <= k < |Pipeline.SentTo(w.pipe.players[p])| ==>
      Pipeline.SentTo(w.pipe.players[p])[k] < |w.line.feed.msgs|
  {
    hide Handles, LineOk, Receiver.ContentsOf, Pipeline.Inv, Pipeline.SentTo;
    Within(w);
    assert ShownOk(w, p);
    assert forall k :: 0 <= k < |Pipeline.SentTo(w.pipe.players[p])| ==>
      Pipeline.SentTo(w.pipe.players[p])[k] in Pipeline.SentTo(w.pipe.players[p]);
  }

  lemma RightAfterMake(w: World)
    requires WorldOk(w) && Enabled(w, Make) && Right(w) && !Misread(w.line.feed, w.making[0])
    ensures WorldOk(Step(w, Make)) && Right(Step(w, Make))
  {
    hide Handles, LineOk, Receiver.ContentsOf, Pipeline.Inv, Looks.Alike, HlsThen, Pipeline.SentTo;
    StepOk(w, Make);
    Within(w);
    forall p | p in w.pipe.players && w.pipe.players[p].Served?
      ensures RightFor(Step(w, Make), p)
    {
      assert RightFor(w, p);
    }
  }

  lemma RightAfterWrite(w: World)
    requires WorldOk(w) && Enabled(w, Write) && Right(w)
    requires FeedOk(w.line.feed) && w.left[0] < |w.line.feed.msgs| && !Stale(w.line.feed, w.left[0])
    ensures WorldOk(Step(w, Write)) && Right(Step(w, Write))
  {
    hide Handles, LineOk, Receiver.ContentsOf, Pipeline.Inv, Looks.Alike, HlsThen, Pipeline.SentTo, DataNow;
    StepOk(w, Write);
    Within(w);
    forall p | p in w.pipe.players && w.pipe.players[p].Served?
      ensures RightFor(Step(w, Write), p)
    {
      assert RightFor(w, p) && ShownOk(w, p);
    }
  }

  lemma RightAfterMove(w: World, step: Pipeline.Action)
    requires WorldOk(w) && Enabled(w, Move(step)) && Right(w)
    ensures WorldOk(Step(w, Move(step))) && Right(Step(w, Move(step)))
  {
    hide Handles, LineOk, Receiver.ContentsOf, Pipeline.Inv, Looks.Alike, HlsThen, Pipeline.HeadList, Pipeline.FirstOf;
    StepOk(w, Move(step));
    Within(w);
    var w' := Step(w, Move(step));
    Within(w');
    forall p | p in w'.pipe.players && w'.pipe.players[p].Served?
      ensures RightFor(w', p)
    {
      MovedRightFor(w, step, p);
    }
  }

  /** The steps of the pipeline show nothing to anybody, and what a player was sent stays the first part. */
  lemma MovedRightFor(w: World, step: Pipeline.Action, p: Pipeline.PlayerId)
    requires WorldOk(w) && Enabled(w, Move(step)) && Right(w) && WorldOk(Step(w, Move(step)))
    requires p in Step(w, Move(step)).pipe.players && Step(w, Move(step)).pipe.players[p].Served?
    ensures RightFor(Step(w, Move(step)), p)
  {
    hide Handles, LineOk, Receiver.ContentsOf, Pipeline.Inv, Looks.Alike, HlsThen, Pipeline.FirstOf, WritingOk,
      MakingOk;
    Within(w);
    if p in w.pipe.players && w.pipe.players[p].Served? {
      assert RightFor(w, p) && ShownOk(w, p);
      SentBefore(w.pipe, step, p);
    }
    hide Pipeline.SentTo;
  }

  lemma SentBefore(s: Pipeline.State, step: Pipeline.Action, p: Pipeline.PlayerId)
    requires Pipeline.Enabled(s, step) && p in s.players && s.players[p].Served? && p in Pipeline.Step(s, step).players
    ensures Pipeline.Step(s, step).players[p].Served?
    ensures Pipeline.SentTo(s.players[p]) <= Pipeline.SentTo(Pipeline.Step(s, step).players[p])
  {
  }

  /** Under any schedule of a safe run, everything is read as it was delivered. */
  lemma {:induction false} SafeIsRight(w: World, run: seq<Action>)
    requires WorldOk(w) && ValidRun(w, run) && Right(w) && SafeRun(w.line, w.pipe.max)
    ensures Right(Exec(w, run))
    decreases run
  {
    if run != [] {
      StepOk(w, run[0]);
      SafeStep(w, run[0]);
      hide WorldOk, Right, SafeRun, LineOk, Step;
      SafeIsRight(Step(w, run[0]), run[1..]);
    }
  }

  lemma SafeStep(w: World, a: Action)
    requires WorldOk(w) && Enabled(w, a) && Right(w) && SafeRun(w.line, w.pipe.max)
    ensures WorldOk(Step(w, a)) && Right(Step(w, a))
    ensures SafeRun(Step(w, a).line, Step(w, a).pipe.max)
  {
    assert SafeNow(w.line.feed, w.pipe.max);
    LineMoves(w, a);
    hide LineOk, Right, Pipeline.Inv, Receiver.ContentsOf, Misread, Stale, InBurst, Live, Step, Handles, Room;
    match a
    case Wire =>
      RoomForWire(w);
      RightAfterWire(w);
    case Move(step) => RightAfterMove(w, step);
    case Make =>
      MakingIsRecent(w);
      RightAfterMake(w);
    case Write =>
      WritingIsRecent(w);
      RightAfterWrite(w);
  }

  lemma RoomForWire(w: World)
    requires WorldOk(w) && Enabled(w, Wire)
    ensures Room(w.line.feed)
  {
    hide LineOk, Pipeline.Inv, Receiver.ContentsOf, Handles;
    Within(w);
    Counted(w.pipe);
    HandlesLess(w.line.feed.msgs, |w.line.feed.msgs| - 12, |w.hls|);
  }

  lemma LineMoves(w: World, a: Action)
    requires WorldOk(w) && Enabled(w, a)
    ensures Step(w, a).line == if a.Wire? then Gone(w.line) else w.line
    ensures Step(w, a).pipe.max == w.pipe.max
  {
    hide Handles, LineOk, Pipeline.Inv, Receiver.ContentsOf, Gone, Delivered, Receiver.ContentOf;
  }
}
