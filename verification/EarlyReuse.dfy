/** Runs of the publisher that reuse a buffer too early, in its own terms, and what comes of the simplest of them. */
module EarlyReuse {
  import opened Bytes
  import opened Buffers
  import opened Connection
  import opened DataTypes
  import opened Shared
  import opened SharedReuse
  import Chunks
  import ChunkRuns
  import Looks
  import Pipeline
  import Receiver
  import Segments
  import SharedRuns
  import SharedSchedules

  /** The bytes of a message that its first chunk brings. */
  function FirstBytes(l: Line): seq<byte>
    requires l.todo != [] && l.todo[0].Open?
  {
    l.todo[0].data[..Min(|l.todo[0].data|, l.chunkSize)]
  }

  /** The buffer of its csid once they are in. */
  function Overwritten(l: Line): seq<byte>
    requires l.todo != [] && l.todo[0].Open?
  {
    var buffer := Chunks.Lookup(l.feed.table, l.todo[0].csid).msgData;
    FirstBytes(l) + if |buffer| < |FirstBytes(l)| then [] else buffer[|FirstBytes(l)|..]
  }

  lemma ReusedSlot(l: Line)
    requires LineOk(l) && l.todo != [] && Reuses(l.todo[0])
    ensures NextSlot(l).msgData == Overwritten(l)
  {
    NextArrives(l);
    var e, slot := l.todo[0], NextSlot(l);
    var buffer := Chunks.Lookup(l.feed.table, e.csid).msgData;
    StepKeepsTail(l.feed.table, l.chunkSize, ToCome(l), l.feed.first);
    var lane := ChunkRuns.After(l.lanes, e, l.chunkSize)[e.csid];
    assert ChunkRuns.Legal(l.lanes, e, l.chunkSize);
    assert lane.msg.data == e.data && lane.sent == |FirstBytes(l)|;
    assert slot.msgIndex == |FirstBytes(l)| && slot.msgData[..slot.msgIndex] == FirstBytes(l);
    assert slot.msgData == slot.msgData[..slot.msgIndex] + slot.msgData[slot.msgIndex..];
  }

  /** A chunk under fmt 2 or fmt 3 leaves the end of the buffer as it was. */
  lemma StepKeepsTail(table: Chunks.Table, chunkSize: nat, inp: seq<byte>, first: bool)
    requires Chunks.TableOk(table)
    ensures var r := Chunks.ChunkStep(table, chunkSize, inp, first);
      r.Stepped? && !Chunks.MakesBuffer(r.slot.fmt) ==>
        var buffer := Chunks.Lookup(table, r.slot.csid).msgData;
        && |r.slot.msgData| == |buffer| && r.slot.msgIndex <= |buffer|
        && r.slot.msgData[r.slot.msgIndex..] == buffer[r.slot.msgIndex..]
  {
    hide Chunks.Assemble, Chunks.ReadBasic;
    if inp != [] {
      var (fmt, csid, rest) := Chunks.ReadBasic(inp);
      Chunks.AddressedInRange(table, fmt, csid, first);
      if !Chunks.MakesBuffer(fmt) {
        Chunks.AssembleKeepsTail(Chunks.Addressed(table, fmt, csid, first), chunkSize, rest);
      }
    }
  }

  /**
    Opened under fmt 2 or fmt 3 over one of the newest 12 messages, so that the producer looks at other bytes; or over
    one that may be being written to a player: some schedule reads it wrong.
   */
  lemma EarlyReuseFails(l: Line, max: int, i: nat)
    requires LineOk(l) && l.todo != [] && Room(l.feed) && Reuses(l.todo[0])
    requires i < |l.feed.msgs| == |l.feed.refs| && l.feed.refs[i] == Attached(l.todo[0].csid)
    requires var m := l.feed.msgs[i];
      || (|l.feed.msgs| <= i + 12 && Handles(l.feed.msgs, i + 1)
          && !Looks.Alike(HlsThen(m), Receiver.ForHls(m.(data := Overwritten(l)), Receiver.DataTypeOf(m))))
      || (m.data != Overwritten(l) && (InBurst(Gone(l).feed, max, i) || Live(Gone(l).feed, i)))
    ensures !SafeRun(l, max)
  {
    hide InBurst, Live, Handles, Room, Looks.Alike, Receiver.ForHls, Receiver.DataTypeOf, Overwritten, Gone, LineOk,
      Delivered, DataNow, Receiver.ContentsOf, SafeRun;
    GoneOk(l);
    DataAfterReuse(l, i);
    var f := Gone(l).feed;
    assert f.msgs[i] == l.feed.msgs[i];
    if Handles(l.feed.msgs, i + 1) {
      HandlesStill(l.feed.msgs, Delivered(l), i + 1);
    }
    if |l.feed.msgs| <= i + 12 && Handles(l.feed.msgs, i + 1) {
      assert i + BeforeProducer(f) >= |f.msgs|;
      assert HlsNow(f, i) == Receiver.ForHls(f.msgs[i].(data := Overwritten(l)), Receiver.DataTypeOf(f.msgs[i]));
    }
    assert Misread(f, i) || Stale(f, i);
    assert !SafeNow(f, max);
    NoLongerSafe(l, max);
  }

  lemma NoLongerSafe(l: Line, max: int)
    requires LineOk(l) && l.todo != [] && Room(l.feed) && LineOk(Gone(l)) && !SafeNow(Gone(l).feed, max)
    ensures !SafeRun(l, max)
  {
    hide LineOk, Gone, SafeNow, Room;
  }

  lemma DataAfterReuse(l: Line, i: nat)
    requires LineOk(l) && l.todo != [] && Reuses(l.todo[0])
    requires i < |l.feed.msgs| == |l.feed.refs| && l.feed.refs[i] == Attached(l.todo[0].csid)
    ensures FeedOk(Gone(l).feed) && i < |Gone(l).feed.msgs| && DataNow(Gone(l).feed, i) == Overwritten(l)
  {
    hide Overwritten, ChunkRuns.Matches, Chunks.ChunkStep, Receiver.AllPass, Chunks.Assembled, ChunkRuns.InStep,
      ChunkRuns.LegalRun, ChunkRuns.LanesOk, ChunkRuns.Wire, NextMessages;
    GoneOk(l);
    NextArrives(l);
    ReusedSlot(l);
    TookReads(l.feed, NextSlot(l), i);
    hide ToCome;
  }

  // ---------------------------------------------------------------- the simplest run that goes wrong

  /** A frame, and 40 ms later a message of the same length under fmt 2. */
  function TwoFrames(a: seq<byte>, b: seq<byte>): seq<ChunkRuns.Event> {
    [ChunkRuns.Open(6, ChunkRuns.Whole(0, Receiver.VIDEO, 1), a), ChunkRuns.Open(6, ChunkRuns.SameLength(40), b)]
  }

  function FirstMessage(data: seq<byte>): Message {
    Chunks.Message(6, 0, Receiver.VIDEO, 1, data)
  }

  function SecondMessage(data: seq<byte>): Message {
    Chunks.Message(6, 40, Receiver.VIDEO, 1, data)
  }

  /** Of one length, each in one chunk; the first one can be published, the second one may be refused. */
  ghost predicate Pair(a: seq<byte>, b: seq<byte>, chunkSize: nat) {
    1 <= |a| == |b| <= chunkSize && |a| < TWO_TO_THE_24 && Receiver.Publishable([FirstMessage(a)])
  }

  /** What the producer makes of b's bytes when it goes by the DataType that a had. */
  function Confused(a: seq<byte>, b: seq<byte>): seq<Segments.Chunk> {
    [Receiver.ForHls(FirstMessage(b), Receiver.DataTypeOf(FirstMessage(a)))]
  }

  lemma FirstIn(l: Line, a: seq<byte>, b: seq<byte>)
    requires LineOk(l) && l == Line(l.chunkSize, TwoFrames(a, b), map[], START) && Pair(a, b, l.chunkSize)
    ensures Passes(l) && LineOk(Gone(l)) && Gone(l).todo == [TwoFrames(a, b)[1]] && Gone(l).chunkSize == l.chunkSize
    ensures Gone(l).feed.refs == [Attached(6)] && Gone(l).feed.msgs == [FirstMessage(a)] == Delivered(l)
    ensures NextMessages(Gone(l)) == [SecondMessage(b)] && Chunks.Lookup(Gone(l).feed.table, 6).msgData == a
  {
    hide Receiver.TypeOf, Receiver.AllSufficient, Chunks.ChunkStep, Chunks.Assembled, ChunkRuns.LegalRun,
      Receiver.AllPass, ChunkRuns.InStep, ChunkRuns.Wire;
    GoneOk(l);
    NextArrives(l);
    assert NextMessages(l) == [FirstMessage(a)];
    assert Gone(l).feed.msgs == NextMessages(l);
    hide LineOk, Receiver.Publishable, ChunkRuns.Matches;
  }

  lemma TwoFramesLegal(a: seq<byte>, b: seq<byte>, chunkSize: nat)
    requires Pair(a, b, chunkSize)
    ensures ChunkRuns.LegalRun(map[], TwoFrames(a, b), chunkSize)
    ensures ChunkRuns.Completed(map[], TwoFrames(a, b), chunkSize) == [FirstMessage(a), SecondMessage(b)]
  {
    hide Receiver.Publishable;
    var run := TwoFrames(a, b);
    assert run[1..] == [run[1]] && [run[1]][1..] == [];
    ChunkRuns.AfterOk(map[], run[0], chunkSize);
    var lanes := ChunkRuns.After(map[], run[0], chunkSize);
    ChunkRuns.AfterOk(lanes, run[1], chunkSize);
    assert ChunkRuns.LegalRun(lanes, [run[1]], chunkSize);
    assert ChunkRuns.Completed(lanes, [run[1]], chunkSize) == [SecondMessage(b)];
  }

  /** The second one is in, over the first; if it is let pass, it is delivered too. */
  lemma BothIn(l: Line, a: seq<byte>, b: seq<byte>)
    requires LineOk(l) && l == Line(l.chunkSize, TwoFrames(a, b), map[], START) && Pair(a, b, l.chunkSize)
    ensures LineOk(Gone(l)) && Gone(l).todo != [] && LineOk(Gone(Gone(l)))
    ensures var f, pass := Gone(Gone(l)).feed, Receiver.AllPass([SecondMessage(b)]);
      && f.refs == [Attached(6)] + (if pass then [Attached(6)] else [])
      && f.msgs == [FirstMessage(a)] + Delivered(Gone(l))
      && Delivered(Gone(l)) == (if pass then [SecondMessage(b)] else [])
      && Chunks.Lookup(f.table, 6).msgData == b
  {
    hide Receiver.AllPass, Receiver.Publishable, Chunks.ChunkStep, Chunks.Assembled, ChunkRuns.LegalRun;
    FirstIn(l, a, b);
    var l' := Gone(l);
    GoneOk(l');
    NextArrives(l');
    ReusedSlot(l');
    assert FirstBytes(l') == b && Overwritten(l') == b;
    hide LineOk, Overwritten, FirstBytes, ChunkRuns.Matches;
  }

  /** The first message waits in DataChan, and the second one's chunk has come in. */
  lemma BothWait(a: seq<byte>, b: seq<byte>, chunkSize: nat, max: int) returns (w: World)
    requires Pair(a, b, chunkSize) && max >= 1 && WorldOk(Start(TwoFrames(a, b), chunkSize, max))
    ensures var start := Start(TwoFrames(a, b), chunkSize, max);
      && WorldOk(w) && SharedSchedules.Reaches(start, w) && SharedSchedules.Alone(w) && w.hls == []
      && LineOk(start.line) && LineOk(Gone(start.line)) && start.line.todo != [] && Gone(start.line).todo != []
      && w.line == Gone(Gone(start.line))
  {
    hide WorldOk, SharedSchedules.Reaches, SharedSchedules.Alone, Step, Gone, Delivered, Receiver.ContentOf;
    var w0 := Start(TwoFrames(a, b), chunkSize, max);
    StartAlone(w0);
    FirstIn(w0.line, a, b);
    SharedSchedules.AloneStep(w0, Wire);
    var w1 := Step(w0, Wire);
    AfterFirst(w0);
    SharedSchedules.AloneStep(w1, Move(Pipeline.Enqueue));
    var w2 := Step(w1, Move(Pipeline.Enqueue));
    AfterEnqueue(w1);
    BothIn(w0.line, a, b);
    SharedSchedules.AloneStep(w2, Wire);
    w := Step(w2, Wire);
    SharedSchedules.ReachesItself(w);
    SharedSchedules.ReachesNext(w2, Wire, w);
    SharedSchedules.ReachesNext(w1, Move(Pipeline.Enqueue), w);
    SharedSchedules.ReachesNext(w0, Wire, w);
  }

  lemma StartAlone(w: World)
    requires WorldOk(w) && w == Start(w.line.todo, w.line.chunkSize, w.pipe.max)
    ensures SharedSchedules.Alone(w) && w.hls == [] && LineOk(w.line) && w.pipe.receiverHand == []
  {
    hide Pipeline.Inv, LineOk;
  }

  lemma AfterFirst(w: World)
    requires WorldOk(w) && Enabled(w, Wire) && Delivered(w.line) != [] && w.pipe.dataChan == []
    ensures Step(w, Wire).pipe.receiverHand != [] && Step(w, Wire).pipe.dataChan == []
  {
    hide LineOk, Pipeline.Inv, Gone, Delivered, Receiver.ContentOf, Receiver.ContentsOf, Handles;
  }

  lemma AfterEnqueue(w: World)
    requires WorldOk(w) && Enabled(w, Move(Pipeline.Enqueue))
    ensures Step(w, Move(Pipeline.Enqueue)).pipe.receiverHand == []
  {
    hide LineOk, Pipeline.Inv, Receiver.ContentsOf, Handles;
  }

  /**
    The second message comes in over the first one before the producer has read that. The producer makes the second
    one's bytes in place of the first one; if the second is publishable too, it makes it once more.
   */
  lemma TwoFramesFail(a: seq<byte>, b: seq<byte>, chunkSize: nat, max: int)
    requires Pair(a, b, chunkSize) && max >= 1
    ensures ChunkRuns.LegalRun(map[], TwoFrames(a, b), chunkSize) && WorldOk(Start(TwoFrames(a, b), chunkSize, max))
    ensures ChunkRuns.Completed(map[], TwoFrames(a, b), chunkSize) == [FirstMessage(a), SecondMessage(b)]
    ensures !Looks.Alike(HlsThen(FirstMessage(a)), Confused(a, b)[0]) ==>
      !SafeRun(Start(TwoFrames(a, b), chunkSize, max).line, max)
    ensures exists run ::
      && ValidRun(Start(TwoFrames(a, b), chunkSize, max), run)
      && Exec(Start(TwoFrames(a, b), chunkSize, max), run).hls == Confused(a, b) +
           if Receiver.Publishable([FirstMessage(a), SecondMessage(b)]) then [HlsThen(SecondMessage(b))] else []
  {
    TwoFramesLegal(a, b, chunkSize);
    StartOk(TwoFrames(a, b), chunkSize, max);
    var start := Start(TwoFrames(a, b), chunkSize, max);
    assert LineOk(start.line) && start.line == Line(chunkSize, TwoFrames(a, b), map[], START);
    hide *;
    var w := BothWait(a, b, chunkSize, max);
    var w' := BothMade(w, a, b, start.line);
    SharedSchedules.ReachesOn(start, w, w');
    RunOf(start, w');
    TwoFramesUnsafe(start.line, a, b, max);
  }

  lemma TwoFramesUnsafe(l: Line, a: seq<byte>, b: seq<byte>, max: int)
    requires LineOk(l) && l == Line(l.chunkSize, TwoFrames(a, b), map[], START) && Pair(a, b, l.chunkSize)
    ensures !Looks.Alike(HlsThen(FirstMessage(a)), Confused(a, b)[0]) ==> !SafeRun(l, max)
  {
    hide LineOk, Gone, Looks.Alike, Receiver.ForHls, Receiver.DataTypeOf, SafeNow, Receiver.Publishable, Delivered;
    FirstIn(l, a, b);
    var l' := Gone(l);
    assert Overwritten(l') == b;
    assert [FirstMessage(a)][..1] == [FirstMessage(a)];
    assert Handles(l'.feed.msgs, 1) && Room(l'.feed) && Room(l.feed);
    if !Looks.Alike(HlsThen(FirstMessage(a)), Confused(a, b)[0]) {
      EarlyReuseFails(l', max, 0);
    }
  }

  lemma RunOf(w: World, w': World)
    requires WorldOk(w) && SharedSchedules.Reaches(w, w')
    ensures exists run :: ValidRun(w, run) && Exec(w, run).hls == w'.hls
  {
    hide WorldOk, ValidRun, Exec;
  }

  lemma BothMade(w: World, a: seq<byte>, b: seq<byte>, l: Line) returns (w': World)
    requires WorldOk(w) && SharedSchedules.Alone(w) && w.hls == [] && Pair(a, b, l.chunkSize)
    requires LineOk(l) && l == Line(l.chunkSize, TwoFrames(a, b), map[], START) && l.todo != []
    requires LineOk(Gone(l)) && Gone(l).todo != [] && w.line == Gone(Gone(l))
    ensures WorldOk(w') && SharedSchedules.Reaches(w, w')
    ensures w'.hls == Confused(a, b) +
      if Receiver.Publishable([FirstMessage(a), SecondMessage(b)]) then [HlsThen(SecondMessage(b))] else []
  {
    hide WorldOk, LineOk, SharedSchedules.Alone, SharedSchedules.Reaches, Gone, Receiver.AllSufficient,
      Receiver.AllPass, Receiver.ForHls, Receiver.DataTypeOf;
    BothIn(l, a, b);
    var both := Receiver.Publishable([FirstMessage(a), SecondMessage(b)]);
    var n := if both then 2 else 1;
    if both {
      assert [FirstMessage(a)] + [SecondMessage(b)] == [FirstMessage(a), SecondMessage(b)];
      Receiver.PartPasses([FirstMessage(a)], [SecondMessage(b)]);
    }
    assert w.line.feed.msgs[..n] == if both then [FirstMessage(a), SecondMessage(b)] else [FirstMessage(a)];
    w' := SharedSchedules.CatchesUp(w, n);
  }
}
