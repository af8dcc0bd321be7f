/**
  A publisher's connection with the buffers that its messages are in (rtmp.go:411-471, 763-769, 822-862): the chunks
  still to come, what both sides know, and what was delivered. A message that the receiver refuses ends it, with its
  bytes in the buffer.
 */
module Connection {
  import opened Buffers
  import opened Bytes
  import Chunks
  import ChunkRuns
  import Receiver

  type Message = Chunks.Message

  /** The publisher's connection: what the publisher has still to send, what both sides know, what was delivered. */
  datatype Line = Line(chunkSize: nat, todo: seq<ChunkRuns.Event>, lanes: ChunkRuns.Lanes, feed: Feed)

  ghost predicate LineOk(l: Line) {
    && l.chunkSize >= 1 && ChunkRuns.LanesOk(l.lanes) && ChunkRuns.LegalRun(l.lanes, l.todo, l.chunkSize)
    && FeedOk(l.feed) && ChunkRuns.InStep(l.lanes, l.feed.table)
  }

  /** All bytes that are still to come. */
  ghost function ToCome(l: Line): seq<byte>
    requires LineOk(l)
  {
    ChunkRuns.Wire(l.lanes, l.todo, l.chunkSize)
  }

  /** The messages that the next chunk completes: one or none. */
  ghost function NextMessages(l: Line): seq<Message>
    requires LineOk(l) && l.todo != []
  {
    ChunkRuns.Completes(l.lanes, l.todo[0], l.chunkSize)
  }

  /** The slot that the receiver makes of the next chunk. */
  ghost function NextSlot(l: Line): Chunks.Slot
    requires LineOk(l) && l.todo != []
  {
    NextArrives(l);
    Chunks.ChunkStep(l.feed.table, l.chunkSize, ToCome(l), l.feed.first).slot
  }

  lemma NextArrives(l: Line)
    requires LineOk(l) && l.todo != []
    ensures var r := Chunks.ChunkStep(l.feed.table, l.chunkSize, ToCome(l), l.feed.first);
      && ChunkRuns.LanesOk(ChunkRuns.After(l.lanes, l.todo[0], l.chunkSize))
      && r.Stepped? && r.slot.csid == l.todo[0].csid && r.slot.fmt == ChunkRuns.EventFmt(l.todo[0])
      && r.rest == ChunkRuns.Wire(ChunkRuns.After(l.lanes, l.todo[0], l.chunkSize), l.todo[1..], l.chunkSize)
      && ChunkRuns.Matches(ChunkRuns.After(l.lanes, l.todo[0], l.chunkSize)[l.todo[0].csid], r.slot)
      && NextMessages(l) == if r.slot.full then [Chunks.Content(r.slot)] else []
  {
    hide Chunks.ChunkStep, ChunkRuns.EventBytes, ChunkRuns.Completes, ChunkRuns.Matches, ChunkRuns.Legal;
    ChunkRuns.AfterOk(l.lanes, l.todo[0], l.chunkSize);
    var rest := ChunkRuns.Wire(ChunkRuns.After(l.lanes, l.todo[0], l.chunkSize), l.todo[1..], l.chunkSize);
    ChunkRuns.StepInStep(l.lanes, l.todo[0], l.chunkSize, l.feed.table, rest, l.feed.first);
  }

  /** The next chunk's message, if it has one, is one that the receiver lets pass. */
  ghost predicate Passes(l: Line)
    requires LineOk(l) && l.todo != []
  {
    Receiver.AllPass(NextMessages(l))
  }

  /**
    The line with the next chunk gone over. A message that the receiver refuses is read into its buffer like any other,
    but goes nowhere, and it is the last.
   */
  ghost function Gone(l: Line): Line
    requires LineOk(l) && l.todo != []
  {
    Line(l.chunkSize,
         if Passes(l) then l.todo[1..] else [],
         ChunkRuns.After(l.lanes, l.todo[0], l.chunkSize),
         if Passes(l) then Took(l.feed, NextSlot(l)) else Rewritten(l.feed, NextSlot(l)))
  }

  /** The messages that go on with it. */
  ghost function Delivered(l: Line): seq<Message>
    requires LineOk(l) && l.todo != []
  {
    if Passes(l) then NextMessages(l) else []
  }

  lemma GoneOk(l: Line)
    requires LineOk(l) && l.todo != []
    ensures LineOk(Gone(l)) && Gone(l).feed.msgs == l.feed.msgs + Delivered(l) && |Gone(l).todo| < |l.todo|
    ensures Gone(l).feed.first == (Delivered(l) != []) && |Delivered(l)| <= 1 && Gone(l).chunkSize == l.chunkSize
  {
    hide Receiver.AllPass;
    FeedGone(l);
    LanesGone(l);
    hide Gone, FeedOk, NextMessages, Delivered, ChunkRuns.LanesOk, ChunkRuns.LegalRun, ChunkRuns.InStep;
  }

  lemma FeedGone(l: Line)
    requires LineOk(l) && l.todo != []
    ensures FeedOk(Gone(l).feed) && Gone(l).feed.msgs == l.feed.msgs + Delivered(l)
    ensures Gone(l).feed.first == (Delivered(l) != []) && |Delivered(l)| <= 1
    ensures Gone(l).chunkSize == l.chunkSize >= 1 && |Gone(l).todo| < |l.todo|
  {
    hide Receiver.AllPass, ChunkRuns.Matches, ChunkRuns.LanesOk, ChunkRuns.After, ChunkRuns.Wire,
      ChunkRuns.InStep, Chunks.ChunkStep, Chunks.Assembled, Chunks.Content;
    NextArrives(l);
    TookOk(l.feed, NextSlot(l));
    hide NextMessages, ToCome, Took, Rewritten, FeedOk;
  }

  lemma LanesGone(l: Line)
    requires LineOk(l) && l.todo != []
    ensures ChunkRuns.LanesOk(Gone(l).lanes)
    ensures ChunkRuns.LegalRun(Gone(l).lanes, Gone(l).todo, Gone(l).chunkSize)
    ensures ChunkRuns.InStep(Gone(l).lanes, Gone(l).feed.table)
  {
    hide Receiver.AllPass, ChunkRuns.Matches, ChunkRuns.InStep, ChunkRuns.Legal, ChunkRuns.LanesOk,
      ChunkRuns.After, Chunks.ChunkStep, Chunks.Assembled, Chunks.Content, Chunks.TableOk, NextMessages, ToCome, Detach;
    NextArrives(l);
    ChunkRuns.StaysInStep(l.lanes, l.todo[0], l.chunkSize, l.feed.table, NextSlot(l));
  }

  /** The line after k more chunks, or after all that it takes. */
  ghost function Ahead(l: Line, k: nat): (l': Line)
    requires LineOk(l)
    ensures LineOk(l')
    decreases k
  {
    if k == 0 || l.todo == [] then l
    else
      GoneOk(l);
      Ahead(Gone(l), k - 1)
  }

  /** The receiver's buffers on the line are those that it has when it reads the bytes (`RtmpFeed.Feeder`). */
  lemma {:induction false} FedByLine(l: Line)
    requires LineOk(l) && Receiver.AllPass(ChunkRuns.Completed(l.lanes, l.todo, l.chunkSize))
    ensures Fed(l.feed, l.chunkSize, ToCome(l)) == Ahead(l, |l.todo|).feed
    decreases |l.todo|
  {
    if l.todo != [] {
      FedAgain(l);
      hide Chunks.ChunkStep, Took, NextMessages, LineOk, Receiver.AllPass, ChunkRuns.Completed, Gone;
      FedByLine(Gone(l));
    }
  }

  /** One chunk of a run whose messages all pass. */
  lemma FedAgain(l: Line)
    requires LineOk(l) && l.todo != [] && Receiver.AllPass(ChunkRuns.Completed(l.lanes, l.todo, l.chunkSize))
    ensures LineOk(Gone(l)) && |Gone(l).todo| == |l.todo| - 1 && Gone(l).chunkSize == l.chunkSize
    ensures Receiver.AllPass(ChunkRuns.Completed(Gone(l).lanes, Gone(l).todo, l.chunkSize))
    ensures Fed(l.feed, l.chunkSize, ToCome(l)) == Fed(Gone(l).feed, l.chunkSize, ToCome(Gone(l)))
  {
    hide Receiver.AllPass, ChunkRuns.After, ChunkRuns.Completes, ChunkRuns.LanesOk, ChunkRuns.InStep, ChunkRuns.Legal,
      ChunkRuns.Matches, Chunks.ChunkStep, Took, Rewritten, FeedOk;
    GoneOk(l);
    NextArrives(l);
    GoesOn(l);
    assert Gone(l).lanes == ChunkRuns.After(l.lanes, l.todo[0], l.chunkSize);
  }

  /** Its messages are delivered, and it goes on. */
  lemma GoesOn(l: Line)
    requires LineOk(l) && l.todo != [] && Receiver.AllPass(ChunkRuns.Completed(l.lanes, l.todo, l.chunkSize))
    ensures Passes(l) && Gone(l).todo == l.todo[1..] && LineOk(Gone(l)) && Gone(l).chunkSize == l.chunkSize
    ensures Gone(l).feed.msgs == l.feed.msgs + NextMessages(l)
    ensures ChunkRuns.Completed(l.lanes, l.todo, l.chunkSize) ==
      NextMessages(l) + ChunkRuns.Completed(Gone(l).lanes, Gone(l).todo, l.chunkSize)
    ensures Receiver.AllPass(ChunkRuns.Completed(Gone(l).lanes, Gone(l).todo, l.chunkSize))
  {
    hide Receiver.AllPass, ChunkRuns.After, ChunkRuns.Completes, ChunkRuns.LanesOk, ChunkRuns.InStep, ChunkRuns.Legal,
      ChunkRuns.Matches, Chunks.ChunkStep, Took, Rewritten, FeedOk, NextSlot;
    ChunkRuns.AfterOk(l.lanes, l.todo[0], l.chunkSize);
    var rest := ChunkRuns.Completed(ChunkRuns.After(l.lanes, l.todo[0], l.chunkSize), l.todo[1..], l.chunkSize);
    Receiver.PartPasses(NextMessages(l), rest);
    GoneOk(l);
    hide LineOk;
  }
}
