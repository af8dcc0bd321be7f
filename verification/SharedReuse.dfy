/** When a publisher may reuse a buffer: fmt 2 and fmt 3 openings, in the publisher's own terms. */
module SharedReuse {
  import opened Bytes
  import opened Buffers
  import opened Connection
  import opened DataTypes
  import opened Shared
  import Chunks
  import ChunkRuns
  import Gop
  import Looks
  import Pipeline
  import Receiver
  import SharedRuns

  // ---------------------------------------------------------------- no reuse too early

  /** The message is kept for new players, or will be once the missing headers have come. */
  ghost predicate Kept(contents: seq<Content>, max: int, i: nat) {
    i in Gop.HeadsIn(contents).Values || i in Pipeline.Numbers(Gop.After(Gop.FramesIn(contents), max).media)
  }

  /** It is kept, or was until a few messages ago. */
  ghost predicate KeptLately(contents: seq<Content>, max: int, i: nat, few: nat) {
    exists m :: 0 <= m <= |contents| < m + few && Kept(contents[..m], max, i)
  }

  /** It may still be on its way, or kept, or being written to a player. */
  ghost predicate Wanted(f: Feed, max: int, i: nat) {
    i + BeforeProducer(f) >= |f.msgs| || KeptLately(Receiver.ContentsOf(f.msgs), max, i, BehindSender(f))
  }

  /** The next chunk opens a message under fmt 2 or fmt 3, into the buffer that its csid has. */
  predicate Reuses(e: ChunkRuns.Event) {
    e.Open? && !Chunks.MakesBuffer(ChunkRuns.EventFmt(e))
  }

  /**
    Whenever a message is opened under fmt 2 or fmt 3, no message that came on its csid since the last fmt 0 or fmt 1
    opening there is one of the newest 12, or is kept for new players or was so within the last 5 messages.
   */
  ghost predicate ReusesLate(l: Line, max: int)
    requires LineOk(l)
    decreases |l.todo|
  {
    l.todo != [] ==> (
      && (Reuses(l.todo[0]) ==> forall i :: 0 <= i < |l.feed.refs| && l.feed.refs[i] == Attached(l.todo[0].csid) ==>
            NotWanted(l.feed, max, i))
      && (GoneOk(l); ReusesLate(Gone(l), max)))
  }

  ghost predicate NotWanted(f: Feed, max: int, i: nat) {
    i + 12 < |f.msgs| && !KeptLately(Receiver.ContentsOf(f.msgs), max, i, 6)
  }

  /** What is wanted reads as it was delivered, and its buffer is not being written to. */
  ghost predicate Intact(l: Line, max: int) {
    forall i :: 0 <= i < |l.feed.msgs| == |l.feed.refs| && Wanted(l.feed, max, i) ==>
      && !Stale(l.feed, i)
      && (l.feed.refs[i].Attached? ==>
            l.feed.refs[i].csid in l.lanes && ChunkRuns.Idle(l.lanes[l.feed.refs[i].csid]))
  }

  /** A message that is wanted was wanted before, or is new. */
  lemma WantedBefore(l: Line, max: int, i: nat)
    requires LineOk(l) && l.todo != [] && Wanted(Gone(l).feed, max, i) && i < |l.feed.msgs|
    ensures Wanted(l.feed, max, i) && !NotWanted(l.feed, max, i)
  {
    hide LineOk, Kept, Gone, Delivered, Receiver.ContentOf, Receiver.ContentsOf;
    GoneOk(l);
    var cs, few := Receiver.ContentsOf(l.feed.msgs), BehindSender(Gone(l).feed);
    if Delivered(l) == [] {
      assert Gone(l).feed.msgs == l.feed.msgs;
    } else {
      var m := Delivered(l)[0];
      assert Delivered(l) == [m];
      Receiver.OneMoreContent(l.feed.msgs, m);
      if KeptLately(Receiver.ContentsOf(Gone(l).feed.msgs), max, i, few) {
        LatelyBefore(cs, Receiver.ContentOf(m), max, i);
      }
    }
  }

  lemma LatelyBefore(cs: seq<Content>, c: Content, max: int, i: nat)
    requires KeptLately(cs + [c], max, i, 7) && i < |cs|
    ensures KeptLately(cs, max, i, 6)
  {
    hide Kept;
    var m :| 0 <= m <= |cs + [c]| < m + 7 && Kept((cs + [c])[..m], max, i);
    if m <= |cs| {
      assert (cs + [c])[..m] == cs[..m];
    } else {
      assert (cs + [c])[..m] == cs + [c] && cs[..|cs|] == cs;
      KeptBefore(cs, c, max, i);
    }
  }

  lemma KeptBefore(cs: seq<Content>, c: Content, max: int, i: nat)
    requires Kept(cs + [c], max, i) && i < |cs|
    ensures Kept(cs, max, i)
  {
    hide Gop.After, Gop.Push, Gop.HeadsIn, Gop.FramesIn;
    Gop.OneMore(cs, c);
    var h, more := Gop.FramesIn(cs), Gop.Cached(c, |cs|);
    Pipeline.FramesPushed(h, more, max);
    if more != [] && i in Pipeline.Numbers(Gop.After(h + more, max).media) {
      PushKeepsOrDrops(Gop.After(h, max), more[0], max, i);
    }
  }

  lemma PushKeepsOrDrops(s: Gop.State, f: Gop.Frame, max: int, i: nat)
    requires i in Pipeline.Numbers(Gop.Push(s, f, max).media) && i != f.number
    ensures i in Pipeline.Numbers(s.media)
  {
    var media := s.media + [f];
    Gop.DropGopLeaves(media, 0);
    var after := Gop.Push(s, f, max).media;
    var k :| 0 <= k < |after| && after[k].number == i;
    assert after[k] in media;
    assert after[k] in s.media;
    var j :| 0 <= j < |s.media| && s.media[j] == after[k];
    assert Pipeline.Numbers(s.media)[j] == i;
  }

  /** One chunk: what is wanted stays intact. */
  lemma IntactStep(l: Line, max: int)
    requires LineOk(l) && l.todo != [] && ReusesLate(l, max) && Intact(l, max)
    ensures Intact(Gone(l), max)
  {
    hide Wanted, NotWanted, ReusesLate, LineOk, Gone, Delivered, Stale, Intact, ChunkRuns.Idle;
    GoneOk(l);
    var l' := Gone(l);
    forall i | 0 <= i < |l'.feed.msgs| == |l'.feed.refs| && Wanted(l'.feed, max, i)
      ensures !Stale(l'.feed, i)
      ensures l'.feed.refs[i].Attached? ==>
        l'.feed.refs[i].csid in l'.lanes && ChunkRuns.Idle(l'.lanes[l'.feed.refs[i].csid])
    {
      if i < |l.feed.msgs| {
        WantedBefore(l, max, i);
        StaysIntact(l, max, i);
      } else {
        NewIsIntact(l);
      }
    }
    AllIntact(l', max);
  }

  lemma AllIntact(l: Line, max: int)
    requires forall i :: 0 <= i < |l.feed.msgs| == |l.feed.refs| && Wanted(l.feed, max, i) ==>
      && !Stale(l.feed, i)
      && (l.feed.refs[i].Attached? ==>
            l.feed.refs[i].csid in l.lanes && ChunkRuns.Idle(l.lanes[l.feed.refs[i].csid]))
    ensures Intact(l, max)
  {
  }

  lemma StaysIntact(l: Line, max: int, i: nat)
    requires LineOk(l) && l.todo != [] && ReusesLate(l, max) && Intact(l, max)
    requires i < |l.feed.msgs| && Wanted(l.feed, max, i) && !NotWanted(l.feed, max, i)
    ensures FeedOk(Gone(l).feed) && i < |Gone(l).feed.msgs| && !Stale(Gone(l).feed, i)
    ensures Gone(l).feed.refs[i].Attached? ==>
      var csid := Gone(l).feed.refs[i].csid;
      csid in Gone(l).lanes && ChunkRuns.Idle(Gone(l).lanes[csid])
  {
    hide Wanted, NotWanted, ReusesLate, ToCome, NextMessages, Delivered, Passes, Chunks.ChunkStep, Chunks.Assembled,
      ChunkRuns.Matches, ChunkRuns.InStep, ChunkRuns.LaneOk, ChunkRuns.Wire, Receiver.AllPass;
    GoneOk(l);
    NextArrives(l);
    TookReads(l.feed, NextSlot(l), i);
    assert ChunkRuns.Legal(l.lanes, l.todo[0], l.chunkSize);
    if l.feed.refs[i] == Attached(l.todo[0].csid) {
      NotReused(l, max, i);
    }
  }

  lemma NotReused(l: Line, max: int, i: nat)
    requires LineOk(l) && l.todo != [] && ReusesLate(l, max)
    requires i < |l.feed.msgs| && l.feed.refs[i] == Attached(l.todo[0].csid) && !NotWanted(l.feed, max, i)
    ensures !Reuses(l.todo[0])
  {
  }

  lemma NewIsIntact(l: Line)
    requires LineOk(l) && l.todo != [] && Delivered(l) != []
    ensures var l', i := Gone(l), |l.feed.msgs|;
      && FeedOk(l'.feed) && i < |l'.feed.msgs| && !Stale(l'.feed, i)
      && l'.feed.refs[i] == Attached(l.todo[0].csid)
      && l.todo[0].csid in l'.lanes && ChunkRuns.Idle(l'.lanes[l.todo[0].csid])
  {
    hide ChunkRuns.Matches, ChunkRuns.InStep, ChunkRuns.Legal, ChunkRuns.LaneOk, Chunks.ChunkStep, Chunks.Assembled,
      Receiver.AllPass;
    GoneOk(l);
    NextArrives(l);
    TookReads(l.feed, NextSlot(l), |l.feed.msgs|);
  }

  lemma {:induction false} LateReuseFrom(l: Line, max: int)
    requires LineOk(l) && ReusesLate(l, max) && Intact(l, max)
    ensures SafeRun(l, max)
    decreases |l.todo|
  {
    IntactIsSafe(l, max);
    if l.todo != [] {
      GoneOk(l);
      IntactStep(l, max);
      hide Intact, SafeNow, Room;
      LateReuseFrom(Gone(l), max);
    }
  }

  lemma IntactIsSafe(l: Line, max: int)
    requires LineOk(l) && Intact(l, max)
    ensures SafeNow(l.feed, max)
  {
    hide Stale, Misread, Kept, Cached, Receiver.ContentsOf, Handles;
    var f := l.feed;
    forall i | 0 <= i < |f.msgs| && Stale(f, i)
      ensures i + BeforeProducer(f) < |f.msgs| && !InBurst(f, max, i) && !Live(f, i)
    {
      if InBurst(f, max, i) {
        var m :| 0 <= m <= |f.msgs| < m + BehindSender(f) && i in Cached(Receiver.ContentsOf(f.msgs)[..m], max);
        CachedIsKept(Receiver.ContentsOf(f.msgs)[..m], max, i);
      }
    }
    forall i | 0 <= i < |f.msgs| && Misread(f, i)
      ensures Stale(f, i)
    {
      MisreadIsStale(f, i);
    }
  }

  lemma MisreadIsStale(f: Feed, i: nat)
    requires FeedOk(f) && i < |f.msgs| && Misread(f, i)
    ensures Stale(f, i)
  {
    hide DataNow;
  }

  lemma CachedIsKept(contents: seq<Content>, max: int, i: nat)
    requires i in Cached(contents, max)
    ensures Kept(contents, max, i)
  {
    hide Gop.HeadsIn, Gop.FramesIn, Gop.After, Pipeline.Numbers;
  }

  /**
    A publisher that opens a message under fmt 2 or fmt 3 only when no message since the last new buffer on that csid
    is among the newest 12, or kept for new players, or was so within the last 5 messages, is safe.
   */
  lemma LateReuseIsSafe(events: seq<ChunkRuns.Event>, chunkSize: nat, max: int)
    requires chunkSize >= 1 && max >= 1 && ChunkRuns.LegalRun(map[], events, chunkSize)
    requires LineOk(Start(events, chunkSize, max).line) && ReusesLate(Start(events, chunkSize, max).line, max)
    ensures SafeRun(Start(events, chunkSize, max).line, max)
  {
    LateReuseFrom(Start(events, chunkSize, max).line, max);
  }

  /** So is one that opens every message under fmt 0 or fmt 1. */
  lemma {:induction false} NewBuffersAreSafe(l: Line, max: int)
    requires LineOk(l) && forall e :: e in l.todo ==> !Reuses(e)
    ensures ReusesLate(l, max)
    decreases |l.todo|
  {
    if l.todo != [] {
      GoneOk(l);
      NewBuffersAreSafe(Gone(l), max);
    }
  }
}
