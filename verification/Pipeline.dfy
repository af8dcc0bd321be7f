/**
  From publisher to players (rtmp.go:763-907, 1278-1306; hls.go:302-331): the receiver, the sender and the HLS
  producer as three goroutines joined by two channels of capacity 5, and players that join at any moment. Each cache
  update and each send to one player is one step; a run is any interleaving of steps.
 */
module Pipeline {
  import opened DataTypes
  import Gop

  const CAPACITY := 5

  type PlayerId = nat

  /** One player: what it was sent. Before its first turn it is new and has been sent nothing. */
  datatype Player =
    | New
    | Served(from: nat, receivedThen: nat, heads: seq<nat>, burst: seq<Gop.Frame>, live: seq<nat>)

  /** Where the sender's loop is. While it serves chunk c, `present` are the players that the loop must still visit
      unless they go, and `visited` the ones it has visited. */
  datatype Sender = Waiting | Holding(c: nat) | Serving(c: nat, present: set<PlayerId>, visited: set<PlayerId>)

  datatype State = State(
    max: int,                    // GopCacheMax
    contents: seq<Content>,      // the chunks received, numbered 0, 1, ...
    heads: map<HeadKind, nat>,   // MetaData, VideoHeader and AudioHeader, those there are
    cache: Gop.State,
    receiverHand: seq<nat>,      // the chunk that waits for room in DataChan, if any
    dataChan: seq<nat>,
    sender: Sender,
    hlsChan: seq<nat>,
    consumed: seq<nat>,          // what the HLS producer has taken
    players: map<PlayerId, Player>)

  datatype Action =
    | Receive(content: Content)
    | Enqueue
    | Take
    | ForwardToHls
    | Serve(p: PlayerId, ok: bool)
    | FinishRound
    | Consume
    | Join(p: PlayerId)

  function Init(max: int): State {
    State(max, [], map[], Gop.EMPTY, [], [], Waiting, [], [], map[])
  }

  /** Nothing that a new player is sent first is missing. */
  predicate AllHeads(heads: map<HeadKind, nat>) {
    MetaHead in heads && VideoHead in heads && AudioHead in heads
  }

  /** The headers in the order in which they are sent. */
  function HeadList(heads: map<HeadKind, nat>): seq<nat>
    requires AllHeads(heads)
  {
    [heads[MetaHead], heads[VideoHead], heads[AudioHead]]
  }

  /** The loop would now send the cache to a new player, but a header is missing: the server crashes. */
  predicate Crashing(s: State, p: PlayerId) {
    && s.sender.Serving? && p in s.players && p !in s.sender.visited
    && s.players[p].New? && !AllHeads(s.heads)
  }

  predicate Enabled(s: State, a: Action) {
    match a
    case Receive(_) => s.receiverHand == []
    case Enqueue => s.receiverHand != [] && |s.dataChan| < CAPACITY
    case Take => s.sender.Waiting? && s.dataChan != []
    case ForwardToHls => s.sender.Holding? && |s.hlsChan| < CAPACITY
    case Serve(p, _) => s.sender.Serving? && p in s.players && p !in s.sender.visited && !Crashing(s, p)
    case FinishRound => s.sender.Serving? && s.sender.present * s.players.Keys <= s.sender.visited
    case Consume => s.hlsChan != []
    case Join(p) => p !in s.players
  }

  function Step(s: State, a: Action): State
    requires Enabled(s, a)
  {
    match a
    case Receive(content) =>
      var n := |s.contents|;
      var s' := s.(contents := s.contents + [content], receiverHand := [n]);
      match content {
        case Plain => s'
        case Head(head) => s'.(heads := s.heads[head := n])
        case MediaFrame(kind) => s'.(cache := Gop.Push(s.cache, Gop.Frame(kind, n), s.max))
      }
    case Enqueue => s.(dataChan := s.dataChan + s.receiverHand, receiverHand := [])
    case Take => s.(sender := Holding(s.dataChan[0]), dataChan := s.dataChan[1..])
    case ForwardToHls =>
      s.(hlsChan := s.hlsChan + [s.sender.c], sender := Serving(s.sender.c, s.players.Keys, {}))
    case Serve(p, ok) =>
      s.(sender := s.sender.(visited := s.sender.visited + {p}),
         players := if ok then s.players[p := Send(s, s.players[p])] else s.players - {p})
    case FinishRound => s.(sender := Waiting)
    case Consume => s.(consumed := s.consumed + [s.hlsChan[0]], hlsChan := s.hlsChan[1..])
    case Join(p) =>
      s.(players := s.players[p := New],
         sender := if s.sender.Serving?
                   then s.sender.(present := s.sender.present - {p}, visited := s.sender.visited - {p})
                   else s.sender)
  }

  /** A new player gets the cache in place of the chunk, any other player the chunk. */
  function Send(s: State, p: Player): Player
    requires s.sender.Serving? && (p.New? ==> AllHeads(s.heads))
  {
    match p
    case New => Served(s.sender.c, |s.contents|, HeadList(s.heads), s.cache.media, [])
    case Served(_, _, _, _, live) => p.(live := live + [s.sender.c])
  }

  ghost predicate ValidRun(s: State, run: seq<Action>)
    decreases run
  {
    run == [] || (Enabled(s, run[0]) && ValidRun(Step(s, run[0]), run[1..]))
  }

  ghost function Exec(s: State, run: seq<Action>): State
    requires ValidRun(s, run)
    decreases run
  {
    if run == [] then s else Exec(Step(s, run[0]), run[1..])
  }

  // ---------------------------------------------------------------- what every step keeps

  function Range(a: nat, b: nat): (r: seq<nat>)
    requires a <= b
    ensures |r| == b - a
    ensures forall i :: 0 <= i < |r| ==> r[i] == a + i
  {
    seq(b - a, i requires 0 <= i => a + i)
  }

  function InSendersHand(s: State): seq<nat> {
    if s.sender.Holding? then [s.sender.c] else []
  }

  /** Everything received, in order: nothing is lost, repeated or overtaken on the way to the HLS producer. */
  ghost predicate Conserved(s: State) {
    s.consumed + s.hlsChan + InSendersHand(s) + s.dataChan + s.receiverHand == Range(0, |s.contents|)
  }

  ghost predicate Bounded(s: State) {
    && |s.hlsChan| <= CAPACITY && |s.dataChan| <= CAPACITY && |s.receiverHand| <= 1
    && (s.sender.Serving? ==> s.sender.c + 1 == |s.consumed| + |s.hlsChan|)
  }

  /** The cache is the GOP cache of the frames received, with the last header of each kind. */
  ghost predicate CacheOk(s: State) {
    s.max >= 1 && s.cache == Gop.After(Gop.FramesIn(s.contents), s.max) && s.heads == Gop.HeadsIn(s.contents)
  }

  /** The number of the chunk that a player gets next. */
  function NextFor(s: State, p: PlayerId): nat {
    match s.sender
    case Serving(c, _, visited) => if p in visited then c + 1 else c
    case _ => |s.consumed| + |s.hlsChan|
  }

  /**
    A player that was sent the cache while chunk `from` was processed has been sent exactly from + 1, from + 2, ...
    since. Headers and cache were those of the chunks received by then, at most 6 chunks past `from`.
   */
  ghost predicate PlayerOk(s: State, p: PlayerId, player: Player) {
    player.Served? ==>
      && player.from < NextFor(s, p)
      && player.live == Range(player.from + 1, NextFor(s, p))
      && player.from < player.receivedThen <= player.from + 1 + CAPACITY + 1
      && player.receivedThen <= |s.contents|
      && SentFirst(player, s.contents[..player.receivedThen], s.max)
      && (s.sender.Serving? && p !in s.sender.visited ==> p in s.sender.present)
  }

  /** What a player was sent first, of the chunks received by then. */
  ghost predicate SentFirst(player: Player, contents: seq<Content>, max: int)
    requires player.Served?
  {
    && AllHeads(Gop.HeadsIn(contents)) && player.heads == HeadList(Gop.HeadsIn(contents))
    && player.burst == Gop.After(Gop.FramesIn(contents), max).media
  }

  ghost predicate Inv(s: State) {
    Conserved(s) && Bounded(s) && CacheOk(s) && forall p :: p in s.players ==> PlayerOk(s, p, s.players[p])
  }

  lemma InitInv(max: int)
    requires max >= 1
    ensures Inv(Init(max))
  {
  }

  lemma ConservedStep(s: State, a: Action)
    requires Enabled(s, a) && Conserved(s) && Bounded(s)
    ensures Conserved(Step(s, a)) && Bounded(Step(s, a))
  {
    match a
    case Receive(_) => ReceiveConserves(s, a);
    case Enqueue => assert s.dataChan + s.receiverHand + [] == s.dataChan + s.receiverHand;
    case Take => assert [s.dataChan[0]] + s.dataChan[1..] == s.dataChan;
    case ForwardToHls => ForwardConserves(s);
    case Consume => ConsumeConserves(s);
    case _ =>
  }

  lemma ReceiveConserves(s: State, a: Action)
    requires Enabled(s, a) && a.Receive? && Conserved(s) && Bounded(s)
    ensures Conserved(Step(s, a)) && Bounded(Step(s, a))
  {
    var before := s.consumed + s.hlsChan + InSendersHand(s) + s.dataChan;
    assert before + [] == before;
    assert Range(0, |s.contents| + 1) == Range(0, |s.contents|) + [|s.contents|];
  }

  lemma ForwardConserves(s: State)
    requires s.sender.Holding? && |s.hlsChan| < CAPACITY && Conserved(s) && Bounded(s)
    ensures Conserved(Step(s, ForwardToHls)) && Bounded(Step(s, ForwardToHls))
  {
    var c, n := s.sender.c, |s.consumed| + |s.hlsChan|;
    var after := s.dataChan + s.receiverHand;
    assert s.consumed + s.hlsChan + [c] + s.dataChan + s.receiverHand == s.consumed + s.hlsChan + [c] + after;
    assert (s.consumed + s.hlsChan + [c] + after)[n] == c;
    assert s.consumed + (s.hlsChan + [c]) + [] + s.dataChan + s.receiverHand == s.consumed + s.hlsChan + [c] + after;
  }

  lemma ConsumeConserves(s: State)
    requires s.hlsChan != [] && Conserved(s) && Bounded(s)
    ensures Conserved(Step(s, Consume)) && Bounded(Step(s, Consume))
  {
    assert (s.consumed + [s.hlsChan[0]]) + s.hlsChan[1..] == s.consumed + s.hlsChan;
  }

  lemma CacheStep(s: State, a: Action)
    requires Enabled(s, a) && CacheOk(s)
    ensures CacheOk(Step(s, a))
  {
    if a.Receive? {
      Gop.OneMore(s.contents, a.content);
      FramesPushed(Gop.FramesIn(s.contents), Gop.Cached(a.content, |s.contents|), s.max);
    }
    hide Gop.After, Gop.Push, Gop.FramesIn, Gop.HeadsIn;
  }

  lemma FramesPushed(h: seq<Gop.Frame>, fs: seq<Gop.Frame>, max: int)
    requires |fs| <= 1
    ensures Gop.After(h + fs, max) == if fs == [] then Gop.After(h, max) else Gop.Push(Gop.After(h, max), fs[0], max)
  {
    if fs == [] {
      assert h + fs == h;
    } else {
      assert (h + fs)[..|h|] == h;
    }
  }

  /** The steps that send nothing to p. */
  lemma PlayerUntouched(s: State, a: Action, p: PlayerId)
    requires Enabled(s, a) && Conserved(s) && Bounded(s) && p in s.players && PlayerOk(s, p, s.players[p])
    requires !(a.Serve? && a.p == p) && !a.Receive?
    ensures PlayerOk(Step(s, a), p, s.players[p])
  {
    if a.ForwardToHls? {
      SendersChunkIsNext(s);
    }
    hide Conserved, Range;
  }

  lemma SendersChunkIsNext(s: State)
    requires Conserved(s) && s.sender.Holding?
    ensures s.sender.c == |s.consumed| + |s.hlsChan|
  {
    var n := |s.consumed| + |s.hlsChan|;
    assert (s.consumed + s.hlsChan + [s.sender.c] + s.dataChan + s.receiverHand)[n] == s.sender.c;
  }

  lemma PlayerWhileReceiving(s: State, content: Content, p: PlayerId)
    requires Enabled(s, Receive(content)) && p in s.players && PlayerOk(s, p, s.players[p])
    ensures PlayerOk(Step(s, Receive(content)), p, s.players[p])
  {
    hide Range, Gop.Push, SentFirst;
    var s', player := Step(s, Receive(content)), s.players[p];
    if player.Served? {
      assert s'.contents[..player.receivedThen] == s.contents[..player.receivedThen];
    }
  }

  /** The cache burst: it is the cache of this moment, and at most 6 chunks past c have been received. */
  lemma PlayerStarts(s: State, p: PlayerId)
    requires Enabled(s, Serve(p, true)) && Conserved(s) && Bounded(s) && CacheOk(s) && s.players[p].New?
    ensures PlayerOk(Step(s, Serve(p, true)), p, Send(s, New))
  {
    assert s.contents[..|s.contents|] == s.contents;
    assert |Range(0, |s.contents|)| == |s.contents|;
    hide Gop.After, Gop.FramesIn, Gop.HeadsIn;
  }

  lemma PlayerGoesOn(s: State, p: PlayerId)
    requires Enabled(s, Serve(p, true)) && PlayerOk(s, p, s.players[p]) && s.players[p].Served?
    ensures PlayerOk(Step(s, Serve(p, true)), p, Send(s, s.players[p]))
  {
    var s' := Step(s, Serve(p, true));
    assert Range(s.players[p].from + 1, NextFor(s', p)) == Range(s.players[p].from + 1, NextFor(s, p)) + [s.sender.c];
    hide Gop.After, Gop.FramesIn, Gop.HeadsIn;
  }

  lemma PlayersStep(s: State, a: Action, p: PlayerId)
    requires Enabled(s, a) && Inv(s) && p in Step(s, a).players
    ensures PlayerOk(Step(s, a), p, Step(s, a).players[p])
  {
    if a.Receive? {
      PlayerWhileReceiving(s, a.content, p);
    } else if a.Serve? && a.p == p {
      if s.players[p].New? {
        PlayerStarts(s, p);
      } else {
        PlayerGoesOn(s, p);
      }
    } else if p in s.players {
      PlayerUntouched(s, a, p);
    }
    hide PlayerOk, Conserved, Bounded, CacheOk;
  }

  lemma StepInv(s: State, a: Action)
    requires Enabled(s, a) && Inv(s)
    ensures Inv(Step(s, a))
  {
    ConservedStep(s, a);
    CacheStep(s, a);
    forall p | p in Step(s, a).players
      ensures PlayerOk(Step(s, a), p, Step(s, a).players[p])
    {
      PlayersStep(s, a, p);
    }
  }

  /** Every state of every run. */
  lemma {:induction false} Safety(s: State, run: seq<Action>)
    requires Inv(s) && ValidRun(s, run)
    ensures Inv(Exec(s, run))
    decreases run
  {
    hide Inv;
    if run != [] {
      StepInv(s, run[0]);
      Safety(Step(s, run[0]), run[1..]);
    }
  }

  /** The numbers of these frames. */
  function Numbers(frames: seq<Gop.Frame>): (ns: seq<nat>)
    ensures |ns| == |frames|
  {
    seq(|frames|, i requires 0 <= i < |frames| => frames[i].number)
  }

  /** What a new player would be sent now. */
  function FirstOf(s: State): seq<nat>
    requires AllHeads(s.heads)
  {
    HeadList(s.heads) + Numbers(s.cache.media)
  }

  /** Everything that a player was sent, in order. */
  function SentTo(player: Player): seq<nat>
    requires player.Served?
  {
    player.heads + Numbers(player.burst) + player.live
  }

  /** Everything that can still be read has been received. */
  lemma NumbersBelow(s: State)
    requires Inv(s)
    ensures |s.consumed| <= |s.contents| && s.consumed == Range(0, |s.consumed|)
    ensures s.hlsChan != [] ==> s.hlsChan[0] == |s.consumed| < |s.contents|
    ensures s.sender.Serving? ==> s.sender.c < |s.contents|
    ensures AllHeads(s.heads) ==> forall n :: n in FirstOf(s) ==> n < |s.contents|
    ensures forall p, n :: p in s.players && s.players[p].Served? && n in SentTo(s.players[p]) ==> n < |s.contents|
  {
    NextToConsume(s);
    if AllHeads(s.heads) {
      FirstBelow(s.contents, s.max);
    }
    forall p | p in s.players && s.players[p].Served?
      ensures forall n :: n in SentTo(s.players[p]) ==> n < |s.contents|
    {
      SentBelow(s, p);
    }
    hide Gop.FramesIn, Gop.HeadsIn, Gop.After, Conserved, PlayerOk, SentTo;
  }

  lemma NextToConsume(s: State)
    requires Conserved(s) && Bounded(s)
    ensures |s.consumed| <= |s.contents| && s.consumed == Range(0, |s.consumed|)
    ensures s.hlsChan != [] ==> s.hlsChan[0] == |s.consumed| < |s.contents|
    ensures |s.consumed| + |s.hlsChan| <= |s.contents|
  {
    var all := s.consumed + s.hlsChan + InSendersHand(s) + s.dataChan + s.receiverHand;
    assert |all| == |s.contents|;
    assert all[..|s.consumed|] == s.consumed;
    assert s.hlsChan != [] ==> all[|s.consumed|] == s.hlsChan[0];
  }

  lemma SentBelow(s: State, p: PlayerId)
    requires Inv(s) && p in s.players && s.players[p].Served?
    ensures forall n :: n in SentTo(s.players[p]) ==> n < |s.contents|
  {
    NextToConsume(s);
    assert PlayerOk(s, p, s.players[p]);
    FirstBelow(s.contents[..s.players[p].receivedThen], s.max);
    hide Gop.FramesIn, Gop.HeadsIn, Gop.After, Conserved, Increasing;
  }

  lemma FirstBelow(cs: seq<Content>, max: int)
    requires max >= 1
    ensures forall head :: head in Gop.HeadsIn(cs) ==> Gop.HeadsIn(cs)[head] < |cs|
    ensures forall n :: n in Numbers(Gop.After(Gop.FramesIn(cs), max).media) ==> n < |cs|
  {
    HeadsBelow(cs);
    FramesSplit(cs, |cs|);
    hide Gop.FramesIn, Gop.HeadsIn, Gop.After;
    Gop.SuffixAlways(Gop.FramesIn(cs), max);
  }

  lemma {:induction false} HeadsBelow(cs: seq<Content>)
    ensures forall head :: head in Gop.HeadsIn(cs) ==> Gop.HeadsIn(cs)[head] < |cs|
    decreases cs
  {
    if cs != [] {
      HeadsBelow(cs[..|cs| - 1]);
    }
  }

  // ---------------------------------------------------------------- what it comes to

  /** Any run: everything received is on its way or consumed, in order, and at most 12 chunks are on their way. */
  lemma NothingLost(max: int, run: seq<Action>)
    requires max >= 1 && ValidRun(Init(max), run)
    ensures var s := Exec(Init(max), run);
      && s.consumed + s.hlsChan + InSendersHand(s) + s.dataChan + s.receiverHand == Range(0, |s.contents|)
      && |s.consumed| <= |s.contents| <= |s.consumed| + 12
  {
    InitInv(max);
    Safety(Init(max), run);
    var s := Exec(Init(max), run);
    assert |Range(0, |s.contents|)| == |s.contents|;
  }

  /** Of these chunks the n-th is the last that is a header of this kind. */
  ghost predicate IsLastHead(contents: seq<Content>, head: HeadKind, n: nat) {
    n < |contents| && contents[n] == Head(head) && forall i :: n < i < |contents| ==> contents[i] != Head(head)
  }

  /** The headers are the last of their kinds, and there is none of a kind that is missing. */
  lemma {:induction false} HeadsAreLast(cs: seq<Content>, head: HeadKind)
    ensures head in Gop.HeadsIn(cs) ==> IsLastHead(cs, head, Gop.HeadsIn(cs)[head])
    ensures head !in Gop.HeadsIn(cs) ==> forall i :: 0 <= i < |cs| ==> cs[i] != Head(head)
    decreases |cs|
  {
    if cs != [] {
      var front := cs[..|cs| - 1];
      HeadsAreLast(front, head);
      assert forall i :: 0 <= i < |front| ==> front[i] == cs[i];
    }
  }

  /** The frames are the chunks that are media, under their numbers. */
  lemma {:induction false} FramesAre(cs: seq<Content>, f: Gop.Frame)
    ensures f in Gop.FramesIn(cs) <==> f.number < |cs| && cs[f.number] == MediaFrame(f.kind)
    decreases |cs|
  {
    if cs != [] {
      var n := |cs| - 1;
      FramesAre(cs[..n], f);
      assert f.number < n ==> cs[..n][f.number] == cs[f.number];
    }
  }

  /**
    What a player was sent: the last metadata, the last video header and the last audio header of those received by
    then, in this order; then frames from the cache, each a frame received by then; then chunks as they came.
   */
  ghost predicate Started(player: Player, received: seq<Content>)
    requires player.Served?
  {
    var sent := SentTo(player);
    && |sent| >= 3 && sent[3..] == Numbers(player.burst) + player.live
    && IsLastHead(received, MetaHead, sent[0])
    && IsLastHead(received, VideoHead, sent[1])
    && IsLastHead(received, AudioHead, sent[2])
    && forall f :: f in player.burst ==> f.number < |received| && received[f.number] == MediaFrame(f.kind)
  }

  lemma StartedAs(player: Player, received: seq<Content>, max: int)
    requires player.Served? && SentFirst(player, received, max) && max >= 1
    ensures Started(player, received)
  {
    HeadsAreLast(received, MetaHead);
    HeadsAreLast(received, VideoHead);
    HeadsAreLast(received, AudioHead);
    Gop.SuffixAlways(Gop.FramesIn(received), max);
    forall f | f in player.burst
      ensures f.number < |received| && received[f.number] == MediaFrame(f.kind)
    {
      FramesAre(received, f);
    }
    hide Gop.After, Gop.FramesIn, Gop.HeadsIn, IsLastHead;
    var sent := SentTo(player);
    assert sent == player.heads + (Numbers(player.burst) + player.live);
  }

  /** Of all media from the head of the burst on, up to the chunk that comes next, the player was sent all. */
  ghost predicate NothingMissed(s: State, player: Player, next: nat)
    requires player.Served?
  {
    forall n :: 0 <= n < |s.contents| && s.contents[n].MediaFrame? && IsSince(player, n) && n < next ==>
      Gop.Frame(s.contents[n].kind, n) in player.burst || n in player.live
  }

  /** The burst has begun with this chunk or one before it. */
  predicate IsSince(player: Player, n: nat)
    requires player.Served?
  {
    player.burst != [] && player.burst[0].number <= n
  }

  /** All frames of the burst but the last 6 are not sent again. */
  ghost predicate FewRepeated(player: Player)
    requires player.Served?
  {
    forall i :: 0 <= i < |player.burst| - 6 ==> player.burst[i].number <= player.from
  }

  /**
    Any run, any player that is still there and has been served: it got the last metadata, the last video header and
    the last audio header, then the cache, while chunk `from` was processed, and every chunk since, each once and in
    order; no media chunk from the head of its burst on is missing; and of its burst at most the last 6 frames are sent
    to it again.
   */
  lemma PlayerSeesEverything(max: int, run: seq<Action>, p: PlayerId)
    requires max >= 1 && ValidRun(Init(max), run)
    requires p in Exec(Init(max), run).players && Exec(Init(max), run).players[p].Served?
    ensures var s := Exec(Init(max), run);
      var player := s.players[p];
      && player.from < NextFor(s, p)
      && player.live == Range(player.from + 1, NextFor(s, p))
      && player.from < player.receivedThen <= |s.contents|
      && Started(player, s.contents[..player.receivedThen])
      && player.burst == Gop.After(Gop.FramesIn(s.contents[..player.receivedThen]), max).media
      && NothingMissed(s, player, NextFor(s, p))
      && FewRepeated(player)
  {
    hide *;
    InitInv(max);
    Safety(Init(max), run);
    MaxStays(Init(max), run);
    var s := Exec(Init(max), run);
    var player := s.players[p];
    SameMax(max);
    InvOf(s, p);
    BurstAndLive(s, p);
    PlayerFacts(s, p);
    StartedAs(player, s.contents[..player.receivedThen], max);
    BurstIs(player, s.contents[..player.receivedThen], max);
  }

  lemma SameMax(max: int)
    ensures Init(max).max == max
  {
  }

  lemma InvOf(s: State, p: PlayerId)
    requires Inv(s) && p in s.players
    ensures PlayerOk(s, p, s.players[p])
  {
    hide PlayerOk, Conserved, Bounded, CacheOk;
  }

  lemma BurstIs(player: Player, received: seq<Content>, max: int)
    requires player.Served? && SentFirst(player, received, max)
    ensures player.burst == Gop.After(Gop.FramesIn(received), max).media
  {
  }

  lemma PlayerFacts(s: State, p: PlayerId)
    requires p in s.players && s.players[p].Served? && PlayerOk(s, p, s.players[p])
    ensures var player := s.players[p];
      && player.from < NextFor(s, p)
      && player.live == Range(player.from + 1, NextFor(s, p))
      && player.from < player.receivedThen <= |s.contents|
      && SentFirst(player, s.contents[..player.receivedThen], s.max)
  {
    hide SentFirst, Range;
  }

  lemma BurstAndLive(s: State, p: PlayerId)
    requires s.max >= 1 && p in s.players && s.players[p].Served? && PlayerOk(s, p, s.players[p])
    ensures NothingMissed(s, s.players[p], NextFor(s, p)) && FewRepeated(s.players[p])
  {
    hide Gop.After, Gop.FramesIn, Gop.HeadsIn, NextFor, NothingMissed, FewRepeated, HeadList, Range;
    var player := s.players[p];
    var h, before := Gop.FramesIn(s.contents), Gop.FramesIn(s.contents[..player.receivedThen]);
    FramesSplit(s.contents, player.receivedThen);
    var cut := BurstPlace(player, before, s.max);
    assert player.burst == h[cut..|before|];
    BurstThenLive(s, player, cut, |before|, NextFor(s, p));
    BurstOverlap(h, player, cut, |before|);
  }

  lemma BurstPlace(player: Player, past: seq<Gop.Frame>, max: int) returns (cut: nat)
    requires max >= 1 && player.Served? && player.burst == Gop.After(past, max).media
    ensures cut + |player.burst| == |past| && player.burst == past[cut..]
  {
    hide Gop.After;
    Gop.SuffixAlways(past, max);
    cut := |past| - |player.burst|;
  }

  ghost predicate Increasing(h: seq<Gop.Frame>) {
    forall i, j :: 0 <= i < j < |h| ==> h[i].number < h[j].number
  }

  /** Frames numbered below `total`, of which those below n are `before`. */
  ghost predicate Splits(h: seq<Gop.Frame>, total: nat, before: seq<Gop.Frame>, n: nat) {
    && Increasing(h) && |before| <= |h| && before == h[..|before|]
    && (forall i :: 0 <= i < |h| ==> h[i].number < total)
    && (forall i :: 0 <= i < |h| ==> (h[i].number < n <==> i < |before|))
  }

  /** The frames among the first n chunks are the first of all frames, and have the numbers below n. */
  lemma {:induction false} FramesSplit(cs: seq<Content>, n: nat)
    requires n <= |cs|
    ensures Splits(Gop.FramesIn(cs), |cs|, Gop.FramesIn(cs[..n]), n)
    decreases |cs|
  {
    if cs == [] {
      assert cs[..n] == cs;
    } else {
      var front, c := cs[..|cs| - 1], cs[|cs| - 1];
      assert cs == front + [c];
      Gop.OneMore(front, c);
      hide Gop.FramesIn, Splits;
      if n == |cs| {
        assert cs[..n] == cs;
        FramesSplit(front, n - 1);
        SplitsAll(Gop.FramesIn(front), Gop.FramesIn(front[..n - 1]), n - 1, c);
      } else {
        assert front[..n] == cs[..n];
        FramesSplit(front, n);
        SplitsMore(Gop.FramesIn(front), |front|, Gop.FramesIn(cs[..n]), n, c);
      }
    }
  }

  lemma SplitsMore(h: seq<Gop.Frame>, total: nat, before: seq<Gop.Frame>, n: nat, c: Content)
    requires n <= total && Splits(h, total, before, n)
    ensures Splits(h + Gop.Cached(c, total), total + 1, before, n)
  {
  }

  lemma SplitsAll(h: seq<Gop.Frame>, before: seq<Gop.Frame>, n: nat, c: Content)
    requires Splits(h, n, before, n)
    ensures var h' := h + Gop.Cached(c, n);
      Splits(h', n + 1, h', n + 1)
  {
    var h' := h + Gop.Cached(c, n);
    assert h'[..|h'|] == h';
  }

  lemma BurstThenLive(s: State, player: Player, cut: nat, seen: nat, next: nat)
    requires player.Served? && cut <= seen <= |Gop.FramesIn(s.contents)|
    requires player.burst == Gop.FramesIn(s.contents)[cut..seen] && Increasing(Gop.FramesIn(s.contents))
    requires player.from < next && player.live == Range(player.from + 1, next)
    requires forall i :: seen <= i < |Gop.FramesIn(s.contents)| ==> Gop.FramesIn(s.contents)[i].number > player.from
    ensures NothingMissed(s, player, next)
  {
    hide Gop.FramesIn;
    var h := Gop.FramesIn(s.contents);
    forall n | 0 <= n < |s.contents| && s.contents[n].MediaFrame? && IsSince(player, n) && n < next
      ensures Gop.Frame(s.contents[n].kind, n) in player.burst || n in player.live
    {
      var f := Gop.Frame(s.contents[n].kind, n);
      FramesAre(s.contents, f);
      var i :| 0 <= i < |h| && h[i] == f;
      if cut <= i < seen {
        assert player.burst[i - cut] == f;
      } else if seen <= i {
        assert player.live[f.number - player.from - 1] == f.number;
      }
    }
  }

  lemma BurstOverlap(h: seq<Gop.Frame>, player: Player, cut: nat, seen: nat)
    requires player.Served? && cut <= seen <= |h| && player.burst == h[cut..seen] && Increasing(h)
    requires forall i :: 0 <= i < seen ==> h[i].number <= player.from + 6
    ensures FewRepeated(player)
  {
    forall i | 0 <= i < |player.burst| - 6
      ensures player.burst[i].number <= player.from
    {
      NumbersSpread(h, cut + i, seen - 1);
    }
  }

  lemma {:induction false} NumbersSpread(h: seq<Gop.Frame>, i: nat, j: nat)
    requires Increasing(h)
    requires i <= j < |h|
    ensures h[i].number + (j - i) <= h[j].number
    decreases j - i
  {
    if i < j {
      NumbersSpread(h, i, j - 1);
      assert h[j - 1].number < h[j].number;
    }
  }

  lemma {:induction false} MaxStays(s: State, run: seq<Action>)
    requires ValidRun(s, run)
    ensures Exec(s, run).max == s.max
    decreases run
  {
    if run != [] {
      MaxStays(Step(s, run[0]), run[1..]);
    }
  }

  /**
    No run deadlocks: while something is on its way, or the sender has players to serve, some step moves it, without
    a new chunk or a new player; unless the sender has come to a new player while a header is missing.
   */
  lemma NoDeadlock(max: int, run: seq<Action>)
    requires max >= 1 && ValidRun(Init(max), run)
    ensures var s := Exec(Init(max), run);
      |s.consumed| < |s.contents| || s.sender.Serving? ==>
        (exists a: Action :: Enabled(s, a) && !a.Receive? && !a.Join?) || (exists p: PlayerId :: Crashing(s, p))
  {
    InitInv(max);
    Safety(Init(max), run);
    var s := Exec(Init(max), run);
    assert |Range(0, |s.contents|)| == |s.contents|;
    if |s.consumed| < |s.contents| || s.sender.Serving? {
      SomeStep(s);
    }
    hide *;
  }

  lemma SomeStep(s: State)
    requires Bounded(s)
    requires s.hlsChan != [] || s.dataChan != [] || s.receiverHand != [] || !s.sender.Waiting?
    ensures (exists a: Action :: Enabled(s, a) && !a.Receive? && !a.Join?) || (exists p: PlayerId :: Crashing(s, p))
  {
    if s.hlsChan != [] {
      assert Enabled(s, Consume);
    } else if s.sender.Holding? {
      assert Enabled(s, ForwardToHls);
    } else if s.sender.Serving? {
      if p: PlayerId :| p in s.players && p !in s.sender.visited {
        assert Enabled(s, Serve(p, true)) || Crashing(s, p);
      } else {
        assert Enabled(s, FinishRound);
      }
    } else if s.dataChan != [] {
      assert Enabled(s, Take);
    } else {
      assert Enabled(s, Enqueue);
    }
  }

  /** Once the three headers have come, no player ever crashes the server. */
  lemma NoCrashLater(s: State, run: seq<Action>, p: PlayerId)
    requires ValidRun(s, run) && AllHeads(s.heads)
    ensures !Crashing(Exec(s, run), p)
  {
    HeadsStay(s, run);
  }

  lemma {:induction false} HeadsStay(s: State, run: seq<Action>)
    requires ValidRun(s, run)
    ensures s.heads.Keys <= Exec(s, run).heads.Keys
    decreases run
  {
    if run != [] {
      HeadsStay(Step(s, run[0]), run[1..]);
    }
  }

  /** And until then any player can: it only has to join while the sender holds a chunk. */
  lemma CrashesBefore(s: State, p: PlayerId)
    requires Inv(s) && !AllHeads(s.heads) && p !in s.players && s.sender.Holding? && |s.hlsChan| < CAPACITY
    ensures ValidRun(s, [Join(p), ForwardToHls]) && Crashing(Exec(s, [Join(p), ForwardToHls]), p)
  {
    var joined := Step(s, Join(p));
    assert [Join(p), ForwardToHls][1..] == [ForwardToHls];
    assert [ForwardToHls][1..] == [];
    assert Enabled(joined, ForwardToHls);
  }
}
