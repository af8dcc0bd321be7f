/** Runs of the publisher that are not safe go wrong under some schedule of the server. */
module SharedSchedules {
  import opened Buffers
  import opened Bytes
  import opened Connection
  import opened DataTypes
  import opened Shared
  import opened SharedRuns
  import ChunkRuns
  import Gop
  import Looks
  import Pipeline
  import Receiver

  // ---------------------------------------------------------------- reachable states

  ghost predicate Reaches(w: World, w': World)
    requires WorldOk(w)
  {
    exists run :: ValidRun(w, run) && Exec(w, run) == w'
  }

  lemma ReachesItself(w: World)
    requires WorldOk(w)
    ensures Reaches(w, w)
  {
    assert ValidRun(w, []) && Exec(w, []) == w;
  }

  lemma ReachesNext(w: World, a: Action, w': World)
    requires WorldOk(w) && Enabled(w, a) && WorldOk(Step(w, a)) && Reaches(Step(w, a), w')
    ensures Reaches(w, w')
  {
    hide WorldOk, Step, Enabled, ValidRun, Exec;
    var run :| ValidRun(Step(w, a), run) && Exec(Step(w, a), run) == w';
    Before(w, a, run);
  }

  lemma Before(w: World, a: Action, run: seq<Action>)
    requires WorldOk(w) && Enabled(w, a) && WorldOk(Step(w, a)) && ValidRun(Step(w, a), run)
    ensures ValidRun(w, [a] + run) && Exec(w, [a] + run) == Exec(Step(w, a), run)
  {
    hide WorldOk, Step, Enabled;
    assert ([a] + run)[1..] == run;
  }

  lemma {:induction false} RunsOn(w: World, run: seq<Action>, w': World)
    requires WorldOk(w) && ValidRun(w, run) && Reaches(Exec(w, run), w')
    ensures Reaches(w, w')
    decreases run
  {
    hide WorldOk, Step, Enabled, Reaches;
    if run != [] {
      StepOk(w, run[0]);
      RunsOn(Step(w, run[0]), run[1..], w');
      ReachesNext(w, run[0], w');
    }
  }

  lemma ReachesOn(w: World, w1: World, w': World)
    requires WorldOk(w) && Reaches(w, w1) && WorldOk(w1) && Reaches(w1, w')
    ensures Reaches(w, w')
  {
    hide WorldOk, ValidRun, Exec;
    var run :| ValidRun(w, run) && Exec(w, run) == w1;
    RunsOn(w, run, w');
  }

  // ---------------------------------------------------------------- further down the line

  lemma {:induction false} AheadMore(l: Line, j: nat, k: nat)
    requires LineOk(l)
    ensures Ahead(Ahead(l, j), k) == Ahead(l, j + k)
    decreases j
  {
    hide LineOk, Gone;
    if j > 0 && l.todo != [] {
      GoneOk(l);
      AheadMore(Gone(l), j - 1, k);
    }
  }

  /** Messages are only added. */
  lemma {:induction false} AheadKeeps(l: Line, k: nat)
    requires LineOk(l)
    ensures l.feed.msgs <= Ahead(l, k).feed.msgs
    ensures k > 0 && l.todo != [] ==> |Ahead(l, k).feed.msgs| > |l.feed.msgs| || !Ahead(l, k).feed.first
    decreases k
  {
    hide LineOk, Gone, Delivered;
    if k > 0 && l.todo != [] {
      GoneOk(l);
      AheadKeeps(Gone(l), k - 1);
    }
  }

  /** The line as it is when message n - 1 has just been delivered. */
  lemma {:induction false} WhenDelivered(l: Line, k: nat, n: nat) returns (j: nat)
    requires LineOk(l) && |l.feed.msgs| < n <= |Ahead(l, k).feed.msgs|
    ensures j <= k && |Ahead(l, j).feed.msgs| == n && Ahead(l, j).feed.first
    decreases k
  {
    hide LineOk, Gone, Delivered;
    GoneOk(l);
    if |Gone(l).feed.msgs| == n {
      assert Ahead(Gone(l), 0) == Gone(l);
      j := 1;
    } else {
      j := WhenDelivered(Gone(l), k - 1, n);
      j := j + 1;
    }
  }

  /** The next k chunks can come in, as far as the producer goes. */
  ghost predicate Roomy(l: Line, k: nat)
    requires LineOk(l)
    decreases k
  {
    k == 0 || l.todo == [] || (Room(l.feed) && (GoneOk(l); Roomy(Gone(l), k - 1)))
  }

  /** A line that is not safe is not at some moment that can be reached. */
  lemma {:induction false} WhenUnsafe(l: Line, max: int) returns (k: nat)
    requires LineOk(l) && !SafeRun(l, max)
    ensures !SafeNow(Ahead(l, k).feed, max) && Roomy(l, k)
    decreases |l.todo|
  {
    hide Gone, SafeNow, Room;
    k := 0;
    if SafeNow(l.feed, max) {
      GoneOk(l);
      k := WhenUnsafe(Gone(l), max);
      k := k + 1;
    }
  }

  lemma {:induction false} ContentsPrefix(ms: seq<Message>, n: nat)
    requires n <= |ms|
    ensures Receiver.ContentsOf(ms[..n]) == Receiver.ContentsOf(ms)[..n]
    decreases |ms|
  {
    hide Receiver.ContentOf;
    if n == |ms| {
      assert ms[..n] == ms;
    } else {
      var front := ms[..|ms| - 1];
      assert front[..n] == ms[..n] && ms == front + [ms[|ms| - 1]];
      Receiver.OneMoreContent(front, ms[|ms| - 1]);
      ContentsPrefix(front, n);
    }
  }

  // ---------------------------------------------------------------- one step at a time

  /** How far what is on its way has still to go. */
  function Distance(w: World): nat {
    Way(w.pipe) + |w.making|
  }

  function Way(s: Pipeline.State): nat {
    6 * |s.receiverHand| + 5 * |s.dataChan| + 2 * |s.hlsChan|
    + match s.sender case Waiting => 0 case Holding(_) => 4 case Serving(_, _, _) => 1
  }

  lemma WayStep(s: Pipeline.State, a: Pipeline.Action)
    requires Pipeline.Enabled(s, a) && !a.Receive? && !a.Join? && !a.Serve?
    ensures Way(Pipeline.Step(s, a)) + (if a.Consume? then 1 else 0) < Way(s)
  {
  }

  /** The sender has something to take or to forward. */
  predicate Waits(s: Pipeline.State) {
    s.receiverHand != [] || s.dataChan != [] || s.sender.Holding?
  }

  /** Nobody plays, and what has been received has not come to nothing: it waits, or is being served. */
  ghost predicate Alone(w: World) {
    && w.pipe.players == map[]
    && (w.line.feed.msgs != [] ==> Waits(w.pipe) || w.pipe.sender.Serving?)
  }

  /** What a step of the line, the pipeline or the producer does where nobody plays. */
  lemma AloneStep(w: World, a: Action)
    requires WorldOk(w) && Alone(w) && Enabled(w, a) && (a.Move? ==> !a.step.Join? && !a.step.Serve?)
    requires a.Move? && a.step.FinishRound? ==> Waits(w.pipe)
    ensures WorldOk(Step(w, a)) && Alone(Step(w, a)) && w.left == []
    ensures Step(w, a).line == if a.Wire? then Gone(w.line) else w.line
    ensures Step(w, a).pipe.max == w.pipe.max
    ensures !a.Wire? ==> Distance(Step(w, a)) < Distance(w)
    ensures |Step(w, a).hls| == |w.hls| + if a.Make? then 1 else 0
    ensures |Step(w, a).hls| + |Step(w, a).making| == |Step(w, a).pipe.consumed|
  {
    hide Handles, LineOk, Pipeline.Inv, Receiver.ContentsOf, Alone, Step, Distance, Gone;
    StepOk(w, a);
    LineMoves(w, a);
    assert MakingOk(Step(w, a));
    if a.Wire? {
      AloneWire(w);
    } else {
      GoesNearer(w, a);
      AloneOnward(w, a);
    }
    NobodyWaits(w);
  }

  lemma NobodyWaits(w: World)
    requires WorldOk(w) && Alone(w)
    ensures w.left == [] && w.pipe.players == map[]
  {
    hide Handles, LineOk, Pipeline.Inv, Receiver.ContentsOf;
  }

  lemma AloneWire(w: World)
    requires WorldOk(w) && Alone(w) && Enabled(w, Wire)
    ensures Alone(Step(w, Wire)) && Step(w, Wire).hls == w.hls
  {
    hide Handles, Pipeline.Inv, Receiver.ContentsOf, Receiver.ContentOf, Gone, Delivered, Gop.Push, LineOk;
    GoneOk(w.line);
  }

  lemma AloneOnward(w: World, a: Action)
    requires WorldOk(w) && Alone(w) && Enabled(w, a) && !a.Wire? && (a.Move? ==> !a.step.Join? && !a.step.Serve?)
    requires a.Move? && a.step.FinishRound? ==> Waits(w.pipe)
    ensures Alone(Step(w, a)) && |Step(w, a).hls| == |w.hls| + if a.Make? then 1 else 0
  {
    hide Handles, LineOk, Pipeline.Inv, Receiver.ContentsOf;
  }

  lemma GoesNearer(w: World, a: Action)
    requires WorldOk(w) && Alone(w) && Enabled(w, a)
    requires !a.Wire? && (a.Move? ==> !a.step.Join? && !a.step.Serve?)
    ensures Distance(Step(w, a)) < Distance(w)
  {
    hide Handles, LineOk, Pipeline.Inv, Receiver.ContentsOf, Way, ShownOk, HlsNow;
    if a.Move? {
      WayStep(w.pipe, a.step);
    }
  }

  // ---------------------------------------------------------------- the producer misreads

  /** The step that makes room for the next chunk, leaving as much as can be on its way. */
  function MakesRoom(w: World): Action {
    if |w.pipe.dataChan| < Pipeline.CAPACITY then Move(Pipeline.Enqueue)
    else
      match w.pipe.sender
      case Waiting => Move(Pipeline.Take)
      case Serving(_, _, _) => Move(Pipeline.FinishRound)
      case Holding(_) =>
        if |w.pipe.hlsChan| < Pipeline.CAPACITY then Move(Pipeline.ForwardToHls)
        else if w.making == [] then Move(Pipeline.Consume)
        else Make
  }

  /** With room for one more on its way, the producer has read as little as it can have. */
  ghost predicate Lazy(w: World, room: nat) {
    w.hls == [] || |w.line.feed.msgs| + room >= |w.hls| + 13
  }

  lemma RoomIsMade(w: World)
    requires WorldOk(w) && Alone(w) && Lazy(w, 1) && w.pipe.receiverHand != [] && Room(w.line.feed)
    ensures Enabled(w, MakesRoom(w)) && WorldOk(Step(w, MakesRoom(w))) && Alone(Step(w, MakesRoom(w)))
    ensures !MakesRoom(w).Wire? && Lazy(Step(w, MakesRoom(w)), 1)
    ensures Step(w, MakesRoom(w)).line == w.line && Step(w, MakesRoom(w)).pipe.max == w.pipe.max
    ensures Distance(Step(w, MakesRoom(w))) < Distance(w)
  {
    hide LineOk, Pipeline.Inv, Receiver.ContentsOf, Step, Distance, Handles;
    Within(w);
    Counted(w.pipe);
    NobodyWaits(w);
    if MakesRoom(w).Make? {
      HandlesLess(w.line.feed.msgs, |w.hls| + 1, |w.line.feed.msgs| - 12);
    }
    AloneStep(w, MakesRoom(w));
  }

  function RoomLeft(w: World, k: nat): nat {
    if (k > 0 && w.line.todo != []) || !w.line.feed.first then 1 else 0
  }

  /** All chunks up to there come in, and the producer reads as little as it can. */
  lemma {:induction false} LazyTo(w: World, k: nat) returns (w': World)
    requires WorldOk(w) && Alone(w) && Lazy(w, RoomLeft(w, k)) && LineOk(w.line) && Roomy(w.line, k)
    ensures WorldOk(w') && Reaches(w, w') && w'.line == Ahead(w.line, k) && w'.pipe.max == w.pipe.max
    ensures Alone(w') && Lazy(w', if w'.line.feed.first then 0 else 1)
    decreases k, Distance(w)
  {
    hide WorldOk, LineOk, Alone, Step, Distance, Enabled, Reaches, Gone, Delivered, MakesRoom, Room;
    if k == 0 || w.line.todo == [] {
      ReachesItself(w);
      w' := w;
    } else if w.pipe.receiverHand != [] {
      RoomIsMade(w);
      w' := LazyTo(Step(w, MakesRoom(w)), k);
      ReachesNext(w, MakesRoom(w), w');
    } else {
      LazyWire(w);
      w' := LazyTo(Step(w, Wire), k - 1);
      ReachesNext(w, Wire, w');
    }
  }

  lemma LazyWire(w: World)
    requires WorldOk(w) && Alone(w) && Lazy(w, 1) && w.line.todo != [] && w.pipe.receiverHand == []
    ensures Enabled(w, Wire) && WorldOk(Step(w, Wire)) && Alone(Step(w, Wire)) && LineOk(Step(w, Wire).line)
    ensures Step(w, Wire).line == Gone(w.line) && Step(w, Wire).pipe.max == w.pipe.max
    ensures Lazy(Step(w, Wire), if Step(w, Wire).line.feed.first then 0 else 1)
  {
    hide Handles, Pipeline.Inv, Receiver.ContentsOf, Step, Alone, LineOk, Gone, Delivered;
    AloneStep(w, Wire);
    AloneWire(w);
    GoneOk(w.line);
  }

  /** The step that brings the oldest message closer to the producer. */
  function Onward(w: World): Action {
    if w.making != [] then Make
    else if w.pipe.hlsChan != [] then Move(Pipeline.Consume)
    else if w.pipe.sender.Holding? then Move(Pipeline.ForwardToHls)
    else if w.pipe.sender.Serving? then Move(Pipeline.FinishRound)
    else if w.pipe.dataChan != [] then Move(Pipeline.Take)
    else Move(Pipeline.Enqueue)
  }

  lemma OnwardEnabled(w: World)
    requires WorldOk(w) && Alone(w) && |w.hls| < |w.line.feed.msgs| && Handles(w.line.feed.msgs, |w.hls| + 1)
    ensures Enabled(w, Onward(w)) && WorldOk(Step(w, Onward(w))) && Alone(Step(w, Onward(w)))
    ensures !Onward(w).Wire? && Step(w, Onward(w)).line == w.line
    ensures Distance(Step(w, Onward(w))) < Distance(w)
    ensures |Step(w, Onward(w)).hls| == |w.hls| + if Onward(w).Make? then 1 else 0
    ensures Onward(w).Make? ==> w.making[0] == |w.hls|
  {
    hide LineOk, Pipeline.Inv, Receiver.ContentsOf, Step, Distance, Handles;
    Within(w);
    Counted(w.pipe);
    NobodyWaits(w);
    AloneStep(w, Onward(w));
  }

  /** A message that the producer has not read and that has been written over: it will read it so. */
  lemma {:induction false} ProducerMisreads(w: World, i: nat) returns (w': World)
    requires WorldOk(w) && Alone(w) && FeedOk(w.line.feed) && Handles(w.line.feed.msgs, i + 1)
    requires |w.hls| <= i < |w.line.feed.msgs| && Misread(w.line.feed, i)
    ensures WorldOk(w') && Reaches(w, w') && !Right(w')
    decreases Distance(w)
  {
    hide WorldOk, Alone, Step, Distance, Enabled, Reaches, Right, Misread, Onward, FeedOk, Handles;
    HandlesLess(w.line.feed.msgs, |w.hls| + 1, i + 1);
    OnwardEnabled(w);
    w' := Step(w, Onward(w));
    if Onward(w).Make? && |w.hls| == i {
      MadeWrong(w);
      ReachesItself(w');
    } else {
      w' := ProducerMisreads(w', i);
    }
    ReachesNext(w, Onward(w), w');
  }

  /** What the producer has made is what it makes of the messages as they are now. */
  ghost predicate MadeAsNow(w: World) {
    && |w.hls| <= |w.line.feed.refs| == |w.line.feed.msgs|
    && forall k :: 0 <= k < |w.hls| ==> w.hls[k] == HlsNow(w.line.feed, k)
  }

  /** The producer can read what is on its way before anything else comes in. */
  lemma {:induction false} CatchesUp(w: World, n: nat) returns (w': World)
    requires WorldOk(w) && Alone(w) && |w.hls| <= n <= |w.line.feed.msgs| && Handles(w.line.feed.msgs, n)
    requires MadeAsNow(w)
    ensures WorldOk(w') && Reaches(w, w') && w'.line == w.line && |w'.hls| == n && MadeAsNow(w')
    decreases Distance(w)
  {
    hide WorldOk, Alone, Step, Distance, Enabled, Reaches, MadeAsNow, Onward, Handles;
    if |w.hls| == n {
      ReachesItself(w);
      w' := w;
    } else {
      HandlesLess(w.line.feed.msgs, |w.hls| + 1, n);
      OnwardEnabled(w);
      OneMoreMade(w);
      w' := CatchesUp(Step(w, Onward(w)), n);
      ReachesNext(w, Onward(w), w');
    }
  }

  lemma OneMoreMade(w: World)
    requires WorldOk(w) && Enabled(w, Onward(w)) && MadeAsNow(w) && (Onward(w).Make? ==> w.making[0] == |w.hls|)
    ensures MadeAsNow(Step(w, Onward(w)))
  {
    hide WorldOk, Step, Receiver.ForHls, Receiver.DataTypeOf, DataNow, Handles;
    if Onward(w).Make? {
      MadeNow(w);
    } else {
      assert Onward(w) == Move(Onward(w).step);
      NothingMade(w, Onward(w).step);
    }
  }

  lemma MadeNow(w: World)
    requires WorldOk(w) && Enabled(w, Make) && w.making[0] == |w.hls|
    ensures Step(w, Make).line == w.line && |w.hls| < |w.line.feed.refs| == |w.line.feed.msgs|
    ensures Step(w, Make).hls == w.hls + [HlsNow(w.line.feed, |w.hls|)]
  {
    Within(w);
    hide LineOk, Pipeline.Inv, Receiver.ContentsOf, HlsNow, Handles;
  }

  lemma NothingMade(w: World, step: Pipeline.Action)
    requires WorldOk(w) && Enabled(w, Move(step))
    ensures Step(w, Move(step)).line == w.line && Step(w, Move(step)).hls == w.hls
  {
    hide LineOk, Pipeline.Inv, Receiver.ContentsOf, Handles;
  }

  lemma MadeWrong(w: World)
    requires FeedOk(w.line.feed) && |w.hls| < |w.line.feed.msgs| && Misread(w.line.feed, |w.hls|)
    requires WorldOk(w) && Enabled(w, Make) && w.making[0] == |w.hls|
    ensures WorldOk(Step(w, Make)) && !Right(Step(w, Make))
  {
    hide Handles, LineOk, Pipeline.Inv, Receiver.ContentsOf, Looks.Alike, HlsThen;
    StepOk(w, Make);
    var k := |w.hls|;
    assert !Looks.Alike(HlsThen(w.line.feed.msgs[k]), Step(w, Make).hls[k]);
  }

  // ---------------------------------------------------------------- the sender is kept busy

  /** The step that brings the newest message closer to being served; the producer reads as little as it can. */
  function PassesOn(w: World): Action {
    match w.pipe.sender
    case Holding(_) =>
      if |w.pipe.hlsChan| < Pipeline.CAPACITY then Move(Pipeline.ForwardToHls)
      else if w.making == [] then Move(Pipeline.Consume)
      else Make
    case Serving(_, _, _) => Move(Pipeline.FinishRound)
    case Waiting => if w.pipe.dataChan != [] then Move(Pipeline.Take) else Move(Pipeline.Enqueue)
  }

  lemma PassesOnEnabled(w: World)
    requires WorldOk(w) && Alone(w) && Waits(w.pipe) && Handles(w.line.feed.msgs, |w.line.feed.msgs| - 6)
    ensures Enabled(w, PassesOn(w)) && WorldOk(Step(w, PassesOn(w))) && Alone(Step(w, PassesOn(w)))
    ensures !PassesOn(w).Wire? && Step(w, PassesOn(w)).line == w.line
    ensures Step(w, PassesOn(w)).pipe.max == w.pipe.max && Distance(Step(w, PassesOn(w))) < Distance(w)
  {
    hide LineOk, Pipeline.Inv, Receiver.ContentsOf, Step, Distance, Handles;
    Within(w);
    Counted(w.pipe);
    NobodyWaits(w);
    if PassesOn(w).Make? {
      HandlesLess(w.line.feed.msgs, |w.hls| + 1, |w.line.feed.msgs| - 6);
    }
    AloneStep(w, PassesOn(w));
  }

  lemma HandlesPart(ms: seq<Message>, all: seq<Message>)
    requires ms <= all && Handles(all, |all| - 6)
    ensures Handles(ms, |ms| - 6)
  {
    hide Handles;
    HandlesLess(all, |ms| - 6, |all| - 6);
    HandlesFirst(ms, all, |ms| - 6);
  }

  /** All chunks up to there come in, and the newest message is being served. */
  lemma {:induction false} PassTo(w: World, k: nat) returns (w': World)
    requires WorldOk(w) && Alone(w) && LineOk(w.line)
    requires Handles(Ahead(w.line, k).feed.msgs, |Ahead(w.line, k).feed.msgs| - 6)
    ensures WorldOk(w') && Reaches(w, w') && w'.line == Ahead(w.line, k) && w'.pipe.max == w.pipe.max
    ensures Alone(w') && !Waits(w'.pipe)
    decreases k, Distance(w)
  {
    hide WorldOk, LineOk, Alone, Step, Distance, Enabled, Reaches, Gone, Delivered, PassesOn, Handles;
    if Waits(w.pipe) {
      AheadKeeps(w.line, k);
      HandlesPart(w.line.feed.msgs, Ahead(w.line, k).feed.msgs);
      PassesOnEnabled(w);
      w' := PassTo(Step(w, PassesOn(w)), k);
      ReachesNext(w, PassesOn(w), w');
    } else if k == 0 || w.line.todo == [] {
      ReachesItself(w);
      w' := w;
    } else {
      NextComesIn(w);
      w' := PassTo(Step(w, Wire), k - 1);
      ReachesNext(w, Wire, w');
    }
  }

  lemma NextComesIn(w: World)
    requires WorldOk(w) && Alone(w) && !Waits(w.pipe) && w.line.todo != []
    ensures Enabled(w, Wire) && WorldOk(Step(w, Wire)) && Alone(Step(w, Wire)) && LineOk(Step(w, Wire).line)
    ensures Step(w, Wire).line == Gone(w.line) && Step(w, Wire).pipe.max == w.pipe.max
  {
    hide Pipeline.Inv, Receiver.ContentsOf, Step, Alone, Gone, Handles;
    AloneStep(w, Wire);
  }

  /** Sender, producer and players stand where they stood. */
  ghost predicate Stands(w: World, w': World) {
    && w'.pipe.sender == w.pipe.sender && w'.pipe.players == w.pipe.players && w'.pipe.hlsChan == w.pipe.hlsChan
    && w'.pipe.consumed == w.pipe.consumed && w'.pipe.max == w.pipe.max
    && w'.to == w.to && w'.left == w.left && w'.shown == w.shown && w'.making == w.making && w'.hls == w.hls
  }

  /** While the sender serves, the chunks up to there come in, and wait in DataChan and in the receiver's hand. */
  lemma {:induction false} Hoard(w: World, k: nat) returns (w': World)
    requires WorldOk(w) && w.pipe.sender.Serving?
    requires |Ahead(w.line, k).feed.msgs| <= w.pipe.sender.c + BehindSender(Ahead(w.line, k).feed)
    ensures WorldOk(w') && Reaches(w, w') && w'.line == Ahead(w.line, k) && Stands(w, w')
    decreases k, |w.pipe.receiverHand|
  {
    hide WorldOk, LineOk, Step, Reaches, Gone, Delivered;
    HoardRoom(w, k);
    if k == 0 || w.line.todo == [] {
      ReachesItself(w);
      w' := w;
    } else {
      var a := if w.pipe.receiverHand != [] then Move(Pipeline.Enqueue) else Wire;
      HoardStep(w, a);
      w' := Hoard(Step(w, a), if a.Wire? then k - 1 else k);
      ReachesNext(w, a, w');
    }
  }

  lemma HoardRoom(w: World, k: nat)
    requires WorldOk(w) && w.pipe.sender.Serving?
    requires |Ahead(w.line, k).feed.msgs| <= w.pipe.sender.c + BehindSender(Ahead(w.line, k).feed)
    ensures LineOk(w.line)
    ensures k > 0 && w.line.todo != [] && w.pipe.receiverHand != [] ==> |w.pipe.dataChan| < Pipeline.CAPACITY
  {
    hide Handles, LineOk, Pipeline.Inv, Receiver.ContentsOf;
    Within(w);
    Counted(w.pipe);
    AheadKeeps(w.line, k);
  }

  lemma HoardStep(w: World, a: Action)
    requires WorldOk(w) && (a == Wire || a == Move(Pipeline.Enqueue)) && Enabled(w, a)
    ensures WorldOk(Step(w, a)) && Stands(w, Step(w, a))
    ensures Step(w, a).line == if a.Wire? then Gone(w.line) else w.line
    ensures !a.Wire? ==> Step(w, a).pipe.receiverHand == []
  {
    hide Handles, WorldOk, LineOk, Pipeline.Inv, Receiver.ContentsOf, Receiver.ContentOf, Gone, Delivered, Gop.Push,
      Step;
    StepOk(w, a);
    LineMoves(w, a);
    if a.Wire? {
      WireStands(w);
    } else {
      EnqueueStands(w);
    }
  }

  lemma WireStands(w: World)
    requires WorldOk(w) && Enabled(w, Wire)
    ensures Stands(w, Step(w, Wire))
  {
    hide Handles, LineOk, Pipeline.Inv, Receiver.ContentsOf, Receiver.ContentOf, Gone, Delivered, Gop.Push, WritingOk,
      ShownOk;
  }

  lemma EnqueueStands(w: World)
    requires WorldOk(w) && Enabled(w, Move(Pipeline.Enqueue))
    ensures Stands(w, Step(w, Move(Pipeline.Enqueue))) && Step(w, Move(Pipeline.Enqueue)).pipe.receiverHand == []
  {
    hide Handles, LineOk, Pipeline.Inv, Receiver.ContentsOf, WritingOk, ShownOk;
  }

  // ---------------------------------------------------------------- a player is shown it wrong

  /** The message that is written next has been written over. */
  lemma WrittenWrong(w: World)
    requires WorldOk(w) && w.left != [] && FeedOk(w.line.feed)
    requires w.left[0] < |w.line.feed.msgs| && Stale(w.line.feed, w.left[0])
    ensures WorldOk(Step(w, Write)) && !Right(Step(w, Write))
  {
    hide Handles, LineOk, Pipeline.Inv, Receiver.ContentsOf, DataNow, Pipeline.SentTo;
    StepOk(w, Write);
    Within(w);
    var w', k := Step(w, Write), |w.shown[w.to]|;
    assert ShownOk(w, w.to);
    assert w'.shown[w.to][k] == MessageNow(w.line.feed, w.left[0]);
    assert !RightFor(w', w.to);
  }

  /** Something that is left to write has been written over. */
  lemma {:induction false} PlayerMisreads(w: World, i: nat) returns (w': World)
    requires WorldOk(w) && FeedOk(w.line.feed) && i in w.left
    requires i < |w.line.feed.msgs| && Stale(w.line.feed, i)
    ensures WorldOk(w') && Reaches(w, w') && !Right(w')
    decreases |w.left|
  {
    WriteGoesOn(w);
    hide WorldOk, Step, Enabled, Reaches, Right, Stale, FeedOk;
    w' := Step(w, Write);
    if w.left[0] == i {
      WrittenWrong(w);
      ReachesItself(w');
    } else {
      w' := PlayerMisreads(w', i);
    }
    ReachesNext(w, Write, w');
  }

  lemma WriteGoesOn(w: World)
    requires WorldOk(w) && w.left != []
    ensures Enabled(w, Write) && WorldOk(Step(w, Write)) && Step(w, Write).line == w.line
    ensures Step(w, Write).left == w.left[1..] && Step(w, Write).pipe == w.pipe && Step(w, Write).to == w.to
    ensures Step(w, Write).making == w.making
  {
    hide Handles, LineOk, Pipeline.Inv, Receiver.ContentsOf;
    StepOk(w, Write);
  }

  /** What is being served where nobody plays and nothing waits. */
  lemma ServingLast(w: World)
    requires WorldOk(w) && Alone(w) && !Waits(w.pipe) && w.line.feed.msgs != []
    ensures w.pipe.sender.Serving? && w.pipe.sender.c == |w.line.feed.msgs| - 1
    ensures w.pipe.players == map[] && w.left == []
  {
    hide LineOk, Pipeline.Inv, Receiver.ContentsOf, WritingOk, ShownOk, Handles;
    Within(w);
    Counted(w.pipe);
    NobodyWaits(w);
  }

  /** The n-th message has come and is being served. */
  lemma ServeNumber(w: World, k: nat, n: nat) returns (w': World, j: nat)
    requires WorldOk(w) && Alone(w) && w.line.feed.msgs == [] && LineOk(w.line)
    requires 0 < n <= |Ahead(w.line, k).feed.msgs| && Handles(Ahead(w.line, k).feed.msgs, n - 6)
    ensures j <= k && WorldOk(w') && Reaches(w, w') && w'.line == Ahead(w.line, j) && w'.pipe.max == w.pipe.max
    ensures Ahead(w'.line, k - j) == Ahead(w.line, k)
    ensures |w'.line.feed.msgs| == n && w'.line.feed.first
    ensures w'.pipe.sender.Serving? && w'.pipe.sender.c == n - 1 && w'.pipe.players == map[] && w'.left == []
  {
    hide WorldOk, LineOk, Alone, Reaches, Ahead, Handles, Waits;
    j := WhenDelivered(w.line, k, n);
    AheadMore(w.line, j, k - j);
    AheadOk(w.line, j);
    AheadKeeps(Ahead(w.line, j), k - j);
    HandlesFirst(Ahead(w.line, j).feed.msgs, Ahead(w.line, k).feed.msgs, n - 6);
    w' := PassTo(w, j);
    ServingLast(w');
  }

  lemma HandlesFirst(ms: seq<Message>, all: seq<Message>, n: int)
    requires ms <= all && n <= |ms| && Handles(all, n)
    ensures Handles(ms, n)
  {
    hide Receiver.Publishable;
    assert n > 0 ==> all[..n] == ms[..n];
  }

  /** From there on n messages come in while the sender stands. */
  lemma HoardNumber(w: World, k: nat, n: nat) returns (w': World, j: nat)
    requires WorldOk(w) && LineOk(w.line) && w.pipe.sender.Serving? && w.line.feed.first
    requires |w.line.feed.msgs| <= n <= |Ahead(w.line, k).feed.msgs| && n <= w.pipe.sender.c + 7
    ensures j <= k && WorldOk(w') && Reaches(w, w') && w'.line == Ahead(w.line, j) && Stands(w, w')
    ensures Ahead(w'.line, k - j) == Ahead(w.line, k) && |w'.line.feed.msgs| == n
  {
    hide WorldOk, LineOk, Reaches, Stands, Ahead;
    j := 0;
    AheadZero(w.line);
    if n > |w.line.feed.msgs| {
      j := WhenDelivered(w.line, k, n);
    }
    w' := Hoard(w, j);
    AheadMore(w.line, j, k - j);
  }

  /** A player joins and is to be sent the cache as it is. */
  lemma PlayerJoins(w: World) returns (w': World)
    requires WorldOk(w) && w.pipe.sender.Serving? && w.pipe.players == map[] && w.left == []
    requires Pipeline.AllHeads(Gop.HeadsIn(Receiver.ContentsOf(w.line.feed.msgs)))
    ensures WorldOk(w') && Reaches(w, w') && w'.line == w.line && w'.pipe.max == w.pipe.max
    ensures w'.left == Cached(Receiver.ContentsOf(w.line.feed.msgs), w.pipe.max) && w'.to == 0
    ensures w'.pipe.sender.Serving? && w'.pipe.sender.c == w.pipe.sender.c
    ensures w'.pipe.players.Keys == {0} && w'.pipe.players[0].Served? && 0 in w'.pipe.sender.visited
  {
    hide Handles, LineOk, Pipeline.Inv, Gop.HeadsIn, Gop.FramesIn, Gop.After, Receiver.ContentsOf, Reaches, ShownOk;
    CacheNow(w);
    var w1 := Step(w, Move(Pipeline.Join(0)));
    StepOk(w, Move(Pipeline.Join(0)));
    w' := Step(w1, Move(Pipeline.Serve(0, true)));
    StepOk(w1, Move(Pipeline.Serve(0, true)));
    ReachesItself(w');
    ReachesNext(w1, Move(Pipeline.Serve(0, true)), w');
    ReachesNext(w, Move(Pipeline.Join(0)), w');
  }

  lemma CacheNow(w: World)
    requires WorldOk(w)
    ensures w.pipe.heads == Gop.HeadsIn(Receiver.ContentsOf(w.line.feed.msgs))
    ensures w.pipe.cache == Gop.After(Gop.FramesIn(Receiver.ContentsOf(w.line.feed.msgs)), w.pipe.max)
  {
    hide LineOk, Gop.HeadsIn, Gop.FramesIn, Gop.After, Receiver.ContentsOf, Pipeline.PlayerOk, Pipeline.Conserved;
  }

  /** A message that a player could still be sent out of the cache. */
  lemma BurstMisread(w: World, k: nat, i: nat) returns (w': World)
    requires WorldOk(w) && Alone(w) && w.line.feed.msgs == [] && LineOk(w.line)
    requires FeedOk(Ahead(w.line, k).feed) && i < |Ahead(w.line, k).feed.msgs|
    requires Stale(Ahead(w.line, k).feed, i) && InBurst(Ahead(w.line, k).feed, w.pipe.max, i)
    ensures WorldOk(w') && Reaches(w, w') && !Right(w')
  {
    hide WorldOk, LineOk, Alone, Reaches, Right, Stale, FeedOk, Cached, Receiver.ContentsOf, Ahead;
    var f := Ahead(w.line, k).feed;
    var n := |f.msgs|;
    var m :| 0 <= m <= n < m + BehindSender(f) && i in Cached(Receiver.ContentsOf(f.msgs)[..m], w.pipe.max);
    NothingCached(Receiver.ContentsOf(f.msgs)[..m], w.pipe.max);
    var c := if n >= BehindSender(f) then n - BehindSender(f) else 0;
    var w1, j1 := ServeNumber(w, k, c + 1);
    AheadOk(w.line, j1);
    var w2, j2 := HoardNumber(w1, k - j1, m);
    AheadKeeps(w2.line, k - j1 - j2);
    AheadOk(w1.line, j2);
    assert w2.line.feed.msgs == f.msgs[..m];
    ContentsPrefix(f.msgs, m);
    var w3 := PlayerJoins(w2);
    var w4 := Hoard(w3, k - j1 - j2);
    w' := PlayerMisreads(w4, i);
    ReachesOn(w3, w4, w');
    ReachesOn(w2, w3, w');
    ReachesOn(w1, w2, w');
    ReachesOn(w, w1, w');
  }

  lemma AheadZero(l: Line)
    requires LineOk(l)
    ensures Ahead(l, 0) == l
  {
  }

  lemma AheadOk(l: Line, k: nat)
    requires LineOk(l)
    ensures LineOk(Ahead(l, k))
  {
  }

  lemma NothingCached(contents: seq<Content>, max: int)
    ensures Cached(contents, max) != [] ==> contents != [] && Pipeline.AllHeads(Gop.HeadsIn(contents))
  {
  }

  /** Everything left is written. */
  lemma {:induction false} WritesOut(w: World) returns (w': World)
    requires WorldOk(w)
    ensures WorldOk(w') && Reaches(w, w') && w'.line == w.line && w'.pipe == w.pipe && w'.to == w.to && w'.left == []
    ensures w'.making == w.making
    decreases |w.left|
  {
    hide WorldOk, Step, Enabled, Reaches;
    if w.left == [] {
      ReachesItself(w);
      w' := w;
    } else {
      WriteGoesOn(w);
      w' := WritesOut(Step(w, Write));
      ReachesNext(w, Write, w');
    }
  }

  /** The producer takes a message, or reads it; sender and players do not notice. */
  lemma ProducerStep(w: World, a: Action)
    requires WorldOk(w) && Enabled(w, a) && (a == Make || a == Move(Pipeline.Consume))
    ensures WorldOk(Step(w, a)) && Unmoved(w, Step(w, a))
    ensures Step(w, a).pipe.hlsChan == if a.Make? then w.pipe.hlsChan else w.pipe.hlsChan[1..]
    ensures a.Make? ==> Step(w, a).making == []
  {
    hide LineOk, Pipeline.Inv, Receiver.ContentsOf, ShownOk, WritingOk, Handles;
    StepOk(w, a);
  }

  /** Everything but the producer and its channel stands as it was. */
  ghost predicate Unmoved(w: World, w': World) {
    && w'.line == w.line && w'.left == w.left && w'.to == w.to
    && w'.pipe.(hlsChan := w.pipe.hlsChan, consumed := w.pipe.consumed) == w.pipe
  }

  /** Room is made in HlsChan. */
  lemma HlsRoom(w: World) returns (w': World)
    requires WorldOk(w) && w.pipe.sender.Serving? && Handles(w.line.feed.msgs, w.pipe.sender.c - 4)
    ensures WorldOk(w') && Reaches(w, w') && Unmoved(w, w') && |w'.pipe.hlsChan| < Pipeline.CAPACITY
  {
    hide LineOk, Pipeline.Inv, Receiver.ContentsOf, ShownOk, WritingOk, Handles, Reaches, Step;
    Counted(w.pipe);
    if |w.pipe.hlsChan| < Pipeline.CAPACITY {
      ReachesItself(w);
      w' := w;
    } else if w.making == [] {
      w' := HlsTaken(w);
    } else {
      ProducerStep(w, Make);
      w' := HlsTaken(Step(w, Make));
      ReachesNext(w, Make, w');
    }
  }

  lemma HlsTaken(w: World) returns (w': World)
    requires WorldOk(w) && w.making == [] && |w.pipe.hlsChan| == Pipeline.CAPACITY
    ensures WorldOk(w') && Reaches(w, w') && Unmoved(w, w') && |w'.pipe.hlsChan| < Pipeline.CAPACITY
  {
    hide WorldOk, Reaches, Step;
    ProducerStep(w, Move(Pipeline.Consume));
    w' := Step(w, Move(Pipeline.Consume));
    ReachesItself(w');
    ReachesNext(w, Move(Pipeline.Consume), w');
  }

  /** The sender goes on to the next chunk, for a player that it has served once. */
  lemma NextServed(w: World) returns (w': World)
    requires WorldOk(w) && w.pipe.sender.Serving? && w.left == [] && Handles(w.line.feed.msgs, w.pipe.sender.c - 4)
    requires w.pipe.players.Keys == {0} && w.pipe.players[0].Served? && 0 in w.pipe.sender.visited
    requires w.pipe.sender.c + 1 < |w.line.feed.msgs|
    ensures WorldOk(w') && Reaches(w, w') && w'.line == w.line && w'.pipe.max == w.pipe.max
    ensures w'.pipe.sender.Serving? && w'.pipe.sender.c == w.pipe.sender.c + 1 && w'.left == [w.pipe.sender.c + 1]
  {
    hide WorldOk, Reaches, Step, Handles;
    var w1 := HlsRoom(w);
    w' := NextTaken(w1);
    ReachesOn(w, w1, w');
  }

  lemma NextTaken(w: World) returns (w': World)
    requires WorldOk(w) && w.pipe.sender.Serving? && w.left == [] && |w.pipe.hlsChan| < Pipeline.CAPACITY
    requires w.pipe.players.Keys == {0} && w.pipe.players[0].Served? && 0 in w.pipe.sender.visited
    requires w.pipe.sender.c + 1 < |w.line.feed.msgs|
    ensures WorldOk(w') && Reaches(w, w') && w'.line == w.line && w'.pipe.max == w.pipe.max
    ensures w'.pipe.sender.Serving? && w'.pipe.sender.c == w.pipe.sender.c + 1 && w'.left == [w.pipe.sender.c + 1]
  {
    hide LineOk, Pipeline.Inv, Receiver.ContentsOf, Reaches, ShownOk, WorldOk, Handles;
    var finish, enqueue := Move(Pipeline.FinishRound), Move(Pipeline.Enqueue);
    NextWaits(w);
    StepOk(w, finish);
    var w1 := Step(w, finish);
    if w1.pipe.dataChan == [] {
      StepOk(w1, enqueue);
      var w2 := Step(w1, enqueue);
      w' := TakenAndServed(w2);
      ReachesNext(w1, enqueue, w');
    } else {
      w' := TakenAndServed(w1);
    }
    ReachesNext(w, finish, w');
  }

  lemma TakenAndServed(w: World) returns (w': World)
    requires WorldOk(w) && w.pipe.sender.Waiting? && w.pipe.dataChan != [] && w.left == []
    requires |w.pipe.hlsChan| < Pipeline.CAPACITY
    requires w.pipe.players.Keys == {0} && w.pipe.players[0].Served?
    ensures WorldOk(w') && Reaches(w, w') && w'.line == w.line && w'.pipe.max == w.pipe.max
    ensures w'.pipe.sender.Serving? && w'.pipe.sender.c == w.pipe.dataChan[0] && w'.left == [w.pipe.dataChan[0]]
  {
    hide Handles, LineOk, Pipeline.Inv, Receiver.ContentsOf, Reaches, ShownOk, WorldOk;
    var take, forward, serve := Move(Pipeline.Take), Move(Pipeline.ForwardToHls), Move(Pipeline.Serve(0, true));
    StepOk(w, take);
    var w1 := Step(w, take);
    StepOk(w1, forward);
    var w2 := Step(w1, forward);
    StepOk(w2, serve);
    w' := Step(w2, serve);
    ReachesItself(w');
    ReachesNext(w2, serve, w');
    ReachesNext(w1, forward, w');
    ReachesNext(w, take, w');
  }

  /** The next message is at the head of DataChan, or in the receiver's hand. */
  lemma NextWaits(w: World)
    requires WorldOk(w) && w.pipe.sender.Serving? && w.pipe.sender.c + 1 < |w.line.feed.msgs|
    ensures var waiting := w.pipe.dataChan + w.pipe.receiverHand;
      waiting != [] && waiting[0] == w.pipe.sender.c + 1
  {
    hide LineOk, Receiver.ContentsOf, Pipeline.PlayerOk, Pipeline.CacheOk;
    Within(w);
    var s := w.pipe;
    var all := s.consumed + s.hlsChan + Pipeline.InSendersHand(s) + s.dataChan + s.receiverHand;
    assert all[|s.consumed| + |s.hlsChan|] == s.sender.c + 1;
  }

  /** A message that a player could still be sent as the newest. */
  lemma LiveMisread(w: World, k: nat, i: nat) returns (w': World)
    requires WorldOk(w) && Alone(w) && w.line.feed.msgs == [] && LineOk(w.line)
    requires FeedOk(Ahead(w.line, k).feed) && Live(Ahead(w.line, k).feed, i) && Stale(Ahead(w.line, k).feed, i)
    ensures WorldOk(w') && Reaches(w, w') && !Right(w')
  {
    hide WorldOk, LineOk, Alone, Reaches, Right, Stale, FeedOk, Cached, Receiver.ContentsOf, Ahead, Stands, Handles;
    var f := Ahead(w.line, k).feed;
    var m := Min(|f.msgs|, i + 6);
    HandlesLess(f.msgs, i - 6, i - 5);
    var w1, j1 := ServeNumber(w, k, i);
    AheadOk(w.line, j1);
    var w2, j2 := HoardNumber(w1, k - j1, m);
    StandsStill(w1, w2);
    AheadKeeps(w2.line, k - j1 - j2);
    AheadOk(w1.line, j2);
    assert w2.line.feed.msgs == f.msgs[..m];
    ContentsPrefix(f.msgs, m);
    var w3 := PlayerJoins(w2);
    var w4 := WritesOut(w3);
    HandlesFirst(f.msgs[..m], f.msgs, i - 5);
    var w5 := NextServed(w4);
    var w6 := Hoard(w5, k - j1 - j2);
    StandsStill(w5, w6);
    w' := PlayerMisreads(w6, i);
    ReachesOn(w5, w6, w');
    ReachesOn(w4, w5, w');
    ReachesOn(w3, w4, w');
    ReachesOn(w2, w3, w');
    ReachesOn(w1, w2, w');
    ReachesOn(w, w1, w');
  }

  lemma StandsStill(w: World, w': World)
    requires Stands(w, w')
    ensures w'.pipe.sender == w.pipe.sender && w'.pipe.players == w.pipe.players && w'.pipe.hlsChan == w.pipe.hlsChan
    ensures w'.left == w.left && w'.making == w.making && w'.pipe.max == w.pipe.max
  {
  }

  // ---------------------------------------------------------------- exactly

  lemma UnsafeMessage(l: Line, max: int) returns (i: nat)
    requires LineOk(l) && !SafeNow(l.feed, max)
    ensures FeedOk(l.feed) && i < |l.feed.msgs|
    ensures (Misread(l.feed, i) && Handles(l.feed.msgs, i + 1) && i + BeforeProducer(l.feed) >= |l.feed.msgs|) ||
            (Stale(l.feed, i) && (InBurst(l.feed, max, i) || Live(l.feed, i)))
  {
    hide Stale, Misread, Live, InBurst, Handles;
    assert FeedOk(l.feed);
    hide LineOk, FeedOk;
    i :| 0 <= i < |l.feed.msgs| &&
      ((Misread(l.feed, i) && Handles(l.feed.msgs, i + 1) && i + BeforeProducer(l.feed) >= |l.feed.msgs|) ||
       (Stale(l.feed, i) && (InBurst(l.feed, max, i) || Live(l.feed, i))));
  }

  /** An unsafe run goes wrong under some schedule. */
  lemma UnsafeGoesWrong(w: World) returns (w': World)
    requires WorldOk(w) && Alone(w) && w.line.feed.msgs == [] && w.hls == [] && !SafeRun(w.line, w.pipe.max)
    ensures WorldOk(w') && Reaches(w, w') && !Right(w')
  {
    hide Alone, Reaches, Right, Stale, Misread, Live, InBurst, Ahead, SafeRun, SafeNow, LineOk, Pipeline.Inv,
      Receiver.ContentsOf, Handles;
    var k := WhenUnsafe(w.line, w.pipe.max);
    AheadOk(w.line, k);
    var f := Ahead(w.line, k).feed;
    var i := UnsafeMessage(Ahead(w.line, k), w.pipe.max);
    hide WorldOk, FeedOk;
    if Misread(f, i) && Handles(f.msgs, i + 1) && i + BeforeProducer(f) >= |f.msgs| {
      var w1 := LazyTo(w, k);
      w' := ProducerMisreads(w1, i);
      ReachesOn(w, w1, w');
    } else if InBurst(f, w.pipe.max, i) {
      w' := BurstMisread(w, k, i);
    } else {
      w' := LiveMisread(w, k, i);
    }
  }

  /**
    Whatever the schedule, everything is read as it was delivered, by the HLS producer and for every player, if and
    only if the run is safe.
   */
  lemma SafeExactly(events: seq<ChunkRuns.Event>, chunkSize: nat, max: int)
    requires chunkSize >= 1 && max >= 1 && ChunkRuns.LegalRun(map[], events, chunkSize)
    ensures WorldOk(Start(events, chunkSize, max))
    ensures var start := Start(events, chunkSize, max);
      (forall run :: ValidRun(start, run) ==> Right(Exec(start, run))) <==> SafeRun(start.line, max)
  {
    StartOk(events, chunkSize, max);
    var start := Start(events, chunkSize, max);
    assert Right(start) && Alone(start) && start.hls == [] && start.pipe.max == max && start.line.feed.msgs == [];
    hide *;
    if SafeRun(start.line, max) {
      forall run | ValidRun(start, run)
        ensures Right(Exec(start, run))
      {
        SafeIsRight(start, run);
      }
    } else {
      var w' := UnsafeGoesWrong(start);
      SomeRun(start, w');
    }
  }

  lemma SomeRun(w: World, w': World)
    requires WorldOk(w) && Reaches(w, w') && WorldOk(w') && !Right(w')
    ensures !forall run :: ValidRun(w, run) ==> Right(Exec(w, run))
  {
    hide WorldOk, ValidRun, Exec, Right;
  }
}
