/**
  Whole runs of the chunk layer: any number of chunk streams, interleaved chunk by chunk in any order, with any of
  the four levels of header compression of section 5.3.1.2 of Adobe's RTMP 1.0 specification.
 */
module ChunkRuns {
  import opened Bytes
  import opened Chunks

  // ---------------------------------------------------------------- what a sender may do

  /** The ways a message may be opened, by what its first header leaves to be inherited. */
  datatype Opening =
    | Whole(timestamp: nat, typeId: nat, streamId: nat)
    | Delta(delta: nat, typeId: nat)
    | SameLength(delta: nat)
    | Repeat

  /**
    One chunk stream as its sender sees it: the message last opened on it, and how much of it has gone out. `delta` is
    the last one sent, if the receiver is known to have it; `whole` says that the message had a full header.
   */
  datatype Lane = Lane(msg: Message, delta: nat, deltaKnown: bool, time: nat, sent: nat, whole: bool)

  type Lanes = map<nat, Lane>

  datatype Event = Open(csid: nat, opening: Opening, data: seq<byte>) | Next(csid: nat)

  function Fmt(o: Opening): nat {
    match o
    case Whole(_, _, _) => 0
    case Delta(_, _) => 1
    case SameLength(_) => 2
    case Repeat => 3
  }

  function EventFmt(e: Event): (fmt: nat)
    ensures fmt <= 3
  {
    if e.Open? then Fmt(e.opening) else 3
  }

  predicate Idle(lane: Lane) {
    lane.sent == |lane.msg.data|
  }

  /** The csids whose basic header reads back: 320..383 take the two-byte form and lose a bit (rtmp.go:576). */
  predicate SafeCsid(csid: nat) {
    2 <= csid < 320 || 384 <= csid < 65600
  }

  /** The timestamps that a full header can carry for a message cut into chunks of this size. */
  predicate SafeTime(timestamp: nat, length: nat, chunkSize: nat) {
    timestamp < EXTENDED || (EXTENDED < timestamp < TWO_TO_THE_32 && length <= chunkSize)
  }

  predicate Legal(lanes: Lanes, e: Event, chunkSize: nat) {
    match e
    case Next(csid) => csid in lanes && !Idle(lanes[csid])
    case Open(csid, o, data) =>
      && SafeCsid(csid)
      && |data| < TWO_TO_THE_24
      && (csid in lanes ==> Idle(lanes[csid]))
      && (o.Whole? || csid in lanes)
      && match o
         case Whole(timestamp, typeId, streamId) =>
           SafeTime(timestamp, |data|, chunkSize) && typeId < 256 && streamId < TWO_TO_THE_32
         case Delta(delta, typeId) => delta < EXTENDED && typeId < 256
         case SameLength(delta) => delta < EXTENDED && |data| == |lanes[csid].msg.data|
         case Repeat => lanes[csid].deltaKnown && |data| == |lanes[csid].msg.data|
  }

  /** The message an opening stands for: a delta adds to the timestamp before, the rest is inherited. */
  function Resolve(lanes: Lanes, csid: nat, o: Opening, data: seq<byte>): Lane
    requires o.Whole? || csid in lanes
  {
    match o
    case Whole(timestamp, typeId, streamId) =>
      Lane(Message(csid, timestamp, typeId, streamId, data),
           if csid in lanes then lanes[csid].delta else 0, csid in lanes && lanes[csid].deltaKnown, timestamp, 0, true)
    case Delta(delta, typeId) =>
      var m := lanes[csid].msg;
      Lane(Message(csid, (m.timestamp + delta) % TWO_TO_THE_32, typeId, m.streamId, data), delta, true, delta, 0, false)
    case SameLength(delta) =>
      var m := lanes[csid].msg;
      var timestamp := (m.timestamp + delta) % TWO_TO_THE_32;
      Lane(Message(csid, timestamp, m.typeId, m.streamId, data), delta, true, delta, 0, false)
    case Repeat =>
      var m, delta := lanes[csid].msg, lanes[csid].delta;
      var timestamp := (m.timestamp + delta) % TWO_TO_THE_32;
      Lane(Message(csid, timestamp, m.typeId, m.streamId, data), delta, true, delta, 0, false)
  }

  /** The lane an event works on, before its chunk goes out. */
  function Active(lanes: Lanes, e: Event, chunkSize: nat): Lane
    requires Legal(lanes, e, chunkSize)
  {
    match e
    case Next(csid) => lanes[csid]
    case Open(csid, o, data) => Resolve(lanes, csid, o, data)
  }

  function Advanced(lane: Lane, chunkSize: nat): Lane
    requires lane.sent <= |lane.msg.data|
  {
    lane.(sent := lane.sent + Min(|lane.msg.data| - lane.sent, chunkSize))
  }

  ghost predicate LanesOk(lanes: Lanes) {
    forall csid :: csid in lanes ==> LaneOk(csid, lanes[csid])
  }

  ghost predicate LaneOk(csid: nat, lane: Lane) {
    && SafeCsid(csid) && lane.msg.csid == csid
    && lane.sent <= |lane.msg.data| < TWO_TO_THE_24
    && lane.msg.timestamp < TWO_TO_THE_32 && lane.msg.typeId < 256 && lane.msg.streamId < TWO_TO_THE_32
    && lane.delta < EXTENDED
    && (Idle(lane) || lane.time < EXTENDED)
  }

  function After(lanes: Lanes, e: Event, chunkSize: nat): Lanes
    requires Legal(lanes, e, chunkSize) && LanesOk(lanes)
  {
    lanes[e.csid := Advanced(Active(lanes, e, chunkSize), chunkSize)]
  }

  /** The chunk on the wire. */
  function EventBytes(lanes: Lanes, e: Event, chunkSize: nat): seq<byte>
    requires Legal(lanes, e, chunkSize) && LanesOk(lanes)
  {
    var lane := Active(lanes, e, chunkSize);
    var m := lane.msg;
    HeaderBytes(EventFmt(e), e.csid, lane.time, |m.data|, m.typeId, m.streamId) +
    m.data[lane.sent..Advanced(lane, chunkSize).sent]
  }

  /** The message an event completes, if it does. */
  function Completes(lanes: Lanes, e: Event, chunkSize: nat): seq<Message>
    requires Legal(lanes, e, chunkSize) && LanesOk(lanes)
  {
    var lane := Advanced(Active(lanes, e, chunkSize), chunkSize);
    if Idle(lane) then [lane.msg] else []
  }

  lemma AfterOk(lanes: Lanes, e: Event, chunkSize: nat)
    requires chunkSize >= 1 && Legal(lanes, e, chunkSize) && LanesOk(lanes)
    ensures LanesOk(After(lanes, e, chunkSize))
  {
    assert LaneOk(e.csid, Advanced(Active(lanes, e, chunkSize), chunkSize));
  }

  ghost predicate LegalRun(lanes: Lanes, run: seq<Event>, chunkSize: nat)
    requires LanesOk(lanes) && chunkSize >= 1
    decreases run
  {
    run == [] ||
    (Legal(lanes, run[0], chunkSize) &&
     (AfterOk(lanes, run[0], chunkSize); LegalRun(After(lanes, run[0], chunkSize), run[1..], chunkSize)))
  }

  ghost function Wire(lanes: Lanes, run: seq<Event>, chunkSize: nat): seq<byte>
    requires LanesOk(lanes) && chunkSize >= 1 && LegalRun(lanes, run, chunkSize)
    decreases run
  {
    if run == [] then []
    else
      AfterOk(lanes, run[0], chunkSize);
      EventBytes(lanes, run[0], chunkSize) + Wire(After(lanes, run[0], chunkSize), run[1..], chunkSize)
  }

  /** The messages a run completes, in the order in which it completes them. */
  ghost function Completed(lanes: Lanes, run: seq<Event>, chunkSize: nat): seq<Message>
    requires LanesOk(lanes) && chunkSize >= 1 && LegalRun(lanes, run, chunkSize)
    decreases run
  {
    if run == [] then []
    else
      AfterOk(lanes, run[0], chunkSize);
      Completes(lanes, run[0], chunkSize) + Completed(After(lanes, run[0], chunkSize), run[1..], chunkSize)
  }

  // ---------------------------------------------------------------- headers read back

  lemma ReadBig(u: nat, n: nat, rest: seq<byte>)
    requires 1 <= n <= 4 && u < (if n == 1 then 256 else if n == 2 then TWO_TO_THE_16
                                 else if n == 3 then TWO_TO_THE_24 else TWO_TO_THE_32)
    ensures ReadUint(ToBE(u, n) + rest, n, BE) == u && Skip(ToBE(u, n) + rest, n) == rest
  {
    assert Pow256(1) == 256 && Pow256(2) == TWO_TO_THE_16 && Pow256(3) == TWO_TO_THE_24 && Pow256(4) == TWO_TO_THE_32;
    ReadField(u, n, BE, rest);
  }

  lemma ReadLittle(u: nat, rest: seq<byte>)
    requires u < TWO_TO_THE_32
    ensures ReadUint(ToLE(u, 4) + rest, 4, LE) == u && Skip(ToLE(u, 4) + rest, 4) == rest
  {
    assert Pow256(4) == TWO_TO_THE_32;
    ReadField(u, 4, LE, rest);
  }

  lemma BasicReadsBack(fmt: nat, csid: nat, rest: seq<byte>)
    requires fmt <= 3 && SafeCsid(csid)
    ensures BasicHeader(fmt, csid) + rest != []
    ensures ReadBasic(BasicHeader(fmt, csid) + rest) == (fmt, csid, rest)
  {
    var w := BasicHeader(fmt, csid) + rest;
    if csid < 64 {
      assert w[1..] == rest;
    } else if csid - 64 < 320 {
      assert w[1..] == ToBE(csid - 64, 1) + rest;
      ReadBig(csid - 64, 1, rest);
    } else {
      assert w[1..] == ToBE(csid - 64, 2) + rest;
      ReadBig(csid - 64, 2, rest);
    }
  }

  lemma WholeReadsBack<D>(c: Chunk<D>, time: nat, length: nat, typeId: nat, streamId: nat, rest: seq<byte>)
    requires c.fmt == 0 && time != EXTENDED && time < TWO_TO_THE_32
    requires length < TWO_TO_THE_24 && typeId < 256 && streamId < TWO_TO_THE_32
    ensures ReadHeader(c, Fields(0, time, length, typeId, streamId) + rest) ==
      (c.(timestamp := time, timeExted := time > EXTENDED, msgLength := length, msgTypeId := typeId,
          msgStreamId := streamId, msgIndex := 0, msgRemain := length, full := false), rest)
  {
    hide ToBE, ToLE, ReadUint, Skip;
    var t3 := if time > EXTENDED then EXTENDED else time;
    var tail := if time > EXTENDED then ToBE(time, 4) else [];
    var r4 := tail + rest;
    var r3 := ToLE(streamId, 4) + r4;
    var r2 := ToBE(typeId, 1) + r3;
    var r1 := ToBE(length, 3) + r2;
    assert Fields(0, time, length, typeId, streamId) + rest == ToBE(t3, 3) + r1;
    ReadBig(t3, 3, r1);
    ReadBig(length, 3, r2);
    ReadBig(typeId, 1, r3);
    ReadLittle(streamId, r4);
    if time > EXTENDED {
      ReadBig(time, 4, rest);
    } else {
      assert r4 == rest;
    }
  }

  lemma DeltaReadsBack<D>(c: Chunk<D>, delta: nat, length: nat, typeId: nat, rest: seq<byte>)
    requires c.fmt == 1 && delta < EXTENDED && length < TWO_TO_THE_24 && typeId < 256
    ensures ReadHeader(c, Fields(1, delta, length, typeId, 0) + rest) ==
      (c.(timestamp := (c.timestamp + delta) % TWO_TO_THE_32, timeExted := false, timeDelta := delta,
          msgLength := length, msgTypeId := typeId, msgIndex := 0, msgRemain := length, full := false), rest)
  {
    hide ToBE, ReadUint, Skip;
    var r2 := ToBE(typeId, 1) + rest;
    var r1 := ToBE(length, 3) + r2;
    assert Fields(1, delta, length, typeId, 0) + rest == ToBE(delta, 3) + r1;
    ReadBig(delta, 3, r1);
    ReadBig(length, 3, r2);
    ReadBig(typeId, 1, rest);
  }

  lemma SameLengthReadsBack<D>(c: Chunk<D>, delta: nat, rest: seq<byte>)
    requires c.fmt == 2 && delta < EXTENDED
    ensures ReadHeader(c, Fields(2, delta, 0, 0, 0) + rest) ==
      (c.(timestamp := (c.timestamp + delta) % TWO_TO_THE_32, timeExted := false, timeDelta := delta,
          msgIndex := 0, msgRemain := c.msgLength, full := false), rest)
  {
    assert Fields(2, delta, 0, 0, 0) + rest == ToBE(delta, 3) + rest;
    ReadBig(delta, 3, rest);
  }

  // ---------------------------------------------------------------- receiver and sender in step

  /** What the receiver's slot knows of a lane. */
  ghost predicate Matches(lane: Lane, slot: Slot) {
    && slot.timestamp == lane.msg.timestamp
    && (lane.deltaKnown ==> slot.timeDelta == lane.delta)
    && slot.msgTypeId == lane.msg.typeId
    && slot.msgStreamId == lane.msg.streamId
    && slot.msgLength == |lane.msg.data|
    && slot.msgIndex == lane.sent <= |slot.msgData| == |lane.msg.data|
    && slot.msgData[..lane.sent] == lane.msg.data[..lane.sent]
  }

  ghost predicate InStep(lanes: Lanes, table: Table) {
    forall csid :: csid in lanes ==> Matches(lanes[csid], Lookup(table, csid))
  }

  /** Once its header has been read, a chunk's slot stands where the sender's lane stands. */
  lemma HeaderInStep(lanes: Lanes, e: Event, chunkSize: nat, c: Slot, rest: seq<byte>)
    requires Legal(lanes, e, chunkSize) && LanesOk(lanes) && InRange(c)
    requires c.csid == e.csid && c.fmt == EventFmt(e)
    requires e.csid in lanes ==> Matches(lanes[e.csid], c)
    ensures var lane := Active(lanes, e, chunkSize);
      && LaneOk(e.csid, lane.(sent := |lane.msg.data|))
      && lane.sent <= |lane.msg.data|
      && var inp := Fields(c.fmt, lane.time, |lane.msg.data|, lane.msg.typeId, lane.msg.streamId) + rest;
         Matches(lane, Opened(c, inp)) && ReadHeader(c, inp).1 == rest
  {
    hide ToBE, ToLE, ReadUint, Skip, BasicHeader;
    var lane := Active(lanes, e, chunkSize);
    var m := lane.msg;
    match e
    case Next(csid) =>
      assert Fields(3, lane.time, |m.data|, m.typeId, m.streamId) + rest == rest;
    case Open(csid, o, data) =>
      match o
      case Whole(timestamp, typeId, streamId) =>
        WholeReadsBack(c, timestamp, |data|, typeId, streamId, rest);
      case Delta(delta, typeId) =>
        assert Fields(1, delta, |data|, typeId, m.streamId) == Fields(1, delta, |data|, typeId, 0);
        DeltaReadsBack(c, delta, |data|, typeId, rest);
      case SameLength(delta) =>
        assert Fields(2, delta, |data|, m.typeId, m.streamId) == Fields(2, delta, 0, 0, 0);
        SameLengthReadsBack(c, delta, rest);
      case Repeat =>
        assert Fields(3, lane.time, |m.data|, m.typeId, m.streamId) + rest == rest;
  }

  lemma BodyInStep(lane: Lane, c: Slot, chunkSize: nat, rest: seq<byte>)
    requires InRange(c) && Matches(lane, c)
    ensures var lane' := Advanced(lane, chunkSize);
      var r := ReadBody(c, chunkSize, lane.msg.data[lane.sent..lane'.sent] + rest);
      r.Stepped? && Matches(lane', r.slot) && r.rest == rest
  {
    var lane' := Advanced(lane, chunkSize);
    var body := lane.msg.data[lane.sent..lane'.sent];
    assert (body + rest)[..|body|] == body && (body + rest)[|body|..] == rest;
    var data := Overwrite(c.msgData, c.msgIndex, body);
    assert data[..lane'.sent] == c.msgData[..lane.sent] + body;
  }

  lemma EventShape(lanes: Lanes, e: Event, chunkSize: nat)
    requires Legal(lanes, e, chunkSize) && LanesOk(lanes)
    ensures SafeCsid(e.csid)
    ensures var lane := Active(lanes, e, chunkSize);
      && lane.msg.csid == e.csid && lane.sent <= |lane.msg.data|
      && (e.csid !in lanes ==> e.Open? && e.opening.Whole?)
  {
  }

  lemma StepIsAssemble(table: Table, chunkSize: nat, fmt: nat, csid: nat, rest: seq<byte>, first: bool)
    requires TableOk(table) && fmt <= 3 && SafeCsid(csid)
    ensures ChunkStep(table, chunkSize, BasicHeader(fmt, csid) + rest, first) ==
      Assemble(Addressed(table, fmt, csid, first), chunkSize, rest)
  {
    hide Assemble, BasicHeader;
    BasicReadsBack(fmt, csid, rest);
  }

  lemma AssembleInStep(lanes: Lanes, e: Event, chunkSize: nat, c: Slot, rest: seq<byte>)
    requires chunkSize >= 1 && Legal(lanes, e, chunkSize) && LanesOk(lanes) && InRange(c)
    requires c.csid == e.csid && c.fmt == EventFmt(e)
    requires e.csid in lanes ==> Matches(lanes[e.csid], c)
    ensures var lane := Active(lanes, e, chunkSize);
      && lane.sent <= |lane.msg.data|
      && var lane' := Advanced(lane, chunkSize);
         var r := Assemble(c, chunkSize, Fields(c.fmt, lane.time, |lane.msg.data|, lane.msg.typeId,
           lane.msg.streamId) + (lane.msg.data[lane.sent..lane'.sent] + rest));
      && r.Stepped? && Matches(lane', r.slot) && r.rest == rest
  {
    EventShape(lanes, e, chunkSize);
    var lane := Active(lanes, e, chunkSize);
    var m := lane.msg;
    var body := m.data[lane.sent..Advanced(lane, chunkSize).sent] + rest;
    var fields := Fields(c.fmt, lane.time, |m.data|, m.typeId, m.streamId) + body;
    HeaderInStep(lanes, e, chunkSize, c, body);
    OpenedInRange(c, fields);
    BodyInStep(lane, Opened(c, fields), chunkSize, rest);
    hide Legal, Active, Fields, Opened, ReadBody, ReadHeader, Matches;
  }

  lemma FullWhenIdle(lane: Lane, slot: Slot)
    requires Matches(lane, slot) && Assembled(slot) && slot.csid == lane.msg.csid
    ensures (if Idle(lane) then [lane.msg] else []) == if slot.full then [Content(slot)] else []
  {
    if slot.full {
      assert slot.msgData == slot.msgData[..lane.sent] == lane.msg.data;
    }
  }

  /** One chunk: the receiver follows the sender, and a message is full when the sender has sent all of it. */
  lemma StepInStep(lanes: Lanes, e: Event, chunkSize: nat, table: Table, rest: seq<byte>, first: bool)
    requires chunkSize >= 1 && Legal(lanes, e, chunkSize) && LanesOk(lanes)
    requires TableOk(table) && InStep(lanes, table)
    ensures LanesOk(After(lanes, e, chunkSize))
    ensures var r := ChunkStep(table, chunkSize, EventBytes(lanes, e, chunkSize) + rest, first);
      && r.Stepped? && r.rest == rest && r.slot.csid == e.csid && r.slot.fmt == EventFmt(e)
      && Matches(After(lanes, e, chunkSize)[e.csid], r.slot)
      && Completes(lanes, e, chunkSize) == if r.slot.full then [Content(r.slot)] else []
  {
    hide Fields, BasicHeader, Legal, Active, Assemble, ChunkStep, Matches;
    AfterOk(lanes, e, chunkSize);
    EventShape(lanes, e, chunkSize);
    var fmt, lane := EventFmt(e), Active(lanes, e, chunkSize);
    var m, lane' := lane.msg, Advanced(lane, chunkSize);
    var tail := Fields(fmt, lane.time, |m.data|, m.typeId, m.streamId) +
      (m.data[lane.sent..lane'.sent] + rest);
    assert EventBytes(lanes, e, chunkSize) + rest == BasicHeader(fmt, e.csid) + tail;
    StepIsAssemble(table, chunkSize, fmt, e.csid, tail, first);
    var c := Addressed(table, fmt, e.csid, first);
    AddressedMatches(lanes, e.csid, table, fmt, first);
    AssembleInStep(lanes, e, chunkSize, c, rest);
    FullWhenIdle(lane', Assemble(c, chunkSize, tail).slot);
  }

  lemma AddressedMatches(lanes: Lanes, csid: nat, table: Table, fmt: nat, first: bool)
    requires TableOk(table) && LanesOk(lanes) && InStep(lanes, table)
    ensures InRange(Addressed(table, fmt, csid, first))
    ensures csid in lanes ==> Matches(lanes[csid], Addressed(table, fmt, csid, first))
  {
  }

  /**
    Every run, from any receiver table that agrees with the sender's lanes: the receiver delivers exactly the
    messages the run completes, in completion order.
   */
  lemma {:induction false} RunDelivers(lanes: Lanes, run: seq<Event>, chunkSize: nat, table: Table, first: bool)
    requires chunkSize >= 1 && LanesOk(lanes) && LegalRun(lanes, run, chunkSize)
    requires TableOk(table) && InStep(lanes, table)
    ensures Receive(table, chunkSize, Wire(lanes, run, chunkSize), first) == Completed(lanes, run, chunkSize)
    decreases run
  {
    hide ChunkStep, EventBytes, Completes, Resolve, Legal;
    if run != [] {
      var e := run[0];
      AfterOk(lanes, e, chunkSize);
      var lanes' := After(lanes, e, chunkSize);
      var rest := Wire(lanes', run[1..], chunkSize);
      StepInStep(lanes, e, chunkSize, table, rest, first);
      var r := ChunkStep(table, chunkSize, EventBytes(lanes, e, chunkSize) + rest, first);
      RunDelivers(lanes', run[1..], chunkSize, table[e.csid := r.slot], r.slot.full);
    }
  }

  // ---------------------------------------------------------------- header compression

  /** The same stream sent uncompressed: every message opened with a full header. */
  ghost function Plain(lanes: Lanes, run: seq<Event>, chunkSize: nat): seq<Event>
    requires LanesOk(lanes) && chunkSize >= 1 && LegalRun(lanes, run, chunkSize)
    decreases run
  {
    if run == [] then []
    else
      AfterOk(lanes, run[0], chunkSize);
      [Uncompressed(lanes, run[0], chunkSize)] + Plain(After(lanes, run[0], chunkSize), run[1..], chunkSize)
  }

  function Uncompressed(lanes: Lanes, e: Event, chunkSize: nat): Event
    requires Legal(lanes, e, chunkSize)
  {
    match e
    case Next(csid) => e
    case Open(csid, o, data) =>
      var m := Resolve(lanes, csid, o, data).msg;
      Open(csid, Whole(m.timestamp, m.typeId, m.streamId), data)
  }

  /** Every message of the run has a timestamp that a full header can carry. */
  ghost predicate TimesSafe(lanes: Lanes, run: seq<Event>, chunkSize: nat)
    requires LanesOk(lanes) && chunkSize >= 1 && LegalRun(lanes, run, chunkSize)
    decreases run
  {
    run == [] ||
    (AfterOk(lanes, run[0], chunkSize);
     (run[0].Open? ==> SafeTime(Active(lanes, run[0], chunkSize).msg.timestamp, |run[0].data|, chunkSize)) &&
     TimesSafe(After(lanes, run[0], chunkSize), run[1..], chunkSize))
  }

  /** Lanes with the same messages under way, however their headers were compressed. */
  ghost predicate SameTraffic(a: Lanes, b: Lanes) {
    a.Keys == b.Keys && forall csid :: csid in a ==> a[csid].msg == b[csid].msg && a[csid].sent == b[csid].sent
  }

  lemma {:induction false} PlainCompletesTheSame(a: Lanes, b: Lanes, run: seq<Event>, chunkSize: nat)
    requires chunkSize >= 1 && LanesOk(a) && LanesOk(b) && SameTraffic(a, b)
    requires LegalRun(a, run, chunkSize) && TimesSafe(a, run, chunkSize)
    ensures LegalRun(b, Plain(a, run, chunkSize), chunkSize)
    ensures Completed(b, Plain(a, run, chunkSize), chunkSize) == Completed(a, run, chunkSize)
    decreases run
  {
    hide Legal, Completes, After, SameTraffic, Uncompressed, LanesOk, SafeTime, Active;
    if run != [] {
      var e, p := run[0], Uncompressed(a, run[0], chunkSize);
      AfterOk(a, e, chunkSize);
      PlainStep(a, b, e, chunkSize);
      var a', b' := After(a, e, chunkSize), After(b, p, chunkSize);
      PlainCompletesTheSame(a', b', run[1..], chunkSize);
      var rest := Plain(a', run[1..], chunkSize);
      assert Plain(a, run, chunkSize) == [p] + rest;
      assert ([p] + rest)[1..] == rest;
    }
  }

  lemma PlainStep(a: Lanes, b: Lanes, e: Event, chunkSize: nat)
    requires chunkSize >= 1 && LanesOk(a) && LanesOk(b) && SameTraffic(a, b) && Legal(a, e, chunkSize)
    requires e.Open? ==> SafeTime(Active(a, e, chunkSize).msg.timestamp, |e.data|, chunkSize)
    ensures var p := Uncompressed(a, e, chunkSize);
      && Legal(b, p, chunkSize) && LanesOk(After(b, p, chunkSize))
      && SameTraffic(After(a, e, chunkSize), After(b, p, chunkSize))
      && Completes(a, e, chunkSize) == Completes(b, p, chunkSize)
  {
    var p := Uncompressed(a, e, chunkSize);
    AfterOk(b, p, chunkSize);
  }

  /**
    Header compression preserves meaning: a stream with any mix of the four header forms delivers the very messages
    that the same stream delivers when every message carries its full header.
   */
  lemma CompressionPreservesMeaning(run: seq<Event>, chunkSize: nat, t: Table, u: Table, first: bool)
    requires chunkSize >= 1 && TableOk(t) && TableOk(u)
    requires LegalRun(map[], run, chunkSize) && TimesSafe(map[], run, chunkSize)
    ensures LegalRun(map[], Plain(map[], run, chunkSize), chunkSize)
    ensures Receive(t, chunkSize, Wire(map[], run, chunkSize), first) ==
      Receive(u, chunkSize, Wire(map[], Plain(map[], run, chunkSize), chunkSize), first)
  {
    PlainCompletesTheSame(map[], map[], run, chunkSize);
    RunDelivers(map[], run, chunkSize, t, first);
    RunDelivers(map[], Plain(map[], run, chunkSize), chunkSize, u, first);
  }

  // ---------------------------------------------------------------- fmt 3 after fmt 0

  /** A connection on which nothing has been received: every chunk stream stands at the zero Chunk. */
  function Fresh(csids: set<nat>): Lanes {
    map csid | csid in csids :: Lane(Message(csid, 0, 0, 0, []), 0, true, 0, 0, false)
  }

  lemma FreshInStep(csids: set<nat>)
    requires forall csid :: csid in csids ==> SafeCsid(csid)
    ensures LanesOk(Fresh(csids)) && InStep(Fresh(csids), map[])
  {
  }

  /** One chunk stream by section 5.3.1.2.4: a message without a delta of its own sets the delta to its timestamp. */
  datatype Spec = Spec(msg: Message, delta: nat)

  type Specs = map<nat, Spec>

  function FreshSpecs(csids: set<nat>): Specs {
    map csid | csid in csids :: Spec(Message(csid, 0, 0, 0, []), 0)
  }

  /** The message that the specification has an opening stand for. */
  function Specified(specs: Specs, csid: nat, o: Opening, data: seq<byte>): Spec
    requires o.Whole? || csid in specs
  {
    match o
    case Whole(timestamp, typeId, streamId) => Spec(Message(csid, timestamp, typeId, streamId, data), timestamp)
    case Delta(delta, typeId) =>
      var m := specs[csid].msg;
      Spec(Message(csid, (m.timestamp + delta) % TWO_TO_THE_32, typeId, m.streamId, data), delta)
    case SameLength(delta) =>
      var m := specs[csid].msg;
      Spec(Message(csid, (m.timestamp + delta) % TWO_TO_THE_32, m.typeId, m.streamId, data), delta)
    case Repeat =>
      var m, delta := specs[csid].msg, specs[csid].delta;
      Spec(Message(csid, (m.timestamp + delta) % TWO_TO_THE_32, m.typeId, m.streamId, data), delta)
  }

  function SpecAfter(specs: Specs, e: Event): Specs
    requires e.Open? && !e.opening.Whole? ==> e.csid in specs
  {
    if e.Open? then specs[e.csid := Specified(specs, e.csid, e.opening, e.data)] else specs
  }

  /** The messages a run completes, as the specification reads its headers. */
  ghost function SpecCompleted(specs: Specs, lanes: Lanes, run: seq<Event>, chunkSize: nat): seq<Message>
    requires LanesOk(lanes) && chunkSize >= 1 && LegalRun(lanes, run, chunkSize) && lanes.Keys == specs.Keys
    decreases run
  {
    if run == [] then []
    else
      AfterOk(lanes, run[0], chunkSize);
      SpecCompletes(specs, lanes, run[0], chunkSize) +
      SpecCompleted(SpecAfter(specs, run[0]), After(lanes, run[0], chunkSize), run[1..], chunkSize)
  }

  function SpecCompletes(specs: Specs, lanes: Lanes, e: Event, chunkSize: nat): seq<Message>
    requires Legal(lanes, e, chunkSize) && LanesOk(lanes) && lanes.Keys == specs.Keys
  {
    if Completes(lanes, e, chunkSize) == [] then [] else [SpecAfter(specs, e)[e.csid].msg]
  }

  /** A fmt 3 chunk that opens a message straight after a fmt 0 one finds the last delta equal to the timestamp. */
  predicate Coincides(lanes: Lanes, e: Event)
    requires e.Open? && e.opening.Repeat? ==> e.csid in lanes
  {
    e.Open? && e.opening.Repeat? && lanes[e.csid].whole ==> lanes[e.csid].delta == lanes[e.csid].msg.timestamp
  }

  ghost predicate AllCoincide(lanes: Lanes, run: seq<Event>, chunkSize: nat)
    requires LanesOk(lanes) && chunkSize >= 1 && LegalRun(lanes, run, chunkSize)
    decreases run
  {
    run == [] || (
      AfterOk(lanes, run[0], chunkSize);
      Coincides(lanes, run[0]) && AllCoincide(After(lanes, run[0], chunkSize), run[1..], chunkSize))
  }

  /** No message is left unfinished. */
  ghost predicate EndsIdle(lanes: Lanes, run: seq<Event>, chunkSize: nat)
    requires LanesOk(lanes) && chunkSize >= 1 && LegalRun(lanes, run, chunkSize)
    decreases run
  {
    if run == [] then forall csid :: csid in lanes ==> Idle(lanes[csid])
    else
      AfterOk(lanes, run[0], chunkSize);
      EndsIdle(After(lanes, run[0], chunkSize), run[1..], chunkSize)
  }

  /** Code and specification know the same of a chunk stream, but for the delta after a full header. */
  ghost predicate Agrees(lane: Lane, spec: Spec) {
    lane.msg == spec.msg && spec.delta == if lane.whole then lane.msg.timestamp else lane.delta
  }

  ghost predicate AllAgree(lanes: Lanes, specs: Specs) {
    lanes.Keys == specs.Keys && forall csid :: csid in lanes ==> Agrees(lanes[csid], specs[csid])
  }

  /** One opening: they go on agreeing, or part over the timestamp of this very message. */
  lemma AgreementStep(lanes: Lanes, specs: Specs, e: Event, chunkSize: nat)
    requires chunkSize >= 1 && LanesOk(lanes) && Legal(lanes, e, chunkSize) && AllAgree(lanes, specs)
    ensures Coincides(lanes, e) ==> AllAgree(After(lanes, e, chunkSize), SpecAfter(specs, e))
    ensures !Coincides(lanes, e) ==>
      After(lanes, e, chunkSize)[e.csid].msg != SpecAfter(specs, e)[e.csid].msg
  {
    var after, specs' := After(lanes, e, chunkSize), SpecAfter(specs, e);
    assert after.Keys == specs'.Keys;
    if e.Open? && e.opening.Repeat? {
      assert LaneOk(e.csid, lanes[e.csid]);
      var m := lanes[e.csid].msg;
      SumsDiffer(m.timestamp, lanes[e.csid].delta, specs[e.csid].delta);
    }
  }

  lemma SumsDiffer(t: nat, a: nat, b: nat)
    requires a < TWO_TO_THE_32 && b < TWO_TO_THE_32
    ensures (t + a) % TWO_TO_THE_32 == (t + b) % TWO_TO_THE_32 <==> a == b
  {
    if a < b {
      Apart(t, a, b);
    } else if b < a {
      Apart(t, b, a);
    }
  }

  lemma Apart(t: nat, a: nat, b: nat)
    requires a < b < TWO_TO_THE_32
    ensures (t + a) % TWO_TO_THE_32 != (t + b) % TWO_TO_THE_32
  {
    var q, r := (t + a) / TWO_TO_THE_32, (t + b) / TWO_TO_THE_32;
    assert t + a == q * TWO_TO_THE_32 + (t + a) % TWO_TO_THE_32;
    assert t + b == r * TWO_TO_THE_32 + (t + b) % TWO_TO_THE_32;
  }

  lemma CompletesMessage(lanes: Lanes, e: Event, chunkSize: nat)
    requires chunkSize >= 1 && LanesOk(lanes) && Legal(lanes, e, chunkSize)
    ensures var lane := After(lanes, e, chunkSize)[e.csid];
      Completes(lanes, e, chunkSize) == if Idle(lane) then [lane.msg] else []
  {
  }

  /** An unfinished message that the two read differently will be completed, and will differ then. */
  lemma {:induction false} PartForGood(lanes: Lanes, specs: Specs, run: seq<Event>, chunkSize: nat, csid: nat)
    requires chunkSize >= 1 && LanesOk(lanes) && LegalRun(lanes, run, chunkSize) && lanes.Keys == specs.Keys
    requires EndsIdle(lanes, run, chunkSize)
    requires csid in lanes && !Idle(lanes[csid]) && lanes[csid].msg != specs[csid].msg
    ensures Completed(lanes, run, chunkSize) != SpecCompleted(specs, lanes, run, chunkSize)
    decreases run
  {
    hide Completes, Idle;
    if run == [] {
      assert false;
    } else {
      var e := run[0];
      AfterOk(lanes, e, chunkSize);
      CompletesMessage(lanes, e, chunkSize);
      StaysUnfinished(lanes, specs, e, chunkSize, csid);
      var lanes', specs' := After(lanes, e, chunkSize), SpecAfter(specs, e);
      var a, b := Completes(lanes, e, chunkSize), SpecCompletes(specs, lanes, e, chunkSize);
      var s, t := Completed(lanes', run[1..], chunkSize), SpecCompleted(specs', lanes', run[1..], chunkSize);
      if !Idle(lanes'[csid]) {
        PartForGood(lanes', specs', run[1..], chunkSize, csid);
      }
      hide Completed, SpecCompleted, SpecCompletes, After, SpecAfter;
      DifferStill(a, b, s, t);
      Unrolled(lanes, specs, run, chunkSize);
    }
  }

  lemma StaysUnfinished(lanes: Lanes, specs: Specs, e: Event, chunkSize: nat, csid: nat)
    requires chunkSize >= 1 && LanesOk(lanes) && Legal(lanes, e, chunkSize) && lanes.Keys == specs.Keys
    requires csid in lanes && !Idle(lanes[csid]) && lanes[csid].msg != specs[csid].msg
    ensures After(lanes, e, chunkSize)[csid].msg != SpecAfter(specs, e)[csid].msg
    ensures After(lanes, e, chunkSize).Keys == SpecAfter(specs, e).Keys
    ensures Idle(After(lanes, e, chunkSize)[csid]) ==> csid == e.csid
  {
  }

  lemma DifferStill(a: seq<Message>, b: seq<Message>, s: seq<Message>, t: seq<Message>)
    requires |a| == |b| && (a != b || s != t)
    ensures a + s != b + t
  {
    assert (a + s)[..|a|] == a && (b + t)[..|a|] == b;
    assert (a + s)[|a|..] == s && (b + t)[|a|..] == t;
  }

  lemma Unrolled(lanes: Lanes, specs: Specs, run: seq<Event>, chunkSize: nat)
    requires chunkSize >= 1 && LanesOk(lanes) && LegalRun(lanes, run, chunkSize) && lanes.Keys == specs.Keys
    requires run != []
    ensures LanesOk(After(lanes, run[0], chunkSize))
    ensures var lanes', specs' := After(lanes, run[0], chunkSize), SpecAfter(specs, run[0]);
      && Completed(lanes, run, chunkSize) == Completes(lanes, run[0], chunkSize) +
           Completed(lanes', run[1..], chunkSize)
      && SpecCompleted(specs, lanes, run, chunkSize) == SpecCompletes(specs, lanes, run[0], chunkSize) +
           SpecCompleted(specs', lanes', run[1..], chunkSize)
  {
    AfterOk(lanes, run[0], chunkSize);
  }

  lemma {:induction false} CompletedExactly(lanes: Lanes, specs: Specs, run: seq<Event>, chunkSize: nat)
    requires chunkSize >= 1 && LanesOk(lanes) && LegalRun(lanes, run, chunkSize) && AllAgree(lanes, specs)
    ensures AllCoincide(lanes, run, chunkSize) ==>
      Completed(lanes, run, chunkSize) == SpecCompleted(specs, lanes, run, chunkSize)
    ensures EndsIdle(lanes, run, chunkSize) && !AllCoincide(lanes, run, chunkSize) ==>
      Completed(lanes, run, chunkSize) != SpecCompleted(specs, lanes, run, chunkSize)
    decreases run
  {
    if run != [] {
      var e := run[0];
      AfterOk(lanes, e, chunkSize);
      CompletesMessage(lanes, e, chunkSize);
      AgreementStep(lanes, specs, e, chunkSize);
      Unrolled(lanes, specs, run, chunkSize);
      var lanes', specs' := After(lanes, e, chunkSize), SpecAfter(specs, e);
      var a, b := Completes(lanes, e, chunkSize), SpecCompletes(specs, lanes, e, chunkSize);
      var s, t := Completed(lanes', run[1..], chunkSize), SpecCompleted(specs', lanes', run[1..], chunkSize);
      assert |a| == |b| && (a == b || lanes'[e.csid].msg != specs'[e.csid].msg);
      if Coincides(lanes, e) {
        CompletedExactly(lanes', specs', run[1..], chunkSize);
      } else if EndsIdle(lanes, run, chunkSize) && !Idle(lanes'[e.csid]) {
        PartForGood(lanes', specs', run[1..], chunkSize, e.csid);
      }
      hide Completed, SpecCompleted, Completes, SpecCompletes, After, SpecAfter, Legal, Coincides;
      if a != b || s != t {
        DifferStill(a, b, s, t);
      }
    }
  }

  /**
    Where the code and section 5.3.1.2.4 of the RTMP 1.0 specification part. On a fresh connection a fmt 3 chunk may
    open a message wherever the last one is finished, also straight after a fmt 0 one. What is delivered is what the
    specification says if, and for runs without unfinished messages only if, at every such opening the last delta on
    the csid equals the timestamp of the fmt 0 message.
   */
  lemma RepeatAfterWhole(csids: set<nat>, run: seq<Event>, chunkSize: nat)
    requires chunkSize >= 1 && (forall csid :: csid in csids ==> SafeCsid(csid))
    requires LanesOk(Fresh(csids)) && LegalRun(Fresh(csids), run, chunkSize)
    ensures var lanes, specs := Fresh(csids), FreshSpecs(csids);
      var got := Receive(map[], chunkSize, Wire(lanes, run, chunkSize), true);
      && got == Completed(lanes, run, chunkSize)
      && (AllCoincide(lanes, run, chunkSize) ==> got == SpecCompleted(specs, lanes, run, chunkSize))
      && (EndsIdle(lanes, run, chunkSize) ==>
            (got == SpecCompleted(specs, lanes, run, chunkSize) <==> AllCoincide(lanes, run, chunkSize)))
  {
    hide Receive, Wire, Completed, SpecCompleted, AllCoincide, EndsIdle, LegalRun;
    FreshInStep(csids);
    RunDelivers(Fresh(csids), run, chunkSize, map[], true);
    CompletedExactly(Fresh(csids), FreshSpecs(csids), run, chunkSize);
  }

  // ---------------------------------------------------------------- deltas of 0xffffff

  /**
    Under fmt 1 and fmt 2 a delta field of 0xffffff has the extended field behind it taken for the timestamp before, and
    0xffffff added to that. Section 5.3.1.3 of the RTMP 1.0 specification has the extended field be the delta. The two
    agree if and only if the timestamp before was 0xffffff.
   */
  lemma ExtendedDelta<D>(c: Chunk<D>, extended: nat, length: nat, typeId: nat, rest: seq<byte>)
    requires (c.fmt == 1 || c.fmt == 2) && c.timestamp < TWO_TO_THE_32 && EXTENDED <= extended < TWO_TO_THE_32
    requires length < TWO_TO_THE_24 && typeId < 256
    ensures var message := if c.fmt == 1 then ToBE(length, 3) + ToBE(typeId, 1) else [];
      var (d, after) := ReadHeader(c, ToBE(EXTENDED, 3) + (message + (ToBE(extended, 4) + rest)));
      && after == rest && d.timestamp == (extended + EXTENDED) % TWO_TO_THE_32
      && (d.timestamp == (c.timestamp + extended) % TWO_TO_THE_32 <==> c.timestamp == EXTENDED)
  {
    hide ToBE, ReadUint, Skip;
    var tail := ToBE(extended, 4) + rest;
    ReadBig(extended, 4, rest);
    if c.fmt == 1 {
      var r2 := ToBE(typeId, 1) + tail;
      assert ToBE(length, 3) + ToBE(typeId, 1) + tail == ToBE(length, 3) + r2;
      ReadBig(EXTENDED, 3, ToBE(length, 3) + r2);
      ReadBig(length, 3, r2);
      ReadBig(typeId, 1, tail);
    } else {
      assert [] + tail == tail;
      ReadBig(EXTENDED, 3, tail);
    }
    SumsDiffer(extended, EXTENDED, c.timestamp);
    assert c.timestamp + extended == extended + c.timestamp;
  }

  // ---------------------------------------------------------------- MessageSplit, interleaved

  /** What MessageSplit can send so that MessageMerge gets it back. */
  predicate Sendable(m: Message, chunkSize: nat) {
    && SafeCsid(m.csid) && SafeTime(m.timestamp, |m.data|, chunkSize)
    && |m.data| < TWO_TO_THE_24 && m.typeId < 256 && m.streamId < TWO_TO_THE_32
  }

  type Queues = map<nat, seq<seq<byte>>>

  function SplitAll(msgs: map<nat, Message>, chunkSize: nat): (q: Queues)
    requires chunkSize >= 1
    ensures q.Keys == msgs.Keys
  {
    map csid | csid in msgs :: Split(msgs[csid], chunkSize)
  }

  /** `order` names, for every chunk on the wire, the chunk stream it is the next chunk of. */
  ghost predicate Schedules(queues: Queues, order: seq<nat>)
    decreases order
  {
    order == [] ||
    (order[0] in queues && queues[order[0]] != [] && Schedules(Served(queues, order[0]), order[1..]))
  }

  function Served(queues: Queues, csid: nat): Queues
    requires csid in queues && queues[csid] != []
  {
    queues[csid := queues[csid][1..]]
  }

  ghost function Interleave(queues: Queues, order: seq<nat>): seq<byte>
    requires Schedules(queues, order)
    decreases order
  {
    if order == [] then []
    else queues[order[0]][0] + Interleave(Served(queues, order[0]), order[1..])
  }

  /** The chunk streams in the order in which their last chunk is sent. */
  ghost function Finished(queues: Queues, order: seq<nat>): (r: seq<nat>)
    requires Schedules(queues, order)
    ensures forall csid :: csid in r ==> csid in queues
    decreases order
  {
    if order == [] then []
    else
      (if |queues[order[0]]| == 1 then [order[0]] else []) + Finished(Served(queues, order[0]), order[1..])
  }

  ghost function Left(queues: Queues, order: seq<nat>): Queues
    requires Schedules(queues, order)
    decreases order
  {
    if order == [] then queues else Left(Served(queues, order[0]), order[1..])
  }

  /** Every chunk stream finishes once, and just those whose chunks have all been sent. */
  lemma {:induction false} FinishedOnce(queues: Queues, order: seq<nat>, csid: nat)
    requires Schedules(queues, order) && csid in queues
    ensures csid in Left(queues, order)
    ensures multiset(Finished(queues, order))[csid] ==
      if queues[csid] != [] && Left(queues, order)[csid] == [] then 1 else 0
    decreases order
  {
    if order != [] {
      FinishedOnce(Served(queues, order[0]), order[1..], csid);
      if queues[csid] == [] {
        EmptyStaysEmpty(Served(queues, order[0]), order[1..], csid);
      } else if csid == order[0] && |queues[csid]| == 1 {
        EmptyStaysEmpty(Served(queues, order[0]), order[1..], csid);
      }
    }
  }

  lemma {:induction false} EmptyStaysEmpty(queues: Queues, order: seq<nat>, csid: nat)
    requires Schedules(queues, order) && csid in queues && queues[csid] == []
    ensures csid in Left(queues, order) && Left(queues, order)[csid] == []
    decreases order
  {
    if order != [] {
      EmptyStaysEmpty(Served(queues, order[0]), order[1..], csid);
    }
  }

  function Select(msgs: map<nat, Message>, csids: seq<nat>): (r: seq<Message>)
    requires forall csid :: csid in csids ==> csid in msgs
    ensures |r| == |csids|
    decreases csids
  {
    if csids == [] then [] else [msgs[csids[0]]] + Select(msgs, csids[1..])
  }

  /** The chunks a lane has still to send. */
  function Pending(lane: Lane, chunkSize: nat): seq<seq<byte>>
    requires chunkSize >= 1 && lane.sent <= |lane.msg.data|
  {
    Continuations(lane.msg.csid, lane.time, lane.msg.data[lane.sent..], chunkSize)
  }

  /** Queues and lanes agree: a stream not begun has its whole message queued, a begun one the chunks left. */
  ghost predicate QueuesAgree(msgs: map<nat, Message>, queues: Queues, lanes: Lanes, chunkSize: nat)
    requires chunkSize >= 1 && LanesOk(lanes)
  {
    && queues.Keys == msgs.Keys && lanes.Keys <= msgs.Keys
    && (forall csid :: csid in lanes ==> Begun(msgs[csid], queues[csid], csid, lanes[csid], chunkSize))
    && (forall csid :: csid in msgs && csid !in lanes ==> queues[csid] == Split(msgs[csid], chunkSize))
  }

  ghost predicate Begun(m: Message, queue: seq<seq<byte>>, csid: nat, lane: Lane, chunkSize: nat)
    requires chunkSize >= 1 && LaneOk(csid, lane)
  {
    lane.msg == m && queue == Pending(lane, chunkSize)
  }

  function SendNext(msgs: map<nat, Message>, lanes: Lanes, csid: nat): Event
    requires csid in msgs
  {
    if csid in lanes then Next(csid)
    else Open(csid, Whole(msgs[csid].timestamp, msgs[csid].typeId, msgs[csid].streamId), msgs[csid].data)
  }

  lemma PendingStep(lane: Lane, chunkSize: nat)
    requires chunkSize >= 1 && LaneOk(lane.msg.csid, lane)
    ensures Idle(lane) <==> Pending(lane, chunkSize) == []
    ensures var lane' := Advanced(lane, chunkSize);
      var head := HeaderBytes(3, lane.msg.csid, lane.time, 0, 0, 0) + lane.msg.data[lane.sent..lane'.sent];
      !Idle(lane) ==> Pending(lane, chunkSize) == [head] + Pending(lane', chunkSize)
  {
    if !Idle(lane) {
      var data, n := lane.msg.data[lane.sent..], Min(|lane.msg.data| - lane.sent, chunkSize);
      assert data[..n] == lane.msg.data[lane.sent..lane.sent + n];
      assert data[n..] == lane.msg.data[lane.sent + n..];
    }
  }

  lemma HeadOfBegun(lanes: Lanes, csid: nat, chunkSize: nat)
    requires chunkSize >= 1 && LanesOk(lanes) && csid in lanes && Pending(lanes[csid], chunkSize) != []
    ensures Legal(lanes, Next(csid), chunkSize)
    ensures Pending(lanes[csid], chunkSize) ==
      [EventBytes(lanes, Next(csid), chunkSize)] + Pending(Advanced(lanes[csid], chunkSize), chunkSize)
  {
    var lane := lanes[csid];
    var m := lane.msg;
    PendingStep(lane, chunkSize);
    assert Fields(3, lane.time, |m.data|, m.typeId, m.streamId) == Fields(3, lane.time, 0, 0, 0);
    hide Fields, BasicHeader, Pending;
  }

  lemma HeadOfFresh(m: Message, lanes: Lanes, chunkSize: nat)
    requires chunkSize >= 1 && LanesOk(lanes) && m.csid !in lanes && Sendable(m, chunkSize)
    ensures var e := Open(m.csid, Whole(m.timestamp, m.typeId, m.streamId), m.data);
      var lane' := Advanced(Lane(m, 0, false, m.timestamp, 0, true), chunkSize);
      && Legal(lanes, e, chunkSize) && Active(lanes, e, chunkSize) == Lane(m, 0, false, m.timestamp, 0, true)
      && Split(m, chunkSize) == [EventBytes(lanes, e, chunkSize)] + Pending(lane', chunkSize)
  {
    hide HeaderBytes, Continuations;
    assert m.data[0..Min(|m.data|, chunkSize)] == m.data[..Min(|m.data|, chunkSize)];
  }

  lemma AgreementKept(msgs: map<nat, Message>, queues: Queues, lanes: Lanes, csid: nat, lane: Lane, chunkSize: nat)
    requires chunkSize >= 1 && LanesOk(lanes) && QueuesAgree(msgs, queues, lanes, chunkSize)
    requires csid in queues && queues[csid] != [] && LaneOk(csid, lane)
    requires Begun(msgs[csid], queues[csid][1..], csid, lane, chunkSize)
    ensures LanesOk(lanes[csid := lane]) && QueuesAgree(msgs, Served(queues, csid), lanes[csid := lane], chunkSize)
  {
    hide LaneOk, Begun, Split;
  }

  lemma ServeStep(msgs: map<nat, Message>, queues: Queues, lanes: Lanes, csid: nat, chunkSize: nat)
    requires chunkSize >= 1 && LanesOk(lanes) && QueuesAgree(msgs, queues, lanes, chunkSize)
    requires forall c :: c in msgs ==> msgs[c].csid == c && Sendable(msgs[c], chunkSize)
    requires csid in queues && queues[csid] != []
    ensures csid in msgs
    ensures var e := SendNext(msgs, lanes, csid);
      && Legal(lanes, e, chunkSize)
      && e.csid == csid
      && LanesOk(After(lanes, e, chunkSize))
      && queues[csid][0] == EventBytes(lanes, e, chunkSize)
      && QueuesAgree(msgs, Served(queues, csid), After(lanes, e, chunkSize), chunkSize)
      && Completes(lanes, e, chunkSize) == if |queues[csid]| == 1 then [msgs[csid]] else []
  {
    hide EventBytes, Legal, Sendable, Pending, Split, Resolve, Idle;
    var e := SendNext(msgs, lanes, csid);
    if csid in lanes {
      HeadOfBegun(lanes, csid, chunkSize);
    } else {
      HeadOfFresh(msgs[csid], lanes, chunkSize);
    }
    AfterOk(lanes, e, chunkSize);
    var lane' := Advanced(Active(lanes, e, chunkSize), chunkSize);
    assert queues[csid] == [EventBytes(lanes, e, chunkSize)] + Pending(lane', chunkSize);
    assert LaneOk(csid, lane') by {
      assert After(lanes, e, chunkSize)[csid] == lane';
    }
    AgreementKept(msgs, queues, lanes, csid, lane', chunkSize);
    PendingStep(lane', chunkSize);
  }

  /**
    The round trip under interleaving: messages on distinct chunk streams, each cut as MessageSplit cuts it, their
    chunks interleaved in any order. MessageMerge delivers exactly those messages, in the order in which their last
    chunks arrive.
   */
  lemma InterleavingDelivers(msgs: map<nat, Message>, order: seq<nat>, chunkSize: nat, table: Table, first: bool)
    requires chunkSize >= 1 && TableOk(table)
    requires forall csid :: csid in msgs ==> msgs[csid].csid == csid && Sendable(msgs[csid], chunkSize)
    requires Schedules(SplitAll(msgs, chunkSize), order)
    ensures Receive(table, chunkSize, Interleave(SplitAll(msgs, chunkSize), order), first) ==
      Select(msgs, Finished(SplitAll(msgs, chunkSize), order))
  {
    InterleavingFrom(msgs, SplitAll(msgs, chunkSize), map[], order, chunkSize, table, first);
  }

  lemma {:induction false} InterleavingFrom(msgs: map<nat, Message>, queues: Queues, lanes: Lanes, order: seq<nat>,
                                            chunkSize: nat, table: Table, first: bool)
    requires chunkSize >= 1 && TableOk(table) && LanesOk(lanes) && InStep(lanes, table)
    requires forall csid :: csid in msgs ==> msgs[csid].csid == csid && Sendable(msgs[csid], chunkSize)
    requires QueuesAgree(msgs, queues, lanes, chunkSize) && Schedules(queues, order)
    ensures Receive(table, chunkSize, Interleave(queues, order), first) == Select(msgs, Finished(queues, order))
    decreases order
  {
    hide ChunkStep, EventBytes, Completes, Legal, After, Sendable, QueuesAgree, LanesOk, Matches;
    if order != [] {
      var csid := order[0];
      ServeStep(msgs, queues, lanes, csid, chunkSize);
      var e := SendNext(msgs, lanes, csid);
      var rest := Interleave(Served(queues, csid), order[1..]);
      StepInStep(lanes, e, chunkSize, table, rest, first);
      var r := ChunkStep(table, chunkSize, EventBytes(lanes, e, chunkSize) + rest, first);
      StaysInStep(lanes, e, chunkSize, table, r.slot);
      InterleavingFrom(msgs, Served(queues, csid), After(lanes, e, chunkSize), order[1..], chunkSize,
        table[csid := r.slot], r.slot.full);
      var done := Finished(Served(queues, csid), order[1..]);
      assert ([csid] + done)[1..] == done && [] + done == done;
    } else {
      assert Interleave(queues, order) == [];
      NothingLeft(table, chunkSize, first);
    }
  }

  lemma NothingLeft(table: Table, chunkSize: nat, first: bool)
    requires TableOk(table)
    ensures Receive(table, chunkSize, [], first) == []
  {
  }

  lemma StaysInStep(lanes: Lanes, e: Event, chunkSize: nat, table: Table, slot: Slot)
    requires Legal(lanes, e, chunkSize) && LanesOk(lanes) && TableOk(table) && InStep(lanes, table)
    requires Assembled(slot) && Matches(After(lanes, e, chunkSize)[e.csid], slot)
    ensures TableOk(table[e.csid := slot]) && InStep(After(lanes, e, chunkSize), table[e.csid := slot])
  {
    hide Legal, Matches, Assembled;
  }
}
