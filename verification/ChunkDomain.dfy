/**
  Exactly which headers MessageSplit can send: for every payload of the given length the message comes back alone
  and unchanged if and only if `Sendable` holds of its header. The half that says "only if" exhibits, for every
  header outside, a payload that does not come back.
 */
module ChunkDomain {
  import opened Bytes
  import opened Chunks
  import opened ChunkRuns

  /** MessageMerge on what MessageSplit wrote for m, at a fresh receiver, delivers m and nothing else. */
  ghost predicate ComesBack(m: Message, chunkSize: nat)
    requires chunkSize >= 1
  {
    Receive(map[], chunkSize, Flatten(Split(m, chunkSize)), true) == [m]
  }

  // ---------------------------------------------------------------- if

  function Times(csid: nat, n: nat): (r: seq<nat>)
    ensures |r| == n
    decreases n
  {
    if n == 0 then [] else [csid] + Times(csid, n - 1)
  }

  lemma {:induction false} AloneSchedules(csid: nat, queues: Queues)
    requires csid in queues
    ensures Schedules(queues, Times(csid, |queues[csid]|))
    ensures Interleave(queues, Times(csid, |queues[csid]|)) == Flatten(queues[csid])
    ensures Finished(queues, Times(csid, |queues[csid]|)) == if queues[csid] == [] then [] else [csid]
    decreases |queues[csid]|
  {
    var n := |queues[csid]|;
    if n > 0 {
      AloneSchedules(csid, Served(queues, csid));
      assert Times(csid, n)[1..] == Times(csid, n - 1);
    }
  }

  /** Whatever has been received before. */
  lemma SendableComesBack(m: Message, chunkSize: nat, table: Table, first: bool)
    requires chunkSize >= 1 && Sendable(m, chunkSize) && TableOk(table)
    ensures Receive(table, chunkSize, Flatten(Split(m, chunkSize)), first) == [m]
  {
    var msgs := map[m.csid := m];
    var queues := SplitAll(msgs, chunkSize);
    AloneSchedules(m.csid, queues);
    InterleavingDelivers(msgs, Times(m.csid, |queues[m.csid]|), chunkSize, table, first);
    hide *;
    assert Select(msgs, [m.csid]) == [m] by {
      SelectOne(msgs, m.csid);
    }
  }

  lemma SelectOne(msgs: map<nat, Message>, csid: nat)
    requires csid in msgs
    ensures Select(msgs, [csid]) == [msgs[csid]]
  {
    assert [csid][1..] == [];
  }

  // ---------------------------------------------------------------- only if: what a header cannot say

  ghost predicate Delivers(m: Message) {
    2 <= m.csid < 65600 && |m.data| < TWO_TO_THE_24 && m.timestamp < TWO_TO_THE_32 && m.typeId < 256
  }

  lemma {:induction false} ReceiveBounds(table: Table, chunkSize: nat, inp: seq<byte>, first: bool)
    requires TableOk(table)
    ensures forall m :: m in Receive(table, chunkSize, inp, first) ==> Delivers(m)
    decreases |inp|
  {
    match ChunkStep(table, chunkSize, inp, first)
    case Failed =>
    case Stepped(slot, rest) =>
      ReceiveBounds(table[slot.csid := slot], chunkSize, rest, slot.full);
  }

  /** Csids 320..383 go out as the csid 256 below them. */
  lemma {:induction false} SameChunks(csid: nat, time: nat, data: seq<byte>, chunkSize: nat)
    requires chunkSize >= 1 && 320 <= csid < 384
    ensures Continuations(csid, time, data, chunkSize) == Continuations(csid - 256, time, data, chunkSize)
    decreases |data|
  {
    BasicAlias(3, csid);
    hide BasicHeader;
    if data != [] {
      SameChunks(csid, time, data[Min(|data|, chunkSize)..], chunkSize);
    }
  }

  lemma BasicAlias(fmt: nat, csid: nat)
    requires fmt <= 3 && 320 <= csid < 384
    ensures BasicHeader(fmt, csid) == BasicHeader(fmt, csid - 256)
  {
  }

  lemma SameSplit(m: Message, chunkSize: nat)
    requires chunkSize >= 1 && 320 <= m.csid < 384
    ensures Split(m, chunkSize) == Split(m.(csid := m.csid - 256), chunkSize)
  {
    hide BasicHeader, Continuations, Fields;
    BasicAlias(0, m.csid);
    SameChunks(m.csid, m.timestamp, m.data[Min(|m.data|, chunkSize)..], chunkSize);
  }

  // ---------------------------------------------------------------- only if: timestamps that derail the receiver

  /**
    What stays true of every slot once a mark q has left the stream: a message that has begun does not begin with
    q, or has something else than p at the place `at`, where the second chunk's body belongs.
   */
  ghost predicate Derailed(data: seq<byte>, index: nat, at: nat, q: byte, p: byte)
    requires index <= |data|
  {
    index > 0 ==> data[0] != q || (index > at && data[at] != p)
  }

  ghost predicate AllDerailed(table: Table, at: nat, q: byte, p: byte)
    requires TableOk(table)
  {
    forall csid :: csid in table ==> Derailed(table[csid].msgData, table[csid].msgIndex, at, q, p)
  }

  lemma SkipMembers(inp: seq<byte>, n: nat)
    ensures forall b :: b in Skip(inp, n) ==> b in inp
  {
  }

  lemma HeaderMembers<D>(c: Chunk<D>, inp: seq<byte>)
    ensures forall b :: b in ReadHeader(c, inp).1 ==> b in inp
  {
    SkipMembers(inp, 3);
    var r1 := Skip(inp, 3);
    SkipMembers(r1, 3);
    SkipMembers(r1, 4);
    var r2 := Skip(r1, 3);
    SkipMembers(r2, 1);
    var r3 := Skip(r2, 1);
    SkipMembers(r3, 4);
    var r4 := Skip(r3, 4);
    SkipMembers(r4, 4);
    hide Skip, ReadUint;
  }

  lemma BodyDerailed(c: Slot, chunkSize: nat, inp: seq<byte>, at: nat, q: byte, p: byte)
    requires InRange(c) && Derailed(c.msgData, c.msgIndex, at, q, p) && q !in inp
    ensures var r := ReadBody(c, chunkSize, inp);
      r.Stepped? ==> Derailed(r.slot.msgData, r.slot.msgIndex, at, q, p) && q !in r.rest
  {
    var size := BodySize(c, chunkSize);
    if size <= |inp| && size > 0 {
      var data := Overwrite(c.msgData, c.msgIndex, inp[..size]);
      if c.msgIndex == 0 {
        assert data[0] == inp[0];
      } else {
        assert data[0] == c.msgData[0];
        assert c.msgIndex > at ==> data[at] == c.msgData[at];
      }
    }
  }

  lemma AssembleDerailed(c: Slot, chunkSize: nat, inp: seq<byte>, at: nat, q: byte, p: byte)
    requires InRange(c) && Derailed(c.msgData, c.msgIndex, at, q, p)
    requires c.fmt <= 3 ==> q !in ReadHeader(c, inp).1
    ensures var r := Assemble(c, chunkSize, inp);
      r.Stepped? ==> Derailed(r.slot.msgData, r.slot.msgIndex, at, q, p) && q !in r.rest
  {
    if c.fmt <= 3 {
      OpenedInRange(c, inp);
      HeaderBounds(c, inp);
      BodyDerailed(Opened(c, inp), chunkSize, ReadHeader(c, inp).1, at, q, p);
    }
  }

  lemma {:induction false} ReceiveDerailed(table: Table, chunkSize: nat, inp: seq<byte>, first: bool, at: nat, q: byte,
                                           p: byte)
    requires TableOk(table) && AllDerailed(table, at, q, p) && q !in inp
    ensures forall m :: m in Receive(table, chunkSize, inp, first) ==> Derailed(m.data, |m.data|, at, q, p)
    decreases |inp|
  {
    hide Assemble, Derailed;
    if inp != [] {
      var (fmt, csid, rest) := ReadBasic(inp);
      SkipMembers(inp[1..], 1);
      SkipMembers(inp[1..], 2);
      var c := Addressed(table, fmt, csid, first);
      HeaderMembers(c, rest);
      BlankDerailed(at, q, p);
      AssembleDerailed(c, chunkSize, rest, at, q, p);
      match ChunkStep(table, chunkSize, inp, first)
      case Failed =>
      case Stepped(slot, rest') =>
        ReceiveDerailed(table[slot.csid := slot], chunkSize, rest', slot.full, at, q, p);
    }
  }

  lemma BlankDerailed(at: nat, q: byte, p: byte)
    ensures Derailed(Lookup(map[], 0).msgData, Lookup(map[], 0).msgIndex, at, q, p)
  {
  }

  lemma {:induction false} FreshByte(taken: seq<byte>, n: byte)
    requires |taken| <= n
    ensures exists q: byte :: q <= n && q !in taken
    decreases n
  {
    if n in taken {
      var i :| 0 <= i < |taken| && taken[i] == n;
      var others := taken[..i] + taken[i + 1..];
      FreshByte(others, n - 1);
      var q: byte :| q <= n - 1 && q !in others;
      forall k | 0 <= k < |taken|
        ensures taken[k] != q
      {
        if k != i {
          assert taken[k] == if k < i then others[k] else others[k - 1];
        }
      }
      assert q !in taken;
    }
  }

  /** Bytes of a message's continuation chunks come from their headers or from its data. */
  lemma {:induction false} ContinuationMembers(csid: nat, time: nat, data: seq<byte>, chunkSize: nat, b: byte)
    requires chunkSize >= 1 && b in Flatten(Continuations(csid, time, data, chunkSize))
    ensures b in HeaderBytes(3, csid, time, 0, 0, 0) || b in data
    decreases |data|
  {
    hide HeaderBytes;
    var n := Min(|data|, chunkSize);
    var rest := Continuations(csid, time, data[n..], chunkSize);
    assert Continuations(csid, time, data, chunkSize)[1..] == rest;
    if b in Flatten(rest) {
      ContinuationMembers(csid, time, data[n..], chunkSize, b);
    }
  }

  function Marked(q: byte, p: byte, length: nat): (data: seq<byte>)
    ensures |data| == length
  {
    seq(length, i => if i == 0 then q else p)
  }

  /** A full header with timestamp 0xffffff: the receiver takes four bytes of what follows for the timestamp. */
  lemma MarkedReadsBack<D>(c: Chunk<D>, length: nat, typeId: nat, streamId: nat, rest: seq<byte>)
    requires c.fmt == 0 && length < TWO_TO_THE_24 && typeId < 256 && streamId < TWO_TO_THE_32
    ensures ReadHeader(c, Fields(0, EXTENDED, length, typeId, streamId) + rest) ==
      (c.(timestamp := ReadUint(rest, 4, BE), timeExted := true, msgLength := length, msgTypeId := typeId,
          msgStreamId := streamId, msgIndex := 0, msgRemain := length, full := false), Skip(rest, 4))
  {
    hide ToBE, ToLE, ReadUint, Skip;
    var r3 := ToLE(streamId, 4) + rest;
    var r2 := ToBE(typeId, 1) + r3;
    var r1 := ToBE(length, 3) + r2;
    assert Fields(0, EXTENDED, length, typeId, streamId) + rest == ToBE(EXTENDED, 3) + r1;
    ReadBig(EXTENDED, 3, r1);
    ReadBig(length, 3, r2);
    ReadBig(typeId, 1, r3);
    ReadLittle(streamId, rest);
  }

  lemma SplitParts(m: Message, chunkSize: nat)
    requires chunkSize >= 1
    ensures var n := Min(|m.data|, chunkSize);
      Flatten(Split(m, chunkSize)) == BasicHeader(0, m.csid) +
        (Fields(0, m.timestamp, |m.data|, m.typeId, m.streamId) +
         (m.data[..n] + Flatten(Continuations(m.csid, m.timestamp, m.data[n..], chunkSize))))
  {
    hide BasicHeader, Fields, Continuations, Split, Flatten;
    SplitShape(m, chunkSize);
  }

  /** One step from a derailed, or about to be derailed, slot: nothing delivered from here on is the marked data. */
  lemma DerailedFromHere(table: Table, chunkSize: nat, inp: seq<byte>, first: bool, at: nat, q: byte, p: byte)
    requires TableOk(table)
    requires var r := ChunkStep(table, chunkSize, inp, first);
      r.Stepped? ==>
        && q !in r.rest && Derailed(r.slot.msgData, r.slot.msgIndex, at, q, p)
        && forall csid :: csid in table && csid != r.slot.csid ==>
             Derailed(table[csid].msgData, table[csid].msgIndex, at, q, p)
    ensures forall m :: m in Receive(table, chunkSize, inp, first) ==> Derailed(m.data, |m.data|, at, q, p)
  {
    hide Derailed, ChunkStep;
    match ChunkStep(table, chunkSize, inp, first)
    case Failed =>
    case Stepped(slot, rest) =>
      ReceiveDerailed(table[slot.csid := slot], chunkSize, rest, slot.full, at, q, p);
  }

  /** Nothing in there has both the data and the timestamp of m. */
  ghost predicate Missing(m: Message, got: seq<Message>) {
    forall r :: r in got ==> r.data != m.data || r.timestamp != m.timestamp
  }

  /** Nothing that comes of the chunks of m has both its data and its timestamp. */
  ghost predicate NeverDelivered(m: Message, chunkSize: nat)
    requires chunkSize >= 1
  {
    Missing(m, Receive(map[], chunkSize, Flatten(Split(m, chunkSize)), true))
  }

  lemma HeaderSize(csid: nat, time: nat)
    ensures |HeaderBytes(3, csid, time, 0, 0, 0)| <= 7
  {
  }

  lemma NoContinuations(csid: nat, time: nat, chunkSize: nat)
    requires chunkSize >= 1
    ensures Flatten(Continuations(csid, time, [], chunkSize)) == []
  {
  }

  /** An empty message with the timestamp 0xffffff comes out with the timestamp 0. */
  lemma OnlyTheEmptyMessage(csid: nat, typeId: nat, streamId: nat, fields: seq<byte>, chunkSize: nat)
    requires chunkSize >= 1 && SafeCsid(csid) && typeId < 256 && streamId < TWO_TO_THE_32
    requires fields == Fields(0, EXTENDED, 0, typeId, streamId) + []
    ensures forall m :: m in Receive(map[], chunkSize, BasicHeader(0, csid) + fields, true) ==> m.timestamp == 0
  {
    hide Fields, BasicHeader;
    StepIsAssemble(map[], chunkSize, 0, csid, fields, true);
    var c := Addressed(map[], 0, csid, true);
    MarkedReadsBack(c, 0, typeId, streamId, []);
    var r := ChunkStep(map[], chunkSize, BasicHeader(0, csid) + fields, true);
    assert r.Stepped? ==> r.rest == [] && r.slot.timestamp == 0;
    if r.Stepped? {
      NothingLeft(map[r.slot.csid := r.slot], chunkSize, r.slot.full);
    }
  }

  /** A payload that does not come back under the timestamp 0xffffff. */
  lemma ExtendedMarkFails(csid: nat, typeId: nat, streamId: nat, length: nat, chunkSize: nat) returns (data: seq<byte>)
    requires chunkSize >= 1 && SafeCsid(csid) && typeId < 256 && streamId < TWO_TO_THE_32 && length < TWO_TO_THE_24
    ensures |data| == length
    ensures NeverDelivered(Message(csid, EXTENDED, typeId, streamId, data), chunkSize)
  {
    hide Fields, HeaderBytes, BasicHeader, Continuations, Flatten, Receive, Split;
    var hdr := HeaderBytes(3, csid, EXTENDED, 0, 0, 0);
    HeaderSize(csid, EXTENDED);
    FreshByte(hdr + [0], 8);
    var q: byte :| q <= 8 && q !in hdr + [0];
    data := Marked(q, 0, length);
    var m := Message(csid, EXTENDED, typeId, streamId, data);
    SplitParts(m, chunkSize);
    if length == 0 {
      NoContinuations(csid, EXTENDED, chunkSize);
      OnlyTheEmptyMessage(csid, typeId, streamId, Fields(0, EXTENDED, 0, typeId, streamId) + [], chunkSize);
    } else {
      MarkSwallowed(m, chunkSize, q);
    }
  }

  /** The four bytes taken for the timestamp begin with the mark: from there on the stream is without it. */
  lemma MarkSwallowed(m: Message, chunkSize: nat, q: byte)
    requires chunkSize >= 1 && SafeCsid(m.csid) && m.typeId < 256 && m.streamId < TWO_TO_THE_32
    requires m.timestamp == EXTENDED && 0 < |m.data| < TWO_TO_THE_24 && m.data[0] == q && q !in m.data[1..]
    requires q !in HeaderBytes(3, m.csid, EXTENDED, 0, 0, 0)
    requires |m.data| > chunkSize ==> m.data[chunkSize] == 0
    ensures NeverDelivered(m, chunkSize)
  {
    hide Fields, HeaderBytes, BasicHeader, Continuations, Flatten, Receive, Split, Opened, ReadBody, ChunkStep;
    var n := Min(|m.data|, chunkSize);
    var tail := Flatten(Continuations(m.csid, EXTENDED, m.data[n..], chunkSize));
    SplitParts(m, chunkSize);
    if q in tail {
      ContinuationMembers(m.csid, EXTENDED, m.data[n..], chunkSize, q);
    }
    var rest := m.data[..n] + tail;
    assert q !in Skip(rest, 4);
    var fields := Fields(0, EXTENDED, |m.data|, m.typeId, m.streamId) + rest;
    StepIsAssemble(map[], chunkSize, 0, m.csid, fields, true);
    var c := Addressed(map[], 0, m.csid, true);
    MarkedReadsBack(c, |m.data|, m.typeId, m.streamId, rest);
    OpenedInRange(c, fields);
    FreshNotBegun(c, fields, chunkSize, q);
    BodyDerailed(Opened(c, fields), chunkSize, Skip(rest, 4), chunkSize, q, 0);
    DerailedFromHere(map[], chunkSize, BasicHeader(0, m.csid) + fields, true, chunkSize, q, 0);
    NeverFromDerailed(m, Receive(map[], chunkSize, Flatten(Split(m, chunkSize)), true), chunkSize, q, 0);
  }

  lemma FreshNotBegun(c: Slot, inp: seq<byte>, chunkSize: nat, q: byte)
    requires InRange(c) && c.fmt == 0
    ensures Opened(c, inp).msgIndex == 0
    ensures Derailed(Opened(c, inp).msgData, 0, chunkSize, q, 0)
  {
  }

  /** The second chunk of a message with an extended timestamp: the receiver reads the repeated field as data. */
  lemma SecondChunkDerails(slot: Slot, chunkSize: nat, time: nat, rest: seq<byte>, q: byte, p: byte)
    requires chunkSize >= 1 && InRange(slot) && slot.fmt == 3
    requires slot.msgIndex == chunkSize < slot.msgLength && time < TWO_TO_THE_32
    requires p != ToBE(time, 4)[0] && q !in ToBE(time, 4) && q !in rest
    ensures var r := Assemble(slot, chunkSize, ToBE(time, 4) + rest);
      r.Stepped? ==> q !in r.rest && Derailed(r.slot.msgData, r.slot.msgIndex, chunkSize, q, p)
  {
    hide ToBE;
    var inp := ToBE(time, 4) + rest;
    assert ReadHeader(slot, inp) == (slot, inp) && Opened(slot, inp) == slot;
    var size := BodySize(slot, chunkSize);
    if size <= |inp| {
      var data := Overwrite(slot.msgData, slot.msgIndex, inp[..size]);
      assert data[chunkSize] == inp[0];
    }
  }

  /** A payload of more than one chunk that does not come back under a timestamp beyond 0xffffff. */
  lemma RepeatedFieldFails(csid: nat, timestamp: nat, typeId: nat, streamId: nat, length: nat, chunkSize: nat)
    returns (data: seq<byte>)
    requires chunkSize >= 1 && SafeCsid(csid) && typeId < 256 && streamId < TWO_TO_THE_32 && length < TWO_TO_THE_24
    requires EXTENDED < timestamp < TWO_TO_THE_32 && chunkSize < length
    ensures |data| == length
    ensures NeverDelivered(Message(csid, timestamp, typeId, streamId, data), chunkSize)
  {
    hide Receive, Flatten, Split, Continuations, Derailed, ChunkStep, Fields, BasicHeader, HeaderBytes, Missing, Marked,
      Assembled, SafeCsid, ToBE, Times;
    var q, p := PickMark(csid, timestamp);
    data := Marked(q, p, length);
    MarkedData(q, p, length, chunkSize);
    var m := Message(csid, timestamp, typeId, streamId, data);
    var slot := FirstChunkArrives(m, chunkSize);
    var tail := Flatten(Continuations(csid, timestamp, data[chunkSize..], chunkSize));
    FirstStep(chunkSize, Flatten(Split(m, chunkSize)), slot, tail);
    TailDerails(m, chunkSize, slot, q, p);
    NeverFromDerailed(m, Receive(map[], chunkSize, Flatten(Split(m, chunkSize)), true), chunkSize, q, p);
  }

  lemma NeverFromDerailed(m: Message, got: seq<Message>, at: nat, q: byte, p: byte)
    requires !Derailed(m.data, |m.data|, at, q, p)
    requires forall r :: r in got ==> Derailed(r.data, |r.data|, at, q, p)
    ensures Missing(m, got)
  {
    hide Derailed;
  }

  lemma PickMark(csid: nat, timestamp: nat) returns (q: byte, p: byte)
    requires EXTENDED < timestamp
    ensures p != ToBE(timestamp, 4)[0] && q != p && q !in HeaderBytes(3, csid, timestamp, 0, 0, 0)
  {
    p := if ToBE(timestamp, 4)[0] == 0 then 1 else 0;
    var hdr := HeaderBytes(3, csid, timestamp, 0, 0, 0);
    HeaderSize(csid, timestamp);
    hide HeaderBytes, ToBE;
    FreshByte(hdr + [p], 8);
    q :| q <= 8 && q !in hdr + [p];
  }

  lemma MarkedData(q: byte, p: byte, length: nat, chunkSize: nat)
    requires chunkSize >= 1 && chunkSize < length && q != p
    ensures var data := Marked(q, p, length);
      |data| == length && q !in data[chunkSize..] && !Derailed(data, length, chunkSize, q, p)
  {
  }

  lemma FirstChunkArrives(m: Message, chunkSize: nat) returns (slot: Slot)
    requires chunkSize >= 1 && SafeCsid(m.csid) && m.typeId < 256 && m.streamId < TWO_TO_THE_32
    requires EXTENDED < m.timestamp < TWO_TO_THE_32 && chunkSize < |m.data| < TWO_TO_THE_24
    ensures ChunkStep(map[], chunkSize, Flatten(Split(m, chunkSize)), true) ==
      Stepped(slot, Flatten(Continuations(m.csid, m.timestamp, m.data[chunkSize..], chunkSize)))
    ensures slot.csid == m.csid && !slot.full && slot.msgIndex == chunkSize && slot.msgLength == |m.data|
  {
    hide Fields, BasicHeader, ReadBody, Continuations, Flatten;
    SplitParts(m, chunkSize);
    var tail := Flatten(Continuations(m.csid, m.timestamp, m.data[chunkSize..], chunkSize));
    var body := m.data[..chunkSize] + tail;
    var fields := Fields(0, m.timestamp, |m.data|, m.typeId, m.streamId) + body;
    StepIsAssemble(map[], chunkSize, 0, m.csid, fields, true);
    var c := Addressed(map[], 0, m.csid, true);
    WholeReadsBack(c, m.timestamp, |m.data|, m.typeId, m.streamId, body);
    OpenedInRange(c, fields);
    FirstBody(Opened(c, fields), chunkSize, m.data[..chunkSize], tail);
    slot := ReadBody(Opened(c, fields), chunkSize, body).slot;
  }

  lemma TailDerails(m: Message, chunkSize: nat, slot: Slot, q: byte, p: byte)
    requires chunkSize >= 1 && SafeCsid(m.csid) && EXTENDED < m.timestamp < TWO_TO_THE_32
    requires Assembled(slot) && slot.csid == m.csid && slot.msgIndex == chunkSize < slot.msgLength == |m.data|
    requires p != ToBE(m.timestamp, 4)[0] && q !in HeaderBytes(3, m.csid, m.timestamp, 0, 0, 0)
    requires q !in m.data[chunkSize..]
    ensures forall r :: r in Receive(map[m.csid := slot], chunkSize,
      Flatten(Continuations(m.csid, m.timestamp, m.data[chunkSize..], chunkSize)), false) ==>
      Derailed(r.data, |r.data|, chunkSize, q, p)
  {
    var data := m.data[chunkSize..];
    var n := Min(|data|, chunkSize);
    assert n <= |data|;
    hide *;
    var rest := data[..n] + Flatten(Continuations(m.csid, m.timestamp, data[n..], chunkSize));
    LongHeader(m.csid, m.timestamp);
    ContinuationsShape(m.csid, m.timestamp, data, chunkSize);
    if q in rest {
      ContinuationMembers(m.csid, m.timestamp, data[n..], chunkSize, q);
    }
    var tail := BasicHeader(3, m.csid) + (ToBE(m.timestamp, 4) + rest);
    assert tail == Flatten(Continuations(m.csid, m.timestamp, data, chunkSize));
    SecondStep(slot, m.timestamp, rest, chunkSize, q, p);
    DerailedFromHere(map[m.csid := slot], chunkSize, tail, false, chunkSize, q, p);
  }

  lemma LongHeader(csid: nat, time: nat)
    requires time > EXTENDED
    ensures HeaderBytes(3, csid, time, 0, 0, 0) == BasicHeader(3, csid) + ToBE(time, 4)
  {
    hide BasicHeader, ToBE;
  }

  lemma SecondStep(slot: Slot, time: nat, rest: seq<byte>, chunkSize: nat, q: byte, p: byte)
    requires chunkSize >= 1 && SafeCsid(slot.csid) && time < TWO_TO_THE_32
    requires Assembled(slot) && slot.msgIndex == chunkSize < slot.msgLength
    requires p != ToBE(time, 4)[0] && q !in ToBE(time, 4) && q !in rest
    ensures TableOk(map[slot.csid := slot])
    ensures var r := ChunkStep(map[slot.csid := slot], chunkSize, BasicHeader(3, slot.csid) + (ToBE(time, 4) + rest),
        false);
      r.Stepped? ==>
        && q !in r.rest && Derailed(r.slot.msgData, r.slot.msgIndex, chunkSize, q, p)
        && r.slot.csid == slot.csid
  {
    hide BasicHeader, ToBE, Assemble, ChunkStep, Derailed;
    var table := map[slot.csid := slot];
    StepIsAssemble(table, chunkSize, 3, slot.csid, ToBE(time, 4) + rest, false);
    SecondChunkDerails(Addressed(table, 3, slot.csid, false), chunkSize, time, rest, q, p);
  }

  lemma FirstBody(c: Slot, chunkSize: nat, body: seq<byte>, tail: seq<byte>)
    requires InRange(c) && !c.full && c.msgIndex == 0 && |body| == chunkSize < c.msgRemain
    ensures var r := ReadBody(c, chunkSize, body + tail);
      && r.Stepped? && r.rest == tail && !r.slot.full && r.slot.msgIndex == chunkSize
      && r.slot.csid == c.csid && r.slot.msgLength == c.msgLength
  {
    assert (body + tail)[chunkSize..] == tail;
  }

  lemma FirstStep(chunkSize: nat, wire: seq<byte>, slot: Slot, tail: seq<byte>)
    requires ChunkStep(map[], chunkSize, wire, true) == Stepped(slot, tail) && !slot.full
    ensures TableOk(map[slot.csid := slot])
    ensures Receive(map[], chunkSize, wire, true) == Receive(map[slot.csid := slot], chunkSize, tail, false)
  {
    hide ChunkStep;
    assert map[][slot.csid := slot] == map[slot.csid := slot];
  }

  // ---------------------------------------------------------------- exactly

  /**
    For every header that fits its Go types and every chunk size: all payloads of this length come back if and only
    if the csid, the timestamp, the length and the type are sendable.
   */
  lemma ExactDomain(csid: nat, timestamp: nat, typeId: nat, streamId: nat, length: nat, chunkSize: nat)
    requires chunkSize >= 1 && timestamp < TWO_TO_THE_32 && streamId < TWO_TO_THE_32
    ensures (forall data: seq<byte> :: |data| == length ==>
              ComesBack(Message(csid, timestamp, typeId, streamId, data), chunkSize)) <==>
            SafeCsid(csid) && SafeTime(timestamp, length, chunkSize) && length < TWO_TO_THE_24 && typeId < 256
  {
    hide Receive, Flatten, Split, Sendable;
    if SafeCsid(csid) && SafeTime(timestamp, length, chunkSize) && length < TWO_TO_THE_24 && typeId < 256 {
      forall data: seq<byte> | |data| == length
        ensures ComesBack(Message(csid, timestamp, typeId, streamId, data), chunkSize)
      {
        IsSendable(csid, timestamp, typeId, streamId, data, chunkSize);
        SendableComesBack(Message(csid, timestamp, typeId, streamId, data), chunkSize, map[], true);
      }
    } else {
      var data := Counterexample(csid, timestamp, typeId, streamId, length, chunkSize);
      assert |data| == length && !ComesBack(Message(csid, timestamp, typeId, streamId, data), chunkSize);
    }
  }

  lemma IsSendable(csid: nat, timestamp: nat, typeId: nat, streamId: nat, data: seq<byte>, chunkSize: nat)
    requires SafeCsid(csid) && SafeTime(timestamp, |data|, chunkSize) && |data| < TWO_TO_THE_24 && typeId < 256
    requires streamId < TWO_TO_THE_32
    ensures Sendable(Message(csid, timestamp, typeId, streamId, data), chunkSize)
  {
  }

  lemma Counterexample(csid: nat, timestamp: nat, typeId: nat, streamId: nat, length: nat, chunkSize: nat)
    returns (data: seq<byte>)
    requires chunkSize >= 1 && timestamp < TWO_TO_THE_32 && streamId < TWO_TO_THE_32
    requires !(SafeCsid(csid) && SafeTime(timestamp, length, chunkSize) && length < TWO_TO_THE_24 && typeId < 256)
    ensures |data| == length && !ComesBack(Message(csid, timestamp, typeId, streamId, data), chunkSize)
  {
    hide SafeTime, ComesBack;
    data := Zeros(length);
    if csid < 2 || csid >= 65600 || length >= TWO_TO_THE_24 || typeId >= 256 {
      OutOfBounds(Message(csid, timestamp, typeId, streamId, data), chunkSize);
    } else if SafeTime(timestamp, length, chunkSize) {
      AliasComesBack(Message(csid, timestamp, typeId, streamId, data), chunkSize);
    } else {
      data := DerailedAnyhow(csid, timestamp, typeId, streamId, length, chunkSize);
    }
  }

  /** On a csid of 320..383 the message comes back, but on the csid 256 lower. */
  lemma AliasComesBack(m: Message, chunkSize: nat)
    requires chunkSize >= 1 && 320 <= m.csid < 384 && m.streamId < TWO_TO_THE_32
    requires SafeTime(m.timestamp, |m.data|, chunkSize) && |m.data| < TWO_TO_THE_24 && m.typeId < 256
    ensures !ComesBack(m, chunkSize)
  {
    hide Split, SafeTime;
    var alias := m.(csid := m.csid - 256);
    SameSplit(m, chunkSize);
    IsSendable(alias.csid, m.timestamp, m.typeId, m.streamId, m.data, chunkSize);
    SendableComesBack(alias, chunkSize, map[], true);
  }

  /** An unsafe timestamp on any csid, aliased or not. */
  lemma DerailedAnyhow(csid: nat, timestamp: nat, typeId: nat, streamId: nat, length: nat, chunkSize: nat)
    returns (data: seq<byte>)
    requires chunkSize >= 1 && 2 <= csid < 65600 && typeId < 256 && streamId < TWO_TO_THE_32
    requires timestamp < TWO_TO_THE_32 && length < TWO_TO_THE_24 && !SafeTime(timestamp, length, chunkSize)
    ensures |data| == length && !ComesBack(Message(csid, timestamp, typeId, streamId, data), chunkSize)
  {
    hide Split, SafeTime;
    var alias := if 320 <= csid < 384 then csid - 256 else csid;
    data := DerailingPayload(alias, timestamp, typeId, streamId, length, chunkSize);
    var m := Message(csid, timestamp, typeId, streamId, data);
    if alias != csid {
      SameSplit(m, chunkSize);
    }
    assert [m][0] == m;
  }

  lemma OutOfBounds(m: Message, chunkSize: nat)
    requires chunkSize >= 1 && !Delivers(m)
    ensures !ComesBack(m, chunkSize)
  {
    ReceiveBounds(map[], chunkSize, Flatten(Split(m, chunkSize)), true);
    assert [m][0] == m;
  }

  lemma DerailingPayload(csid: nat, timestamp: nat, typeId: nat, streamId: nat, length: nat, chunkSize: nat)
    returns (data: seq<byte>)
    requires chunkSize >= 1 && SafeCsid(csid) && typeId < 256 && streamId < TWO_TO_THE_32 && length < TWO_TO_THE_24
    requires timestamp < TWO_TO_THE_32 && !SafeTime(timestamp, length, chunkSize)
    ensures |data| == length
    ensures NeverDelivered(Message(csid, timestamp, typeId, streamId, data), chunkSize)
  {
    if timestamp == EXTENDED {
      data := ExtendedMarkFails(csid, typeId, streamId, length, chunkSize);
    } else {
      data := RepeatedFieldFails(csid, timestamp, typeId, streamId, length, chunkSize);
    }
  }
}
