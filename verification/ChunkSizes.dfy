/**
  A sender and a receiver that do not agree on the chunk size: while it publishes, a client's Set Chunk Size message
  changes nothing at the receiver (rtmp.go:822-862).
 */
module ChunkSizes {
  import opened Bytes
  import opened Chunks
  import opened ChunkRuns
  import ChunkDomain

  /** MessageMerge with chunks of size `receiving` on what MessageSplit wrote in chunks of size `sending`. */
  ghost predicate ComesAcross(m: Message, sending: nat, receiving: nat)
    requires sending >= 1
  {
    Receive(map[], receiving, Flatten(Split(m, sending)), true) == [m]
  }

  // ---------------------------------------------------------------- messages of one chunk

  lemma OneChunk(m: Message, a: nat, b: nat)
    requires |m.data| <= a && |m.data| <= b && a >= 1 && b >= 1
    ensures Split(m, a) == Split(m, b)
  {
    hide HeaderBytes;
    assert m.data[Min(|m.data|, a)..] == [] == m.data[Min(|m.data|, b)..];
  }

  lemma OneChunkAcross(m: Message, sending: nat, receiving: nat)
    requires sending >= 1 && receiving >= 1 && Sendable(m, sending)
    requires sending == receiving || (|m.data| <= sending && |m.data| <= receiving)
    ensures ComesAcross(m, sending, receiving)
  {
    hide Receive, Split, Flatten;
    if sending != receiving {
      OneChunk(m, sending, receiving);
    }
    ChunkDomain.SendableComesBack(m, receiving, map[], true);
  }

  // ---------------------------------------------------------------- the first chunk at the receiver

  /** The receiver's first chunk: as much of the message's first bytes as it takes for one chunk. */
  lemma FirstChunkTaken(m: Message, sending: nat, receiving: nat) returns (slot: Slot, rest: seq<byte>)
    requires sending >= 1 && receiving >= 1 && Sendable(m, sending)
    requires |m.data[..Min(|m.data|, sending)] + Later(m, sending)| >= Min(|m.data|, receiving)
    ensures var body, n := m.data[..Min(|m.data|, sending)] + Later(m, sending), Min(|m.data|, receiving);
      && ChunkStep(map[], receiving, Flatten(Split(m, sending)), true) == Stepped(slot, rest)
      && rest == body[n..] && slot.csid == m.csid && slot.full == (n == |m.data|)
      && slot.msgIndex == n && slot.msgData[..n] == body[..n]
  {
    hide Fields, BasicHeader, Continuations, Flatten, Split;
    ChunkDomain.SplitParts(m, sending);
    var body := m.data[..Min(|m.data|, sending)] + Later(m, sending);
    var fields := Fields(0, m.timestamp, |m.data|, m.typeId, m.streamId) + body;
    StepIsAssemble(map[], receiving, 0, m.csid, fields, true);
    var c := Addressed(map[], 0, m.csid, true);
    WholeReadsBack(c, m.timestamp, |m.data|, m.typeId, m.streamId, body);
    OpenedInRange(c, fields);
    slot, rest := TakeBody(Opened(c, fields), receiving, body);
  }

  /** What the sender writes behind its first chunk. */
  function Later(m: Message, sending: nat): seq<byte>
    requires sending >= 1
  {
    Flatten(Continuations(m.csid, m.timestamp, m.data[Min(|m.data|, sending)..], sending))
  }

  lemma TakeBody(c: Slot, chunkSize: nat, body: seq<byte>) returns (slot: Slot, rest: seq<byte>)
    requires InRange(c) && !c.full && c.msgIndex == 0 && |body| >= Min(c.msgLength, chunkSize)
    ensures var n := Min(c.msgLength, chunkSize);
      && ReadBody(c, chunkSize, body) == Stepped(slot, rest)
      && rest == body[n..] && slot.csid == c.csid && slot.full == (n == c.msgLength)
      && slot.msgIndex == n && slot.msgData[..n] == body[..n]
  {
    var n := Min(c.msgLength, chunkSize);
    slot, rest := ReadBody(c, chunkSize, body).slot, body[n..];
  }

  // ---------------------------------------------------------------- the sender's chunks are larger

  /** Behind the receiver's first chunk it finds, in place of a header, more of the message. */
  lemma LargerFails(m: Message, sending: nat, receiving: nat, d: nat)
    requires 1 <= receiving < sending && Sendable(m, sending) && receiving < |m.data|
    requires 2 <= d < 64 && d != m.csid && m.data[receiving] == 192 + d
    ensures !ComesAcross(m, sending, receiving)
  {
    hide Continuations, Flatten, Split, Receive, ChunkStep;
    var wire, head := Flatten(Split(m, sending)), m.data[..Min(|m.data|, sending)];
    var slot, rest := FirstChunkTaken(m, sending, receiving);
    assert rest[0] == (head + Later(m, sending))[receiving] == m.data[receiving];
    StrayChunk(map[m.csid := slot], receiving, rest, d);
    ChunkDomain.FirstStep(receiving, wire, slot, rest);
    assert [m][0].csid != d;
  }

  /** A byte that reads as a fmt 3 header on a csid never seen delivers an empty message on that csid. */
  lemma StrayChunk(table: Table, chunkSize: nat, inp: seq<byte>, d: nat)
    requires TableOk(table) && d !in table && 2 <= d < 64 && inp != [] && inp[0] == 192 + d
    ensures var ms := Receive(table, chunkSize, inp, false);
      ms != [] && ms[0].csid == d
  {
    assert ReadBasic(inp) == (3, d, inp[1..]);
    var r := ChunkStep(table, chunkSize, inp, false);
    assert r.Stepped? && r.slot.full && r.slot.csid == d;
  }

  // ---------------------------------------------------------------- the sender's chunks are smaller

  lemma {:induction false} ContinuationsCarry(csid: nat, time: nat, data: seq<byte>, chunkSize: nat)
    requires chunkSize >= 1
    ensures |Flatten(Continuations(csid, time, data, chunkSize))| >= |data|
    decreases |data|
  {
    hide HeaderBytes;
    if data != [] {
      var n := Min(|data|, chunkSize);
      ContinuationsShape(csid, time, data, chunkSize);
      ContinuationsCarry(csid, time, data[n..], chunkSize);
    }
  }

  /** The second chunk begins with its header, which is no byte 0. */
  lemma HeaderComesFirst(csid: nat, time: nat, data: seq<byte>, chunkSize: nat)
    requires chunkSize >= 1 && data != [] && SafeCsid(csid)
    ensures var next := Flatten(Continuations(csid, time, data, chunkSize));
      next != [] && next[0] != 0
  {
    hide Continuations, Flatten, Fields;
    ContinuationsShape(csid, time, data, chunkSize);
    assert BasicHeader(3, csid) != [] && BasicHeader(3, csid)[0] >= 192;
  }

  /** The receiver takes the second chunk's header for data. */
  lemma SmallerFails(m: Message, sending: nat, receiving: nat, q: byte)
    requires 1 <= sending < receiving && Sendable(m, sending) && sending < |m.data|
    requires q != 0 && q !in HeaderBytes(3, m.csid, m.timestamp, 0, 0, 0)
    requires m.data == ChunkDomain.Marked(q, 0, |m.data|)
    ensures !ComesAcross(m, sending, receiving)
  {
    hide HeaderBytes, Continuations, Flatten, Split, Receive, ChunkStep, Sendable;
    assert SafeCsid(m.csid) by {
      IsSafe(m, sending);
    }
    var wire, n := Flatten(Split(m, sending)), Min(|m.data|, receiving);
    var head, after := m.data[..sending], Later(m, sending);
    ContinuationsCarry(m.csid, m.timestamp, m.data[sending..], sending);
    HeaderComesFirst(m.csid, m.timestamp, m.data[sending..], sending);
    var slot, rest := FirstChunkTaken(m, sending, receiving);
    assert (head + after)[..n][sending] == after[0] && slot.msgData[..n][sending] == slot.msgData[sending];
    MarkGone(m, sending, q, n);
    ChunkDomain.DerailedFromHere(map[], receiving, wire, true, sending, q, 0);
    assert !ChunkDomain.Derailed(m.data, |m.data|, sending, q, 0);
    assert m in [m];
  }

  lemma IsSafe(m: Message, chunkSize: nat)
    requires Sendable(m, chunkSize)
    ensures SafeCsid(m.csid)
  {
  }

  /** The mark is the first byte of the message, and nowhere else on the wire. */
  lemma MarkGone(m: Message, sending: nat, q: byte, n: nat)
    requires 1 <= sending < |m.data| && q != 0 && q !in HeaderBytes(3, m.csid, m.timestamp, 0, 0, 0)
    requires m.data == ChunkDomain.Marked(q, 0, |m.data|) && 1 <= n <= |m.data[..sending] + Later(m, sending)|
    ensures q !in (m.data[..sending] + Later(m, sending))[n..]
  {
    hide HeaderBytes, Continuations, Flatten;
    var head, after := m.data[..sending], Later(m, sending);
    if q in after {
      ChunkDomain.ContinuationMembers(m.csid, m.timestamp, m.data[sending..], sending, q);
      assert false;
    }
    assert q !in head[1..];
  }

  // ---------------------------------------------------------------- exactly

  /**
    For every header that the sender can send: all payloads of this length come across if and only if the chunk sizes
    agree or the message fits in one chunk of either size.
   */
  lemma SizesMustAgree(csid: nat, timestamp: nat, typeId: nat, streamId: nat, length: nat, sending: nat, receiving: nat)
    requires sending >= 1 && receiving >= 1 && SafeCsid(csid) && SafeTime(timestamp, length, sending)
    requires length < TWO_TO_THE_24 && typeId < 256 && streamId < TWO_TO_THE_32
    ensures (forall data: seq<byte> :: |data| == length ==>
              ComesAcross(Message(csid, timestamp, typeId, streamId, data), sending, receiving)) <==>
            sending == receiving || (length <= sending && length <= receiving)
  {
    hide ComesAcross;
    if sending == receiving || (length <= sending && length <= receiving) {
      forall data: seq<byte> | |data| == length
        ensures ComesAcross(Message(csid, timestamp, typeId, streamId, data), sending, receiving)
      {
        OneChunkAcross(Message(csid, timestamp, typeId, streamId, data), sending, receiving);
      }
    } else {
      var data := GarbledPayload(csid, timestamp, typeId, streamId, length, sending, receiving);
      assert |data| == length && !ComesAcross(Message(csid, timestamp, typeId, streamId, data), sending, receiving);
    }
  }

  const DEFAULT := 128

  /** The size that AmfConnectResponse sets, for both directions, when it answers connect. */
  function ConnectSize(chunkSize: nat): nat {
    if chunkSize != DEFAULT then chunkSize else 1024
  }

  /** A client that goes on sending in chunks of 128 bytes after connect is read in chunks of 1024. */
  lemma AfterConnect(csid: nat, timestamp: nat, typeId: nat, streamId: nat, length: nat)
    requires SafeCsid(csid) && SafeTime(timestamp, length, DEFAULT)
    requires length < TWO_TO_THE_24 && typeId < 256 && streamId < TWO_TO_THE_32
    ensures (forall data: seq<byte> :: |data| == length ==>
              ComesAcross(Message(csid, timestamp, typeId, streamId, data), DEFAULT, ConnectSize(DEFAULT))) <==>
            length <= DEFAULT
  {
    hide ComesAcross;
    SizesMustAgree(csid, timestamp, typeId, streamId, length, DEFAULT, ConnectSize(DEFAULT));
  }

  lemma GarbledPayload(csid: nat, timestamp: nat, typeId: nat, streamId: nat, length: nat, sending: nat, receiving: nat)
    returns (data: seq<byte>)
    requires sending >= 1 && receiving >= 1 && SafeCsid(csid) && SafeTime(timestamp, length, sending)
    requires length < TWO_TO_THE_24 && typeId < 256 && streamId < TWO_TO_THE_32
    requires sending != receiving && (length > sending || length > receiving)
    ensures |data| == length && !ComesAcross(Message(csid, timestamp, typeId, streamId, data), sending, receiving)
  {
    hide ComesAcross, HeaderBytes;
    if receiving < sending && receiving < length {
      var d := if csid == 2 then 3 else 2;
      data := seq(length, _ => 192 + d);
      LargerFails(Message(csid, timestamp, typeId, streamId, data), sending, receiving, d);
    } else {
      var hdr := HeaderBytes(3, csid, timestamp, 0, 0, 0);
      ChunkDomain.HeaderSize(csid, timestamp);
      ChunkDomain.FreshByte(hdr + [0], 8);
      var q: byte :| q <= 8 && q !in hdr + [0];
      assert 0 in hdr + [0];
      data := ChunkDomain.Marked(q, 0, length);
      SmallerFails(Message(csid, timestamp, typeId, streamId, data), sending, receiving, q);
    }
  }
}
