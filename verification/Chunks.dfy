/**
  The RTMP chunk layer as functions on values (rtmp.go:330-678): what the receiver does with the bytes of one
  chunk, what a run of chunks delivers, and what the sender writes. The stateful form, with its buffers on the
  heap, is in RtmpStream.dfy and is proved against these functions.
 */
module Chunks {
  import opened Bytes

  /** struct Chunk; D is what stands for MsgData: its bytes here, an array in RtmpStream. */
  datatype Chunk<D> = Chunk(
    fmtFirst: nat,
    fmt: nat,
    csid: nat,
    timestamp: nat,
    timeExted: bool,
    timeDelta: nat,
    msgLength: nat,
    msgTypeId: nat,
    msgStreamId: nat,
    msgData: D,
    msgIndex: nat,
    msgRemain: nat,
    full: bool)

  type Slot = Chunk<seq<byte>>
  type Table = map<nat, Slot>

  /** The zero Chunk that stands in for a csid seen for the first time. */
  function Blank<D>(nothing: D): Chunk<D> {
    Chunk(0, 0, 0, 0, false, 0, 0, 0, 0, nothing, 0, 0, false)
  }

  // ---------------------------------------------------------------- reading a stream

  /** ReadUint32 with its error dropped: a field that is cut short reads as 0 and takes what there was. */
  function ReadUint(inp: seq<byte>, n: nat, bo: ByteOrder): nat {
    if |inp| < n then 0 else From(inp[..n], bo)
  }

  function Skip(inp: seq<byte>, n: nat): (rest: seq<byte>)
    ensures |rest| <= |inp|
  {
    if |inp| < n then [] else inp[n..]
  }

  lemma ReadField(u: nat, n: nat, bo: ByteOrder, rest: seq<byte>)
    requires u < Pow256(n)
    ensures ReadUint(To(u, n, bo) + rest, n, bo) == u && Skip(To(u, n, bo) + rest, n) == rest
  {
    FieldRoundTrip(u, n, bo);
    assert (To(u, n, bo) + rest)[..n] == To(u, n, bo);
  }

  lemma ReadBound(inp: seq<byte>, n: nat, bo: ByteOrder)
    ensures ReadUint(inp, n, bo) < Pow256(n)
  {
    if |inp| >= n {
      FromBound(inp[..n], bo);
    }
  }

  // ---------------------------------------------------------------- ChunkAssemble

  const EXTENDED: nat := 0xffffff

  /** The message header of one chunk: everything but the buffer. */
  function ReadHeader<D>(c: Chunk<D>, inp: seq<byte>): (r: (Chunk<D>, seq<byte>))
    ensures |r.1| <= |inp| && r.0.msgData == c.msgData && r.0.csid == c.csid && r.0.fmt == c.fmt
  {
    match c.fmt
    case 0 =>
      var timestamp, r1 := ReadUint(inp, 3, BE), Skip(inp, 3);
      var length, r2 := ReadUint(r1, 3, BE), Skip(r1, 3);
      var typeId, r3 := ReadUint(r2, 1, BE), Skip(r2, 1);
      var streamId, r4 := ReadUint(r3, 4, LE), Skip(r3, 4);
      var exted := timestamp == EXTENDED;
      (c.(timestamp := if exted then ReadUint(r4, 4, BE) else timestamp, timeExted := exted,
          msgLength := length, msgTypeId := typeId, msgStreamId := streamId,
          msgIndex := 0, msgRemain := length, full := false),
       if exted then Skip(r4, 4) else r4)
    case 1 =>
      var delta, r1 := ReadUint(inp, 3, BE), Skip(inp, 3);
      var length, r2 := ReadUint(r1, 3, BE), Skip(r1, 3);
      var typeId, r3 := ReadUint(r2, 1, BE), Skip(r2, 1);
      var (timestamp, r4) := Advance(c.timestamp, delta, r3);
      (c.(timestamp := timestamp, timeExted := delta == EXTENDED, timeDelta := delta,
          msgLength := length, msgTypeId := typeId,
          msgIndex := 0, msgRemain := length, full := false),
       r4)
    case 2 =>
      var delta, r1 := ReadUint(inp, 3, BE), Skip(inp, 3);
      var (timestamp, r2) := Advance(c.timestamp, delta, r1);
      (c.(timestamp := timestamp, timeExted := delta == EXTENDED, timeDelta := delta,
          msgIndex := 0, msgRemain := c.msgLength, full := false),
       r2)
    case _ =>
      if c.msgRemain == 0 then
        (c.(timestamp := (c.timestamp + c.timeDelta) % TWO_TO_THE_32,
            msgIndex := 0, msgRemain := c.msgLength, full := false), inp)
      else
        (c, inp)
  }

  /** Adding a delta, mod 2^32. A delta of 0xffffff first replaces the timestamp by the extended field behind it. */
  function Advance(timestamp: nat, delta: nat, inp: seq<byte>): (r: (nat, seq<byte>))
    ensures r.0 < TWO_TO_THE_32 && |r.1| <= |inp|
  {
    if delta == EXTENDED then ((ReadUint(inp, 4, BE) + delta) % TWO_TO_THE_32, Skip(inp, 4))
    else ((timestamp + delta) % TWO_TO_THE_32, inp)
  }

  function Zeros(n: nat): (z: seq<byte>)
    ensures |z| == n
  {
    seq(n, _ => 0)
  }

  /** fmt 0 and fmt 1 make a new buffer; fmt 2 and fmt 3 keep the one there is. */
  predicate MakesBuffer(fmt: nat) {
    fmt == 0 || fmt == 1
  }

  datatype Step = Failed | Stepped(slot: Slot, rest: seq<byte>)

  /** What the table may hold: every body slice that any chunk can ask for is inside the buffer. */
  ghost predicate InRange(c: Slot) {
    && c.msgIndex + c.msgRemain == c.msgLength == |c.msgData| < TWO_TO_THE_24
    && c.timestamp < TWO_TO_THE_32
    && c.timeDelta < TWO_TO_THE_24
    && c.msgTypeId < 256
    && c.msgStreamId < TWO_TO_THE_32
    && (c.full ==> c.msgRemain == 0)
  }

  ghost predicate Assembled(c: Slot) {
    InRange(c) && (c.full <==> c.msgRemain == 0)
  }

  /** The bounds a header read keeps, whatever the bytes. */
  lemma HeaderBounds<D>(c: Chunk<D>, inp: seq<byte>)
    requires c.timestamp < TWO_TO_THE_32 && c.timeDelta < TWO_TO_THE_24 && c.msgLength < TWO_TO_THE_24
    requires c.msgTypeId < 256 && c.msgStreamId < TWO_TO_THE_32
    ensures var d := ReadHeader(c, inp).0;
      && d.timestamp < TWO_TO_THE_32 && d.timeDelta < TWO_TO_THE_24 && d.msgLength < TWO_TO_THE_24
      && d.msgTypeId < 256 && d.msgStreamId < TWO_TO_THE_32
      && (c.fmt <= 2 ==> d.msgIndex == 0 && d.msgRemain == d.msgLength && !d.full)
      && (c.fmt >= 2 ==> d.msgLength == c.msgLength)
  {
    ReadBound(inp, 3, BE);
    var r1 := Skip(inp, 3);
    ReadBound(r1, 3, BE);
    var r2 := Skip(r1, 3);
    ReadBound(r2, 1, BE);
    var r3 := Skip(r2, 1);
    ReadBound(r3, 4, LE);
    var r4 := Skip(r3, 4);
    ReadBound(r4, 4, BE);
    assert Pow256(1) == 256 && Pow256(3) == TWO_TO_THE_24 && Pow256(4) == TWO_TO_THE_32;
  }

  /** The slot as the body is about to be read into it. */
  function Opened(c: Slot, inp: seq<byte>): Slot {
    var d := ReadHeader(c, inp).0;
    if MakesBuffer(c.fmt) then d.(msgData := Zeros(d.msgLength)) else d
  }

  function BodySize(c: Slot, chunkSize: nat): nat {
    Min(c.msgRemain, chunkSize)
  }

  /** One body read: `size` bytes to the place the message has reached. The read is taken as full, or as failing. */
  function ReadBody(c: Slot, chunkSize: nat, inp: seq<byte>): (r: Step)
    requires InRange(c)
  {
    var size := BodySize(c, chunkSize);
    if |inp| < size then Failed
    else
      Stepped(c.(msgData := Overwrite(c.msgData, c.msgIndex, inp[..size]),
                 msgIndex := c.msgIndex + size,
                 msgRemain := c.msgRemain - size,
                 full := c.full || c.msgRemain == size),
              inp[size..])
  }

  lemma OpenedInRange(c: Slot, inp: seq<byte>)
    requires InRange(c) && c.fmt <= 3
    ensures InRange(Opened(c, inp))
    ensures Opened(c, inp).msgRemain > 0 ==> !Opened(c, inp).full
  {
    HeaderBounds(c, inp);
  }

  /** ChunkAssemble: header, then body. */
  function Assemble(c: Slot, chunkSize: nat, inp: seq<byte>): (r: Step)
    requires InRange(c)
    ensures r.Stepped? ==> Assembled(r.slot) && |r.rest| <= |inp| && r.slot.csid == c.csid && r.slot.fmt == c.fmt
  {
    if c.fmt > 3 then Failed
    else
      OpenedInRange(c, inp);
      ReadBody(Opened(c, inp), chunkSize, ReadHeader(c, inp).1)
  }

  /** Under fmt 2 and fmt 3 the buffer keeps its length and all bytes that the message has not reached. */
  lemma AssembleKeepsTail(c: Slot, chunkSize: nat, inp: seq<byte>)
    requires InRange(c) && !MakesBuffer(c.fmt)
    ensures var r := Assemble(c, chunkSize, inp);
      r.Stepped? ==> |r.slot.msgData| == |c.msgData| && r.slot.msgIndex <= |c.msgData|
                     && r.slot.msgData[r.slot.msgIndex..] == c.msgData[r.slot.msgIndex..]
  {
    if c.fmt <= 3 {
      OpenedInRange(c, inp);
      HeaderBounds(c, inp);
      hide ReadHeader;
    }
  }

  // ---------------------------------------------------------------- MessageMerge

  /** The basic header: fmt, csid and what follows. Both long forms are big-endian, offset by 64. */
  function ReadBasic(inp: seq<byte>): (r: (nat, nat, seq<byte>))
    requires inp != []
    ensures r.0 <= 3 && 2 <= r.1 < 65600 && |r.2| < |inp|
  {
    var low, rest := inp[0] % 64, inp[1..];
    ReadBound(rest, 1, BE);
    ReadBound(rest, 2, BE);
    assert Pow256(1) == 256 && Pow256(2) == TWO_TO_THE_16;
    match low
    case 0 => (inp[0] / 64, ReadUint(rest, 1, BE) + 64, Skip(rest, 1))
    case 1 => (inp[0] / 64, ReadUint(rest, 2, BE) + 64, Skip(rest, 2))
    case _ => (inp[0] / 64, low, rest)
  }

  ghost predicate TableOk(table: Table) {
    forall csid :: csid in table ==> Assembled(table[csid])
  }

  function Lookup(table: Table, csid: nat): Slot {
    if csid in table then table[csid] else Blank([])
  }

  /** The slot a chunk is assembled into: what the table has for its csid, with the basic header filled in. */
  function Addressed(table: Table, fmt: nat, csid: nat, first: bool): Slot {
    var c := Lookup(table, csid);
    c.(fmtFirst := if first then fmt else c.fmtFirst, fmt := fmt, csid := csid)
  }

  lemma AddressedInRange(table: Table, fmt: nat, csid: nat, first: bool)
    requires TableOk(table)
    ensures InRange(Addressed(table, fmt, csid, first))
  {
  }

  /** One round of MessageMerge's loop; `first` says that it is the first round of this call. */
  function ChunkStep(table: Table, chunkSize: nat, inp: seq<byte>, first: bool): (r: Step)
    requires TableOk(table)
    ensures r.Stepped? ==> Assembled(r.slot) && |r.rest| < |inp| && 2 <= r.slot.csid < 65600
  {
    if inp == [] then Failed
    else
      var (fmt, csid, rest) := ReadBasic(inp);
      AddressedInRange(table, fmt, csid, first);
      Assemble(Addressed(table, fmt, csid, first), chunkSize, rest)
  }

  /** What a delivered chunk means to the rest of the server. */
  datatype Message = Message(csid: nat, timestamp: nat, typeId: nat, streamId: nat, data: seq<byte>)

  function Content(c: Slot): Message {
    Message(c.csid, c.timestamp, c.msgTypeId, c.msgStreamId, c.msgData)
  }

  datatype Merged = Closed | Delivered(slot: Slot, table: Table, rest: seq<byte>)

  /** MessageMerge: rounds until a message is full. */
  function Merge(table: Table, chunkSize: nat, inp: seq<byte>, first: bool): (r: Merged)
    requires TableOk(table)
    ensures r.Delivered? ==> TableOk(r.table) && |r.rest| < |inp| && r.slot.full && Assembled(r.slot)
    decreases |inp|
  {
    match ChunkStep(table, chunkSize, inp, first)
    case Failed => Closed
    case Stepped(slot, rest) =>
      var table' := table[slot.csid := slot];
      if slot.full then Delivered(slot, table', rest) else Merge(table', chunkSize, rest, false)
  }

  /** The chunks that MessageMerge takes in, as they leave their slots: up to the one that fills its message. */
  function Taken(table: Table, chunkSize: nat, inp: seq<byte>, first: bool): (r: seq<Slot>)
    requires TableOk(table)
    decreases |inp|
  {
    match ChunkStep(table, chunkSize, inp, first)
    case Failed => []
    case Stepped(slot, rest) =>
      [slot] + if slot.full then [] else Taken(table[slot.csid := slot], chunkSize, rest, false)
  }

  /** All that is delivered from a stream, MessageMerge after MessageMerge, until the stream ends. */
  function Receive(table: Table, chunkSize: nat, inp: seq<byte>, first: bool): (r: seq<Message>)
    requires TableOk(table)
    decreases |inp|
  {
    match ChunkStep(table, chunkSize, inp, first)
    case Failed => []
    case Stepped(slot, rest) =>
      (if slot.full then [Content(slot)] else []) +
      Receive(table[slot.csid := slot], chunkSize, rest, slot.full)
  }

  /** Receive is what repeated calls of MessageMerge deliver. */
  lemma {:induction false} ReceiveIsMerges(table: Table, chunkSize: nat, inp: seq<byte>, first: bool)
    requires TableOk(table)
    ensures Receive(table, chunkSize, inp, first) ==
      match Merge(table, chunkSize, inp, first)
      case Closed => []
      case Delivered(slot, table', rest) => [Content(slot)] + Receive(table', chunkSize, rest, true)
    decreases |inp|
  {
    match ChunkStep(table, chunkSize, inp, first)
    case Failed =>
    case Stepped(slot, rest) =>
      if !slot.full {
        ReceiveIsMerges(table[slot.csid := slot], chunkSize, rest, false);
      }
  }

  // ---------------------------------------------------------------- MessageSplit

  /** ChunkHeaderAssemble's basic header, with the source's bounds: nothing at all is written from 65664 up. */
  function BasicHeader(fmt: nat, csid: nat): seq<byte>
    requires fmt <= 3
  {
    if csid < 64 then [fmt * 64 + csid]
    else if csid - 64 < 320 then [fmt * 64] + ToBE(csid - 64, 1)
    else if csid - 64 < 65600 then [fmt * 64 + 1] + ToBE(csid - 64, 2)
    else []
  }

  /** The message header that goes with fmt. */
  function Fields(fmt: nat, time: nat, length: nat, typeId: nat, streamId: nat): seq<byte>
    requires fmt <= 3
  {
    (if fmt == 3 then [] else ToBE(if time > EXTENDED then EXTENDED else time, 3)) +
    ((if fmt >= 2 then [] else ToBE(length, 3) + ToBE(typeId, 1)) +
     ((if fmt >= 1 then [] else ToLE(streamId, 4)) +
      (if time > EXTENDED then ToBE(time, 4) else [])))
  }

  /** ChunkHeaderAssemble: `time` is the Timestamp field of the chunk, whatever it stands for under that fmt. */
  function HeaderBytes(fmt: nat, csid: nat, time: nat, length: nat, typeId: nat, streamId: nat): seq<byte>
    requires fmt <= 3
  {
    BasicHeader(fmt, csid) + Fields(fmt, time, length, typeId, streamId)
  }

  /** The chunks that carry the rest of a message, each with a fmt 3 header. */
  function Continuations(csid: nat, time: nat, data: seq<byte>, chunkSize: nat): seq<seq<byte>>
    requires chunkSize >= 1
    decreases |data|
  {
    if data == [] then []
    else
      var n := Min(|data|, chunkSize);
      [HeaderBytes(3, csid, time, 0, 0, 0) + data[..n]] + Continuations(csid, time, data[n..], chunkSize)
  }

  /** MessageSplit: the chunks of one message, in order. */
  function Split(m: Message, chunkSize: nat): (r: seq<seq<byte>>)
    requires chunkSize >= 1
    ensures |r| >= 1
  {
    var n := Min(|m.data|, chunkSize);
    [HeaderBytes(0, m.csid, m.timestamp, |m.data|, m.typeId, m.streamId) + m.data[..n]] +
    Continuations(m.csid, m.timestamp, m.data[n..], chunkSize)
  }

  function Flatten(ss: seq<seq<byte>>): seq<byte> {
    if ss == [] then [] else ss[0] + Flatten(ss[1..])
  }

  lemma SplitShape(m: Message, chunkSize: nat)
    requires chunkSize >= 1
    ensures var n := Min(|m.data|, chunkSize);
      Flatten(Split(m, chunkSize)) == HeaderBytes(0, m.csid, m.timestamp, |m.data|, m.typeId, m.streamId) +
        (m.data[..n] + Flatten(Continuations(m.csid, m.timestamp, m.data[n..], chunkSize)))
  {
    hide HeaderBytes, Continuations;
    var n := Min(|m.data|, chunkSize);
    assert Split(m, chunkSize)[1..] == Continuations(m.csid, m.timestamp, m.data[n..], chunkSize);
  }

  lemma ContinuationsShape(csid: nat, time: nat, data: seq<byte>, chunkSize: nat)
    requires chunkSize >= 1 && data != []
    ensures var n := Min(|data|, chunkSize);
      Flatten(Continuations(csid, time, data, chunkSize)) == HeaderBytes(3, csid, time, 0, 0, 0) + (data[..n] +
        Flatten(Continuations(csid, time, data[n..], chunkSize)))
  {
    hide HeaderBytes;
    var n := Min(|data|, chunkSize);
    assert Continuations(csid, time, data, chunkSize)[1..] == Continuations(csid, time, data[n..], chunkSize);
  }
}
