/**
  What the buffers of delivered messages hold as the receiver goes on (rtmp.go:411-471, 514-552). A delivered Chunk
  shares its MsgData with the slot of its csid, until a fmt 0 or fmt 1 header gives the slot a new buffer; whoever
  reads the message later reads what the buffer holds by then.
 */
module Buffers {
  import opened Bytes
  import opened Chunks

  /** A buffer that the slot of a csid still has, or one that nothing writes to any more. */
  datatype Ref = Attached(csid: nat) | Detached(data: seq<byte>)

  /** The receiver's table, and all messages delivered: where their bytes are, and what they were on delivery. */
  datatype Feed = Feed(table: Table, first: bool, refs: seq<Ref>, msgs: seq<Message>)

  const START := Feed(map[], true, [], [])

  ghost predicate FeedOk(f: Feed) {
    TableOk(f.table) && |f.refs| == |f.msgs|
  }

  /** The bytes of message i as they are now. */
  function DataNow(f: Feed, i: nat): seq<byte>
    requires i < |f.refs|
  {
    match f.refs[i]
    case Attached(csid) => Lookup(f.table, csid).msgData
    case Detached(data) => data
  }

  /** The message that somebody who reads it now gets. */
  function MessageNow(f: Feed, i: nat): Message
    requires i < |f.refs| == |f.msgs|
  {
    f.msgs[i].(data := DataNow(f, i))
  }

  /** The message is no longer what was delivered. */
  predicate Stale(f: Feed, i: nat)
    requires i < |f.refs| == |f.msgs|
  {
    DataNow(f, i) != f.msgs[i].data
  }

  /** The slot of csid gets a new buffer. */
  function Detach(f: Feed, csid: nat): (refs: seq<Ref>)
    ensures |refs| == |f.refs|
  {
    seq(|f.refs|, i requires 0 <= i < |f.refs| =>
      if f.refs[i] == Attached(csid) then Detached(Lookup(f.table, csid).msgData) else f.refs[i])
  }

  /** The bytes of one chunk are in, when the chunk leaves this slot. */
  function Rewritten(f: Feed, slot: Slot): Feed {
    Feed(f.table[slot.csid := slot], false, if MakesBuffer(slot.fmt) then Detach(f, slot.csid) else f.refs, f.msgs)
  }

  /** One chunk later: a message that is full is delivered. */
  function Took(f: Feed, slot: Slot): Feed {
    var r := Rewritten(f, slot);
    if slot.full then r.(first := true, refs := r.refs + [Attached(slot.csid)], msgs := r.msgs + [Content(slot)]) else r
  }

  /**
    A chunk changes what is read of those messages only whose buffer the slot of its csid has, and only under fmt 2
    or fmt 3: then they all read as what the slot has now. A message just delivered reads as it is.
   */
  lemma TookReads(f: Feed, slot: Slot, i: nat)
    requires FeedOk(f) && Assembled(slot) && i < |Took(f, slot).refs|
    ensures FeedOk(Took(f, slot)) && FeedOk(Rewritten(f, slot))
    ensures DataNow(Took(f, slot), i) ==
      if i == |f.refs| || (f.refs[i] == Attached(slot.csid) && !MakesBuffer(slot.fmt)) then slot.msgData
      else DataNow(f, i)
    ensures i < |f.refs| ==> DataNow(Rewritten(f, slot), i) == DataNow(Took(f, slot), i)
    ensures i == |f.refs| ==> !Stale(Took(f, slot), i)
  {
  }

  lemma TookOk(f: Feed, slot: Slot)
    requires FeedOk(f) && Assembled(slot)
    ensures FeedOk(Took(f, slot)) && Took(f, slot).first == slot.full
    ensures Took(f, slot).table == f.table[slot.csid := slot]
    ensures Took(f, slot).msgs == f.msgs + if slot.full then [Content(slot)] else []
  {
    hide Assembled, Content;
  }

  lemma TookRefs(f: Feed, slot: Slot)
    ensures |Took(f, slot).refs| == |f.refs| + if slot.full then 1 else 0
    ensures slot.full ==> Took(f, slot).refs[|f.refs|] == Attached(slot.csid)
    ensures Took(f, slot).first == slot.full && Took(f, slot).table == f.table[slot.csid := slot]
    ensures Took(f, slot).msgs == f.msgs + if slot.full then [Content(slot)] else []
  {
    hide Content;
  }

  /** All chunks of a stream, until it ends. */
  function Fed(f: Feed, chunkSize: nat, inp: seq<byte>): Feed
    requires TableOk(f.table)
    decreases |inp|
  {
    match ChunkStep(f.table, chunkSize, inp, f.first)
    case Failed => f
    case Stepped(slot, rest) => Fed(Took(f, slot), chunkSize, rest)
  }

  /** The messages in it are those of Receive. */
  lemma {:induction false} FedReceives(f: Feed, chunkSize: nat, inp: seq<byte>)
    requires FeedOk(f)
    ensures FeedOk(Fed(f, chunkSize, inp))
    ensures Fed(f, chunkSize, inp).msgs == f.msgs + Receive(f.table, chunkSize, inp, f.first)
    decreases |inp|
  {
    hide ChunkStep, Assembled, Content, Took, TableOk;
    match ChunkStep(f.table, chunkSize, inp, f.first)
    case Failed =>
    case Stepped(slot, rest) =>
      var next := Took(f, slot);
      TookOk(f, slot);
      var more := if slot.full then [Content(slot)] else [];
      FedReceives(next, chunkSize, rest);
      assert f.msgs + more + Receive(next.table, chunkSize, rest, next.first) ==
        f.msgs + (more + Receive(next.table, chunkSize, rest, next.first));
  }
}
