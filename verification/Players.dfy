/** What a player gets of the messages that are written to it, as RTMP and as FLV (rtmp.go:636-678, flv.go:200-426). */
module Players {
  import opened Bytes
  import opened Chunks
  import opened ChunkRuns
  import Flv

  /** MessageSplit, message after message. */
  function Written(ms: seq<Message>, chunkSize: nat): seq<byte>
    requires chunkSize >= 1
    decreases ms
  {
    if ms == [] then [] else Flatten(Split(ms[0], chunkSize)) + Written(ms[1..], chunkSize)
  }

  ghost predicate AllSendable(ms: seq<Message>, chunkSize: nat) {
    forall m :: m in ms ==> Sendable(m, chunkSize)
  }

  /** One chunk, and whatever comes behind it. */
  lemma ChunkGoes(lanes: Lanes, e: Event, chunkSize: nat, table: Table, rest: seq<byte>, first: bool)
    returns (table': Table, first': bool)
    requires chunkSize >= 1 && TableOk(table) && LanesOk(lanes) && InStep(lanes, table) && Legal(lanes, e, chunkSize)
    ensures TableOk(table') && LanesOk(After(lanes, e, chunkSize)) && InStep(After(lanes, e, chunkSize), table')
    ensures Receive(table, chunkSize, EventBytes(lanes, e, chunkSize) + rest, first) ==
      Completes(lanes, e, chunkSize) + Receive(table', chunkSize, rest, first')
  {
    hide ChunkStep, EventBytes, Completes, Legal, Matches, LaneOk;
    StepInStep(lanes, e, chunkSize, table, rest, first);
    var r := ChunkStep(table, chunkSize, EventBytes(lanes, e, chunkSize) + rest, first);
    StaysInStep(lanes, e, chunkSize, table, r.slot);
    table', first' := table[e.csid := r.slot], r.slot.full;
  }

  /** The rest of a message, and whatever comes behind it. */
  lemma {:induction false} RestGoes(lanes: Lanes, csid: nat, chunkSize: nat, table: Table, rest: seq<byte>, first: bool)
    returns (table': Table, first': bool)
    requires chunkSize >= 1 && TableOk(table) && LanesOk(lanes) && InStep(lanes, table) && csid in lanes
    ensures TableOk(table')
    ensures Receive(table, chunkSize, Flatten(Pending(lanes[csid], chunkSize)) + rest, first) ==
      (if Idle(lanes[csid]) then [] else [lanes[csid].msg]) + Receive(table', chunkSize, rest, first')
    decreases |lanes[csid].msg.data| - lanes[csid].sent
  {
    hide Matches, Pending, Receive, LanesOk, EventBytes;
    var lane := lanes[csid];
    LaneIsOk(lanes, csid);
    PendingStep(lane, chunkSize);
    if Idle(lane) {
      table', first' := table, first;
      assert [] + rest == rest;
    } else {
      var e := Next(csid);
      HeadOfBegun(lanes, csid, chunkSize);
      var bytes, tail := EventBytes(lanes, e, chunkSize), Flatten(Pending(Advanced(lane, chunkSize), chunkSize));
      FlattenHead(bytes, Pending(Advanced(lane, chunkSize), chunkSize));
      assert Flatten(Pending(lane, chunkSize)) + rest == bytes + (tail + rest);
      var t, f := ChunkGoes(lanes, e, chunkSize, table, tail + rest, first);
      table', first' := RestGoes(After(lanes, e, chunkSize), csid, chunkSize, t, rest, f);
    }
  }

  lemma LaneIsOk(lanes: Lanes, csid: nat)
    requires LanesOk(lanes) && csid in lanes
    ensures LaneOk(csid, lanes[csid])
  {
  }

  lemma FlattenHead(s: seq<byte>, ss: seq<seq<byte>>)
    ensures Flatten([s] + ss) == s + Flatten(ss)
  {
    assert ([s] + ss)[1..] == ss;
  }

  /** One message, and whatever comes behind it, whatever was received before. */
  lemma MessageGoes(m: Message, chunkSize: nat, table: Table, rest: seq<byte>, first: bool)
    returns (table': Table, first': bool)
    requires chunkSize >= 1 && TableOk(table) && Sendable(m, chunkSize)
    ensures TableOk(table')
    ensures Receive(table, chunkSize, Flatten(Split(m, chunkSize)) + rest, first) ==
      [m] + Receive(table', chunkSize, rest, first')
  {
    hide Sendable, Pending, Receive, Split, EventBytes, Matches;
    HeadOfFresh(m, map[], chunkSize);
    var e := Open(m.csid, Whole(m.timestamp, m.typeId, m.streamId), m.data);
    var lane' := Advanced(Lane(m, 0, false, m.timestamp, 0, true), chunkSize);
    var bytes, tail := EventBytes(map[], e, chunkSize), Flatten(Pending(lane', chunkSize));
    FlattenHead(bytes, Pending(lane', chunkSize));
    assert Flatten(Split(m, chunkSize)) + rest == bytes + (tail + rest);
    var t, f := ChunkGoes(map[], e, chunkSize, table, tail + rest, first);
    table', first' := RestGoes(After(map[], e, chunkSize), m.csid, chunkSize, t, rest, f);
  }

  /** An RTMP player gets back all messages that can be sent at its chunk size. */
  lemma {:induction false} AllGo(ms: seq<Message>, chunkSize: nat, table: Table, first: bool)
    requires chunkSize >= 1 && TableOk(table) && AllSendable(ms, chunkSize)
    ensures Receive(table, chunkSize, Written(ms, chunkSize), first) == ms
    decreases ms
  {
    hide Sendable, Receive, Split, Flatten;
    if ms == [] {
      NothingLeft(table, chunkSize, first);
    } else {
      var t, f := MessageGoes(ms[0], chunkSize, table, Written(ms[1..], chunkSize), first);
      AllGo(ms[1..], chunkSize, t, f);
      assert [ms[0]] + ms[1..] == ms;
    }
  }

  // ---------------------------------------------------------------- as FLV

  /** The headers that come first go out under fixed types, everything else under its own. */
  function TagsOf(ms: seq<Message>): (ts: seq<Flv.Tag>)
    ensures |ts| == |ms|
  {
    seq(|ms|, i requires 0 <= i < |ms| =>
      var m := ms[i];
      var typeId := match i case 0 => 0x12 case 1 => 0x9 case 2 => 0x8 case _ => m.typeId;
      Flv.Tag(typeId, m.timestamp, m.streamId, m.data))
  }

  lemma TagsSay(ms: seq<Message>)
    ensures forall i :: 0 <= i < |ms| ==>
      var t := TagsOf(ms)[i];
      && t.typeId == (if i == 0 then 0x12 else if i == 1 then 0x9 else if i == 2 then 0x8 else ms[i].typeId)
      && t.data == ms[i].data && t.timestamp == ms[i].timestamp
  {
  }

  /** An FLV player gets the messages back, as tags, if and only if all their fields fit a tag. */
  lemma FlvExactly(ms: seq<Message>)
    ensures Flv.ReadFile(Flv.HEAD + Flv.Tags(TagsOf(ms))) == Flv.File(true, true, TagsOf(ms)) <==>
      forall i :: 0 <= i < |ms| ==> Flv.Fits(TagsOf(ms)[i])
  {
    hide Flv.Fits, Flv.ReadFile, Flv.Tags, TagsOf;
    Flv.ReadsBackExactly(TagsOf(ms));
    assert forall i :: 0 <= i < |ms| ==> TagsOf(ms)[i] in TagsOf(ms);
  }
}
