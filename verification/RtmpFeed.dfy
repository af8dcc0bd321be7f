/** The messages of an RTMP connection on the heap, for as long as anybody still reads them. */
module RtmpFeed {
  import opened Bytes
  import opened Chunks
  import opened RtmpStream
  import opened Buffers

  class Feeder {
    const stream: Stream
    var first: bool
    var delivered: seq<HeapChunk>  // as they went to DataChan and to the cache
    ghost var feed: Feed

    /** Everything that a delivered message is read from. */
    ghost function Shared(): set<array<byte>>
      reads this
    {
      set i | 0 <= i < |delivered| && delivered[i].msgData != null :: delivered[i].msgData as array<byte>
    }

    /** Every delivered message has its buffer where the feed says, with the bytes that the feed says. */
    ghost predicate Valid()
      reads this, stream, stream.Buffers(), stream.held.Keys, Shared()
    {
      && stream.Valid() && stream.TableOf() == feed.table && first == feed.first
      && |delivered| == |feed.refs| == |feed.msgs|
      && (forall i :: 0 <= i < |delivered| ==> Header(delivered[i]) == feed.msgs[i].(data := []))
      && (forall i :: 0 <= i < |delivered| ==> Traceable(stream.chunks, delivered[i].msgData, feed.refs[i]))
    }

    constructor (inp: seq<byte>)
      ensures Valid() && fresh(stream) && feed == START && stream.inp == inp && stream.chunkSize == 128
    {
      stream := new Stream(inp);
      first, delivered, feed := true, [], START;
    }

    /** Whoever reads message i gets what the feed says. */
    lemma ReadsNow(i: nat)
      requires Valid() && i < |delivered|
      ensures Content(View(delivered[i])) == MessageNow(feed, i)
    {
    }

    /** Takes note of a chunk that has been stored; if it is full, its message is delivered. */
    method Note(c: HeapChunk)
      requires stream.Valid() && first == feed.first && |delivered| == |feed.refs| == |feed.msgs|
      requires stream.TableOf() == Took(feed, View(c)).table && c.csid in stream.chunks && stream.chunks[c.csid] == c
      requires forall i :: 0 <= i < |delivered| ==> Header(delivered[i]) == feed.msgs[i].(data := [])
      requires forall i :: 0 <= i < |delivered| ==>
        Traceable(stream.chunks, delivered[i].msgData, Took(feed, View(c)).refs[i])
      modifies this
      ensures Valid() && feed == Took(old(feed), View(c))
    {
      hide Assembled, Apart, Took, Traceable;
      TookRefs(feed, View(c));
      assert c.full ==> Traceable(stream.chunks, c.msgData, Attached(c.csid)) by {
        NewTraceable(stream.chunks, c);
      }
      feed, first, delivered := Took(feed, View(c)), c.full, delivered + if c.full then [c] else [];
    }

    /** One more chunk. */
    method Next() returns (ok: bool)
      requires Valid()
      modifies this, stream, stream.Buffers()
      ensures Valid() && stream.chunkSize == old(stream.chunkSize)
      ensures forall a :: a in stream.Buffers() ==> a in old(stream.Buffers()) || fresh(a)
      ensures match ChunkStep(old(feed.table), stream.chunkSize, old(stream.inp), old(feed.first))
        case Failed => !ok && feed == old(feed)
        case Stepped(slot, rest) => ok && feed == Took(old(feed), slot) && stream.inp == rest
    {
      hide ChunkStep, Assembled, Apart, Loaned, HeldOk, SlotsOk, AfterChunk, TableOk;
      var c;
      ok, c := stream.ReceiveChunk(first);
      if ok {
        forall i | 0 <= i < |delivered|
          ensures Traceable(stream.chunks, delivered[i].msgData, Took(feed, View(c)).refs[i])
        {
          StillTraceable(old(stream.chunks), feed, c, delivered[i].msgData, i);
        }
        Note(c);
      }
    }

    /** All chunks there are; what is promised holds after each of them. */
    method Pump()
      requires Valid()
      modifies this, stream, stream.Buffers()
      ensures Valid() && feed == Fed(old(feed), stream.chunkSize, old(stream.inp))
    {
      var ok := true;
      while ok
        invariant Valid() && stream.chunkSize == old(stream.chunkSize)
        invariant forall a :: a in stream.Buffers() ==> a in old(stream.Buffers()) || fresh(a)
        invariant Fed(old(feed), stream.chunkSize, old(stream.inp)) ==
          if ok then Fed(feed, stream.chunkSize, stream.inp) else feed
        decreases ok, |stream.inp|
      {
        ok := Next();
      }
    }
  }

  lemma NewTraceable(chunks: HeapTable, c: HeapChunk)
    requires c.csid in chunks && chunks[c.csid] == c
    ensures Traceable(chunks, c.msgData, Attached(c.csid))
  {
  }

  /** A buffer that was where the feed says, and has not been written to, or only as the slot of chunk c. */
  lemma StillTraceable(before: HeapTable, f: Feed, c: HeapChunk, a: array?<byte>, i: nat)
    requires i < |f.refs| && Apart(before) && (MakesBuffer(c.fmt) ==> c.msgData != null && c.msgData != a)
    requires !MakesBuffer(c.fmt) ==> c.msgData == if c.csid in before then before[c.csid].msgData else null
    requires match f.refs[i]
      case Attached(csid) => csid in before && before[csid].msgData == a &&
        (csid == c.csid && MakesBuffer(c.fmt) ==> Contents(a) == Lookup(f.table, csid).msgData)
      case Detached(data) => (a != null ==> a !in BuffersOf(before)) && Contents(a) == data
    ensures Traceable(before[c.csid := c], a, Took(f, View(c)).refs[i])
  {
    hide Lookup;
  }

  function Header(c: HeapChunk): Message {
    Message(c.csid, c.timestamp, c.msgTypeId, c.msgStreamId, [])
  }

  ghost predicate Traceable(chunks: HeapTable, a: array?<byte>, r: Ref)
    reads a
  {
    match r
    case Attached(csid) => csid in chunks && chunks[csid].msgData == a
    case Detached(data) => (a != null ==> a !in BuffersOf(chunks)) && Contents(a) == data
  }
}
