/**
  The receiving side of an RTMP connection with its state (rtmp.go): the bytes still to come, the chunk table, and
  the buffers on the heap that its slots share with the messages already delivered.
 */
module RtmpStream {
  import opened Bytes
  import opened Chunks

  /** struct Chunk as it is stored: MsgData refers to a buffer, or to none (nil). */
  type HeapChunk = Chunk<array?<byte>>

  function Contents(a: array?<byte>): seq<byte>
    reads a
  {
    if a == null then [] else a[..]
  }

  /** A stored chunk read as a value. */
  function View(c: HeapChunk): Slot
    reads c.msgData
  {
    Chunk(c.fmtFirst, c.fmt, c.csid, c.timestamp, c.timeExted, c.timeDelta, c.msgLength, c.msgTypeId,
          c.msgStreamId, Contents(c.msgData), c.msgIndex, c.msgRemain, c.full)
  }

  type HeapTable = map<nat, HeapChunk>
  type Snapshots = map<array<byte>, seq<byte>>

  ghost function BuffersOf(chunks: HeapTable): set<array<byte>> {
    set csid | csid in chunks && chunks[csid].msgData != null :: chunks[csid].msgData as array<byte>
  }

  /** No two slots share a buffer. */
  ghost predicate Apart(chunks: HeapTable) {
    forall i, j :: i in chunks && j in chunks && i != j && chunks[i].msgData != null ==>
      chunks[i].msgData != chunks[j].msgData
  }

  /** A slot has a delivered buffer only while its message is the delivered one. */
  ghost predicate Loaned(chunks: HeapTable, held: Snapshots) {
    forall csid :: csid in chunks && chunks[csid].msgData in held ==> chunks[csid].full
  }

  /** The chunk table as a value. */
  ghost function TableValue(chunks: HeapTable): Table
    reads BuffersOf(chunks)
  {
    map csid | csid in chunks :: View(chunks[csid])
  }

  ghost predicate SlotsOk(chunks: HeapTable)
    reads BuffersOf(chunks)
  {
    (forall csid :: csid in chunks ==> chunks[csid].csid == csid) && TableOk(TableValue(chunks))
  }

  /** Every delivered buffer still promised holds what it held when its message was delivered. */
  ghost predicate HeldOk(held: Snapshots)
    reads held.Keys
  {
    forall a :: a in held ==> a[..] == held[a]
  }

  /** The promise on a buffer ends. */
  ghost function Released(held: Snapshots, a: array?<byte>): Snapshots {
    if a == null then held else held - {a as array<byte>}
  }

  ghost function Promised(held: Snapshots, a: array?<byte>): Snapshots
    reads a
  {
    if a == null then held else var b: array<byte> := a; held[b := a[..]]
  }

  /** What is promised once chunk c has been stored. */
  ghost function AfterChunk(held: Snapshots, c: HeapChunk): Snapshots
    reads c.msgData
  {
    var kept := if MakesBuffer(c.fmt) then held else Released(held, c.msgData);
    if c.full then Promised(kept, c.msgData) else kept
  }

  /** c's buffer is its own: no other slot's, and, if just made, nobody's. */
  ghost predicate OwnBuffer(chunks: HeapTable, held: Snapshots, c: HeapChunk) {
    && (c.msgData != null ==> forall i :: i in chunks && i != c.csid ==> chunks[i].msgData != c.msgData)
    && (MakesBuffer(c.fmt) ==> c.msgData !in held)
  }

  lemma ApartKept(chunks: HeapTable, held: Snapshots, c: HeapChunk)
    requires Apart(chunks) && OwnBuffer(chunks, held, c)
    ensures Apart(chunks[c.csid := c])
  {
  }

  lemma LoanedKept(chunks: HeapTable, held: Snapshots, c: HeapChunk)
    requires Loaned(chunks, held) && OwnBuffer(chunks, held, c)
    ensures Loaned(chunks[c.csid := c], AfterChunk(held, c))
  {
    var after := chunks[c.csid := c];
    forall i | i in after && after[i].msgData in AfterChunk(held, c)
      ensures after[i].full
    {
      if i != c.csid {
        assert chunks[i].msgData in held;
      }
    }
  }

  lemma HeldKept(held: Snapshots, c: HeapChunk)
    requires HeldOk(if MakesBuffer(c.fmt) then held else Released(held, c.msgData))
    ensures HeldOk(AfterChunk(held, c))
  {
  }

  lemma SlotsKept(chunks: HeapTable, c: HeapChunk, table: Table)
    requires Assembled(View(c)) && TableOk(table) && TableValue(chunks) - {c.csid} == table - {c.csid}
    requires forall i :: i in chunks ==> chunks[i].csid == i
    ensures SlotsOk(chunks[c.csid := c])
    ensures TableValue(chunks[c.csid := c]) == table[c.csid := View(c)]
  {
    hide Assembled;
    var after := chunks[c.csid := c];
    forall i | i in after
      ensures i in table[c.csid := View(c)] && View(after[i]) == table[c.csid := View(c)][i]
    {
      if i != c.csid {
        assert i in TableValue(chunks) - {c.csid} && (TableValue(chunks) - {c.csid})[i] == View(chunks[i]);
      }
    }
    forall i | i in table
      ensures i in after
    {
      if i != c.csid {
        assert i in table - {c.csid};
      }
    }
  }

  // ---------------------------------------------------------------- promises over many chunks

  /** The old buffers that these chunks were read into. */
  ghost function Spent(cs: seq<HeapChunk>): set<array<byte>> {
    set i | 0 <= i < |cs| && !MakesBuffer(cs[i].fmt) && cs[i].msgData != null :: cs[i].msgData as array<byte>
  }

  /** A chunk under fmt 2 or fmt 3 came on the csid whose slot had this buffer. */
  ghost predicate Ended(before: HeapTable, cs: seq<HeapChunk>, a: array<byte>) {
    exists i :: 0 <= i < |cs| && !MakesBuffer(cs[i].fmt) && cs[i].msgData == a &&
      cs[i].csid in before && before[cs[i].csid].msgData == a
  }

  /** Of the known buffers every slot has at most the one it had; and so had the chunks that came on the way. */
  ghost predicate Traced(before: HeapTable, after: HeapTable, cs: seq<HeapChunk>, known: set<array<byte>>) {
    && (forall k :: k in after ==> Kept(before, k, after[k].msgData, known))
    && (forall i :: 0 <= i < |cs| ==> Kept(before, cs[i].csid, cs[i].msgData, known))
  }

  ghost predicate Kept(before: HeapTable, csid: nat, a: array?<byte>, known: set<array<byte>>) {
    a != null && a in known ==> csid in before && before[csid].msgData == a
  }

  lemma NothingTraced(chunks: HeapTable, known: set<array<byte>>)
    ensures Traced(chunks, chunks, [], known)
  {
  }

  lemma NothingSpent(held: Snapshots)
    ensures held - Spent([]) == held
  {
  }

  lemma TraceOne(start: HeapTable, before: HeapTable, after: HeapTable, cs: seq<HeapChunk>, c: HeapChunk,
                 known: set<array<byte>>)
    requires Traced(start, before, cs, known) && after == before[c.csid := c]
    requires MakesBuffer(c.fmt) ==> c.msgData != null && c.msgData !in known
    requires !MakesBuffer(c.fmt) ==> c.msgData == if c.csid in before then before[c.csid].msgData else null
    ensures Traced(start, after, cs + [c], known)
  {
  }

  lemma SpendOne(held: Snapshots, cs: seq<HeapChunk>, c: HeapChunk)
    ensures (if MakesBuffer(c.fmt) then held - Spent(cs) else Released(held - Spent(cs), c.msgData)) ==
      held - Spent(cs + [c])
  {
    var more := cs + [c];
    assert more[|cs|] == c && forall i :: 0 <= i < |cs| ==> more[i] == cs[i];
    assert Spent(more) == Spent(cs) +
      if MakesBuffer(c.fmt) || c.msgData == null then {} else {c.msgData as array<byte>};
  }

  lemma AllEnded(before: HeapTable, after: HeapTable, cs: seq<HeapChunk>, known: set<array<byte>>, held: Snapshots)
    requires Traced(before, after, cs, known)
    ensures forall a :: a in held && a in known && a !in held - Spent(cs) ==> Ended(before, cs, a)
  {
  }

  /** These are the chunks, by their headers. */
  ghost predicate Headed(cs: seq<HeapChunk>, slots: seq<Slot>) {
    |cs| == |slots| && forall i :: 0 <= i < |cs| ==> cs[i].fmt == slots[i].fmt && cs[i].csid == slots[i].csid
  }

  lemma NothingHeaded()
    ensures Headed([], [])
  {
  }

  lemma HeadOne(cs: seq<HeapChunk>, slots: seq<Slot>, c: HeapChunk)
    requires Headed(cs, slots)
    ensures Headed(cs + [c], slots + [View(c)])
  {
  }

  /** Over fmt 0 and fmt 1 chunks all promises stand. */
  lemma NewBuffersSpendNothing(held: Snapshots, cs: seq<HeapChunk>, slots: seq<Slot>)
    requires Headed(cs, slots) && forall i :: 0 <= i < |slots| ==> MakesBuffer(slots[i].fmt)
    ensures held - Spent(cs) == held
  {
    assert Spent(cs) == {};
  }

  class Stream {
    var inp: seq<byte>  // what Conn has still to give
    var chunkSize: nat
    var remoteChunkSize: nat
    var chunks: HeapTable

    /** Buffers of delivered messages that are still as they were delivered, with what they hold. */
    ghost var held: Snapshots

    ghost function Buffers(): set<array<byte>>
      reads this`chunks
    {
      BuffersOf(chunks)
    }

    ghost predicate Valid()
      reads this`chunks, this`held, Buffers(), held.Keys
    {
      && Apart(chunks) && Loaned(chunks, held) && SlotsOk(chunks) && HeldOk(held)
    }

    ghost function TableOf(): Table
      reads this`chunks, Buffers()
    {
      TableValue(chunks)
    }

    /** NewStream, as far as the chunk layer goes. */
    constructor (inp: seq<byte>)
      ensures Valid() && this.inp == inp && chunkSize == remoteChunkSize == 128
      ensures chunks == map[] && held == map[]
    {
      this.inp, chunkSize, remoteChunkSize, chunks, held := inp, 128, 128, map[], map[];
    }

    // -------------------------------------------------------------- receiving

    method ReadUint32(n: nat, bo: ByteOrder) returns (u: nat)
      modifies this`inp
      ensures u == ReadUint(old(inp), n, bo) && inp == Skip(old(inp), n)
    {
      if |inp| < n {
        u, inp := 0, [];
      } else {
        assert inp[..n][..Min(n, n)] == inp[..n];
        u := ByteToUint(inp[..n], n, bo);
        inp := inp[n..];
      }
    }

    /** The header part of ChunkAssemble, on the caller's copy of the chunk. */
    method AssembleHeader(c: HeapChunk) returns (d: HeapChunk)
      requires c.fmt <= 3
      modifies this`inp
      ensures (d, inp) == ReadHeader(c, old(inp))
    {
      d := c;
      match c.fmt {
        case 0 =>
          var timestamp := ReadUint32(3, BE);
          var length := ReadUint32(3, BE);
          var typeId := ReadUint32(1, BE);
          var streamId := ReadUint32(4, LE);
          d := d.(timestamp := timestamp, msgLength := length, msgTypeId := typeId, msgStreamId := streamId);
          if d.timestamp == EXTENDED {
            timestamp := ReadUint32(4, BE);
            d := d.(timestamp := timestamp, timeExted := true);
          } else {
            d := d.(timeExted := false);
          }
          d := d.(msgIndex := 0, msgRemain := d.msgLength, full := false);
        case 1 =>
          var delta := ReadUint32(3, BE);
          var length := ReadUint32(3, BE);
          var typeId := ReadUint32(1, BE);
          d := d.(timeDelta := delta, msgLength := length, msgTypeId := typeId);
          d := AddDelta(d);
          d := d.(msgIndex := 0, msgRemain := d.msgLength, full := false);
        case 2 =>
          var delta := ReadUint32(3, BE);
          d := d.(timeDelta := delta);
          d := AddDelta(d);
          d := d.(msgIndex := 0, msgRemain := d.msgLength, full := false);
        case _ =>
          if d.msgRemain == 0 {
            d := d.(timestamp := (d.timestamp + d.timeDelta) % TWO_TO_THE_32,
                    msgIndex := 0, msgRemain := d.msgLength, full := false);
          }
      }
    }

    method AddDelta(c: HeapChunk) returns (d: HeapChunk)
      modifies this`inp
      ensures var (timestamp, rest) := Advance(c.timestamp, c.timeDelta, old(inp));
        d == c.(timestamp := timestamp, timeExted := c.timeDelta == EXTENDED) && inp == rest
    {
      d := c;
      if d.timeDelta == EXTENDED {
        var timestamp := ReadUint32(4, BE);
        d := d.(timestamp := timestamp, timeExted := true);
      } else {
        d := d.(timeExted := false);
      }
      d := d.(timestamp := (d.timestamp + d.timeDelta) % TWO_TO_THE_32);
    }

    /** The header, and the buffer that the message is to be read into. */
    method OpenChunk(c: HeapChunk) returns (d: HeapChunk)
      requires c.fmt <= 3
      modifies this`inp
      ensures View(d) == Opened(View(c), old(inp)) && inp == ReadHeader(View(c), old(inp)).1
      ensures if MakesBuffer(c.fmt) then d.msgData != null && fresh(d.msgData) else d.msgData == c.msgData
    {
      hide ReadHeader;
      HeaderOfView(c, View(c), inp);
      d := AssembleHeader(c);
      if MakesBuffer(c.fmt) {
        var buffer := new byte[d.msgLength](_ => 0);
        assert buffer[..] == Zeros(d.msgLength);
        d := d.(msgData := buffer);
      }
    }

    /** Conn.Read into a slice of a buffer: all of it, or an error. */
    method ReadInto(a: array?<byte>, at: nat, size: nat) returns (ok: bool)
      requires at + size <= |Contents(a)|
      modifies this`inp, a
      ensures ok <==> size <= |old(inp)|
      ensures ok ==> inp == old(inp)[size..] && Contents(a) == Overwrite(old(Contents(a)), at, old(inp)[..size])
      ensures !ok ==> inp == old(inp) && Contents(a) == old(Contents(a))
    {
      if |inp| < size {
        return false;
      }
      if a != null {
        assert inp[..size][..Min(size, size)] == inp[..size];
        Copy(a, at, at + size, inp[..size]);
      }
      inp := inp[size..];
      ok := true;
    }

    /** The body, into its place in the buffer. */
    method ReadBodyInto(c: HeapChunk) returns (ok: bool, d: HeapChunk)
      requires InRange(View(c))
      modifies this`inp, c.msgData
      ensures d.msgData == c.msgData
      ensures match ReadBody(old(View(c)), chunkSize, old(inp))
        case Failed => !ok
        case Stepped(slot, rest) => ok && View(d) == slot && inp == rest
      ensures !ok ==> Contents(c.msgData) == old(Contents(c.msgData))
    {
      hide Contents, Overwrite;
      var size := c.msgRemain;
      if size > chunkSize {
        size := chunkSize;
      }
      ok := ReadInto(c.msgData, c.msgIndex, size);
      d := c;
      if !ok {
        return;
      }
      d := d.(msgIndex := d.msgIndex + size, msgRemain := d.msgRemain - size);
      if d.msgRemain == 0 {
        d := d.(full := true);
      }
    }

    /**
      ChunkAssemble: header and body of one chunk, into the buffer that the chunk has or into a new one. fmt 0 and
      fmt 1 leave the old buffer as it was.
     */
    method ChunkAssemble(c: HeapChunk) returns (ok: bool, d: HeapChunk)
      requires InRange(View(c)) && c.fmt <= 3
      modifies this`inp, c.msgData
      ensures match Assemble(old(View(c)), chunkSize, old(inp))
        case Failed => !ok
        case Stepped(slot, rest) => ok && View(d) == slot && inp == rest
      ensures ok ==> d.fmt == c.fmt && d.csid == c.csid
      ensures ok ==> if MakesBuffer(c.fmt) then d.msgData != null && fresh(d.msgData) else d.msgData == c.msgData
      ensures !ok || MakesBuffer(c.fmt) ==> Contents(c.msgData) == old(Contents(c.msgData))
    {
      hide ReadHeader, ReadBody, Opened, InRange;
      OpenedInRange(View(c), inp);
      d := OpenChunk(c);
      ok, d := ReadBodyInto(d);
    }

    /** Reading a header does not depend on what stands for the buffer. */
    lemma HeaderOfView(c: HeapChunk, v: Slot, inp: seq<byte>)
      requires v == View(c)
      ensures var d, e := ReadHeader(c, inp), ReadHeader(v, inp);
        d.1 == e.1 && d.0.msgData == c.msgData && View(d.0) == e.0
    {
    }

    /** The basic header; an id that is cut short reads as 0. */
    method ReadBasicHeader() returns (fmt: nat, csid: nat)
      requires inp != []
      modifies this`inp
      ensures (fmt, csid, inp) == ReadBasic(old(inp))
    {
      var bh := inp[0];
      inp := inp[1..];
      fmt, csid := bh / 64, bh % 64;
      if csid == 0 {
        var id := ReadUint32(1, BE);
        csid := id + 64;
      } else if csid == 1 {
        var id := ReadUint32(2, BE);
        csid := id + 64;
      }
    }

    /** The chunk is assembled on a copy of its slot; the table still has the old one. */
    method AssembleAt(fmt: nat, csid: nat, first: bool) returns (ok: bool, c: HeapChunk)
      requires Valid() && fmt <= 3
      modifies this`inp, Buffers()
      ensures match Assemble(old(Addressed(TableOf(), fmt, csid, first)), chunkSize, old(inp))
        case Failed => !ok
        case Stepped(slot, rest) => ok && View(c) == slot && inp == rest
      ensures ok ==> c.fmt == fmt && c.csid == csid
      ensures !ok || MakesBuffer(fmt) ==> TableValue(chunks) == old(TableValue(chunks)) && HeldOk(held)
      ensures ok && !MakesBuffer(fmt) ==>
        TableValue(chunks) - {csid} == old(TableValue(chunks)) - {csid} && HeldOk(Released(held, c.msgData))
      ensures ok && MakesBuffer(fmt) ==> c.msgData != null && fresh(c.msgData)
      ensures ok && !MakesBuffer(fmt) ==> c.msgData == if csid in chunks then chunks[csid].msgData else null
      ensures forall a :: a in old(Buffers()) && !(ok && !MakesBuffer(fmt) && a == c.msgData) ==> a[..] == old(a[..])
    {
      hide Assembled, Assemble, Loaned, ReadBody, ReadHeader;
      if csid in chunks {
        c := chunks[csid];
      } else {
        c := Blank(null);
      }
      if first {
        c := c.(fmtFirst := fmt);
      }
      c := c.(fmt := fmt, csid := csid);
      AddressedInRange(TableOf(), fmt, csid, first);
      ok, c := ChunkAssemble(c);
    }

    /** Storing the chunk in the table, and settling what is promised of its buffer. */
    method Store(c: HeapChunk, ghost table: Table)
      requires Apart(chunks) && Loaned(chunks, held) && OwnBuffer(chunks, held, c)
      requires Assembled(View(c)) && TableOk(table) && TableValue(chunks) - {c.csid} == table - {c.csid}
      requires forall i :: i in chunks ==> chunks[i].csid == i
      requires HeldOk(if MakesBuffer(c.fmt) then held else Released(held, c.msgData))
      modifies this`chunks, this`held
      ensures Valid() && chunks == old(chunks)[c.csid := c] && held == AfterChunk(old(held), c)
      ensures TableOf() == table[c.csid := View(c)]
    {
      hide Apart, Loaned, OwnBuffer, AfterChunk, Assembled, TableOk;
      ApartKept(chunks, held, c);
      LoanedKept(chunks, held, c);
      HeldKept(held, c);
      SlotsKept(chunks, c, table);
      chunks, held := chunks[c.csid := c], AfterChunk(held, c);
      assert TableValue(chunks) == old(TableValue(chunks[c.csid := c]));
    }

    /** ChunkAssemble and the table update that follows it. */
    method AssembleAndStore(fmt: nat, csid: nat, first: bool) returns (ok: bool, c: HeapChunk)
      requires Valid() && fmt <= 3
      modifies this`inp, this`chunks, this`held, Buffers()
      ensures Valid()
      ensures match Assemble(old(Addressed(TableOf(), fmt, csid, first)), chunkSize, old(inp))
        case Failed => !ok && TableOf() == old(TableOf())
        case Stepped(slot, rest) =>
          ok && View(c) == slot && inp == rest && TableOf() == old(TableOf())[c.csid := slot]
      ensures ok ==> chunks == old(chunks)[c.csid := c] && held == AfterChunk(old(held), c)
      ensures !ok ==> chunks == old(chunks) && held == old(held)
      ensures ok && MakesBuffer(c.fmt) ==> c.msgData != null && fresh(c.msgData)
      ensures ok && !MakesBuffer(c.fmt) ==>
        c.msgData == if c.csid in old(chunks) then old(chunks)[c.csid].msgData else null
      ensures forall a :: a in old(Buffers()) && !(ok && !MakesBuffer(c.fmt) && a == c.msgData) ==> a[..] == old(a[..])
    {
      hide Assembled, Assemble, InRange, Loaned, AfterChunk, HeldOk, TableValue, View, TableOk, Addressed;
      ok, c := AssembleAt(fmt, csid, first);
      if ok {
        assert OwnBuffer(chunks, held, c);
        Store(c, old(TableOf()));
      }
    }

    /**
      One round of MessageMerge's loop. Only the slot that the chunk addresses changes, and of all buffers only the
      one that slot has, and that only under fmt 2 or fmt 3; so every delivered buffer stays as it is until such a
      chunk comes on its own csid.
     */
    method ReceiveChunk(first: bool) returns (ok: bool, c: HeapChunk)
      requires Valid()
      modifies this`inp, this`chunks, this`held, Buffers()
      ensures Valid()
      ensures match ChunkStep(old(TableOf()), chunkSize, old(inp), first)
        case Failed => !ok && TableOf() == old(TableOf())
        case Stepped(slot, rest) =>
          ok && View(c) == slot && inp == rest && TableOf() == old(TableOf())[c.csid := slot]
      ensures ok ==> chunks == old(chunks)[c.csid := c] && held == AfterChunk(old(held), c)
      ensures !ok ==> chunks == old(chunks) && held == old(held)
      ensures ok && MakesBuffer(c.fmt) ==> c.msgData != null && fresh(c.msgData)
      ensures ok && !MakesBuffer(c.fmt) ==>
        c.msgData == if c.csid in old(chunks) then old(chunks)[c.csid].msgData else null
      ensures forall a :: a in old(Buffers()) && !(ok && !MakesBuffer(c.fmt) && a == c.msgData) ==> a[..] == old(a[..])
    {
      hide Assembled, Assemble, ReadBasic, InRange, Apart, Loaned, AfterChunk, HeldOk, View, TableOk, ChunkStep,
        Addressed;
      if inp == [] {
        StepAtEnd(TableOf(), chunkSize, first);
        return false, Blank(null);
      }
      StepUnfolds(TableOf(), chunkSize, inp, first);
      var fmt, csid := ReadBasicHeader();
      ok, c := AssembleAndStore(fmt, csid, first);
    }

    /**
      MessageMerge. `cs` are the chunks it takes in, by their headers those of the stream. The message it returns is
      promised; a promise made before ends just when one of these chunks comes under fmt 2 or fmt 3 on the csid whose
      slot has that buffer, and all other promises stand, with the bytes they were made for.
     */
    method MessageMerge() returns (ok: bool, c: HeapChunk, ghost cs: seq<HeapChunk>)
      requires Valid()
      modifies this`inp, this`chunks, this`held, Buffers()
      ensures Valid()
      ensures match Merge(old(TableOf()), chunkSize, old(inp), true)
        case Closed => !ok
        case Delivered(slot, table, rest) => ok && View(c) == slot && TableOf() == table && inp == rest
      ensures ok ==> cs != [] && cs[|cs| - 1] == c && c.full
      ensures held == if ok then Promised(old(held) - Spent(cs), c.msgData) else old(held) - Spent(cs)
      ensures Headed(cs, Taken(old(TableOf()), chunkSize, old(inp), true))
      ensures Traced(old(chunks), chunks, cs, old(Buffers() + held.Keys))
      ensures forall a :: a in old(held) && a !in held ==> Ended(old(chunks), cs, a)
      ensures forall a :: a in Buffers() ==> a in old(Buffers()) || fresh(a)
    {
      hide Assembled, ChunkStep, Apart, Loaned, SlotsOk, HeldOk, TableValue, Merge, Taken, TableOk, Spent, Ended,
        Traced, Headed;
      assert TableOk(TableOf()) by {
        ValidTable();
      }
      var first := true;
      cs := [];
      ghost var slots: seq<Slot> := [];
      NothingTraced(chunks, Buffers() + held.Keys);
      NothingHeaded();
      NothingSpent(held);
      while true
        invariant Valid() && TableOk(TableOf())
        invariant forall a :: a in Buffers() ==> a in old(Buffers()) || fresh(a)
        invariant Merge(TableOf(), chunkSize, inp, first) == Merge(old(TableOf()), chunkSize, old(inp), true)
        invariant held == old(held) - Spent(cs)
        invariant Headed(cs, slots)
        invariant Taken(old(TableOf()), chunkSize, old(inp), true) == slots + Taken(TableOf(), chunkSize, inp, first)
        invariant Traced(old(chunks), chunks, cs, old(Buffers() + held.Keys))
        decreases |inp|
      {
        ghost var table, was, before := TableOf(), inp, chunks;
        MergeStep(table, chunkSize, was, first);
        ok, c := ReceiveChunk(first);
        assert ok ==> ChunkStep(table, chunkSize, was, first) == Stepped(View(c), inp);
        ValidTable();
        if !ok {
          assert slots + [] == slots;
          AllEnded(old(chunks), chunks, cs, old(Buffers() + held.Keys), old(held));
          return;
        }
        TraceOne(old(chunks), before, chunks, cs, c, old(Buffers() + held.Keys));
        SpendOne(old(held), cs, c);
        HeadOne(cs, slots, c);
        assert slots + ([View(c)] + []) == slots + [View(c)];
        cs, slots := cs + [c], slots + [View(c)];
        if c.full {
          AllEnded(old(chunks), chunks, cs, old(Buffers() + held.Keys), old(held));
          return;
        }
        first := false;
      }
    }

    lemma StepAtEnd(table: Table, chunkSize: nat, first: bool)
      requires TableOk(table)
      ensures ChunkStep(table, chunkSize, [], first) == Failed
    {
    }

    lemma StepUnfolds(table: Table, chunkSize: nat, inp: seq<byte>, first: bool)
      requires TableOk(table) && inp != []
      ensures var (fmt, csid, rest) := ReadBasic(inp);
        ChunkStep(table, chunkSize, inp, first) == Assemble(Addressed(table, fmt, csid, first), chunkSize, rest)
    {
      hide Assemble, ReadBasic;
    }

    lemma MergeStep(table: Table, chunkSize: nat, inp: seq<byte>, first: bool)
      requires TableOk(table)
      ensures match ChunkStep(table, chunkSize, inp, first)
        case Failed => Merge(table, chunkSize, inp, first) == Closed && Taken(table, chunkSize, inp, first) == []
        case Stepped(slot, rest) =>
          var table' := table[slot.csid := slot];
          && |rest| < |inp| && TableOk(table')
          && Merge(table, chunkSize, inp, first) ==
             (if slot.full then Delivered(slot, table', rest) else Merge(table', chunkSize, rest, false))
          && Taken(table, chunkSize, inp, first) ==
             [slot] + (if slot.full then [] else Taken(table', chunkSize, rest, false))
    {
      hide ChunkStep;
    }

    lemma ValidTable()
      requires Valid()
      ensures TableOk(TableOf())
    {
    }

    /** AmfConnectResponse, as far as the chunk size goes: what it tells the client holds for what it reads as well. */
    method AmfConnectResponse() returns (told: nat)
      modifies this`chunkSize
      ensures told == chunkSize == if old(chunkSize) != 128 then old(chunkSize) else 1024
    {
      told := 1024;
      if chunkSize != 128 {
        told := chunkSize;
      }
      chunkSize := told;
    }

    /** The number in a Set Chunk Size message; there may be fewer than four bytes, or no buffer. */
    method ChunkSizeIn(c: HeapChunk) returns (size: nat)
      ensures size == FromBE(Contents(c.msgData)[..Min(|Contents(c.msgData)|, 4)]) < TWO_TO_THE_32
    {
      hide FromBE;
      if c.msgData == null {
        size := ByteToUint([], 4, BE);
      } else {
        size := ByteToUint(c.msgData[..], 4, BE);
      }
    }

    /** MessageHandle for a Set Chunk Size message: the new size holds from the next chunk on. */
    method HandleSetChunkSize(c: HeapChunk)
      requires Valid()
      modifies this`chunkSize, this`remoteChunkSize
      ensures Valid() && chunks == old(chunks) && held == old(held)
      ensures chunkSize == FromBE(Contents(c.msgData)[..Min(|Contents(c.msgData)|, 4)]) < TWO_TO_THE_32
      ensures remoteChunkSize == chunkSize
    {
      hide FromBE, Min, View;
      var size := ChunkSizeIn(c);
      chunkSize, remoteChunkSize := size, size;
    }
  }
}
