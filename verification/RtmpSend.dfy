/** The sending side of an RTMP connection: MessageSplit and ChunkHeaderAssemble (rtmp.go:569-678). */
module RtmpSend {
  import opened Bytes
  import opened Chunks

  /** The fields fit their Go types. */
  predicate Writable(m: Message) {
    && m.csid < TWO_TO_THE_32 && m.timestamp < TWO_TO_THE_32 && |m.data| < TWO_TO_THE_32
    && m.typeId < TWO_TO_THE_32 && m.streamId < TWO_TO_THE_32
  }

  class Sender {
    var out: seq<byte>  // what has been written to Conn
    var chunkSize: nat

    constructor ()
      ensures out == [] && chunkSize == 128
    {
      out, chunkSize := [], 128;
    }

    /** WriteUint32: the n low-order bytes of u. */
    method WriteUint32(bo: ByteOrder, u: nat, n: nat)
      requires u < TWO_TO_THE_32 && n <= 4
      modifies this`out
      ensures out == old(out) + To(u, n, bo)
    {
      var b := UintToByte(u, 4, null, 0, 0, bo);
      LowBytes(u, 4, n, bo);
      out := out + if bo == BE then b[4 - n..] else b[..n];
    }

    /** ChunkHeaderAssemble up to the basic header. */
    method WriteBasicHeader(fmt: nat, csid: nat)
      requires fmt <= 3 && csid < TWO_TO_THE_32
      modifies this`out
      ensures out == old(out) + BasicHeader(fmt, csid)
    {
      hide ToBE, ToLE;
      if csid < 64 {
        OneByte(fmt * 64 + csid);
        WriteUint32(BE, fmt * 64 + csid, 1);
      } else if csid - 64 < 320 {
        OneByte(fmt * 64);
        WriteUint32(BE, fmt * 64, 1);
        WriteUint32(BE, csid - 64, 1);
      } else if csid - 64 < 65600 {
        OneByte(fmt * 64 + 1);
        WriteUint32(BE, fmt * 64 + 1, 1);
        WriteUint32(BE, csid - 64, 2);
      }
    }

    method ChunkHeaderAssemble(fmt: nat, m: Message)
      requires fmt <= 3 && Writable(m)
      modifies this`out
      ensures out == old(out) + HeaderBytes(fmt, m.csid, m.timestamp, |m.data|, m.typeId, m.streamId)
    {
      hide ToBE, ToLE, BasicHeader;
      WriteBasicHeader(fmt, m.csid);
      ghost var basic := out;
      if fmt != 3 {
        WriteUint32(BE, if m.timestamp > EXTENDED then EXTENDED else m.timestamp, 3);
        if fmt != 2 {
          WriteUint32(BE, |m.data|, 3);
          WriteUint32(BE, m.typeId, 1);
          if fmt != 1 {
            WriteUint32(LE, m.streamId, 4);
          }
        }
      }
      if m.timestamp > EXTENDED {
        WriteUint32(BE, m.timestamp, 4);
      }
      assert out == basic + Fields(fmt, m.timestamp, |m.data|, m.typeId, m.streamId);
    }

    /** One round of MessageSplit's loop: header and body of the i-th chunk, which begins at position si. */
    method WriteChunk(m: Message, si: nat, i: nat) returns (ei: nat)
      requires chunkSize >= 1 && Writable(m) && AtRound(i, chunkSize, si, |m.data|)
      modifies this`out
      ensures ei == si + Min(|m.data| - si, chunkSize)
      ensures out + ToSend(m, chunkSize, i + 1, ei) == old(out) + ToSend(m, chunkSize, i, si)
    {
      hide HeaderBytes, ToSend;
      var fmt := if i != 0 then 3 else 0;
      ToSendStep(m, chunkSize, i, si);
      ChunkHeaderAssemble(fmt, m);
      var div := |m.data| - si;
      ei := si + if div > chunkSize then chunkSize else div;
      assert m.data[si..][..ei - si] == m.data[si..ei];
      out := out + m.data[si..ei];
    }

    /**
      MessageSplit: the chunks of m, as `Split` lists them. (MsgLength is the length of MsgData for every chunk
      that gets here, and the Fmt that is left in the chunk is not read again.)
     */
    method MessageSplit(m: Message)
      requires chunkSize >= 1 && Writable(m)
      modifies this`out
      ensures out == old(out) + Flatten(Split(m, chunkSize))
    {
      assert ToSend(m, chunkSize, 0, 0) == Flatten(Split(m, chunkSize));
      FirstRound(chunkSize, |m.data|);
      hide ToSend, Split, Flatten, Writable, AtRound, Rounds;
      var n := Rounds(|m.data|, chunkSize);
      var i, sLen: nat := 0, 0;
      while i < n
        invariant i <= n && sLen <= |m.data| && AtRound(i, chunkSize, sLen, |m.data|)
        invariant old(out) + ToSend(m, chunkSize, 0, 0) == out + ToSend(m, chunkSize, i, sLen)
      {
        NextRound(i, chunkSize, sLen, |m.data|);
        sLen := WriteChunk(m, sLen, i);
        if sLen >= |m.data| {
          EmptyContinuations(m, chunkSize, i + 1);
          return;
        }
        i := i + 1;
      }
      NoRoundsLeft(chunkSize, sLen, |m.data|);
      assert false;
    }
  }

  lemma {:induction false} LowBytes(u: nat, width: nat, n: nat, bo: ByteOrder)
    requires n <= width
    ensures To(u, n, bo) == if bo == BE then ToBE(u, width)[width - n..] else ToLE(u, width)[..n]
  {
    if n > 0 {
      LowBytes(u / 256, width - 1, n - 1, bo);
    }
  }

  lemma OneByte(u: byte)
    ensures ToBE(u, 1) == [u]
  {
    assert ToBE(u / 256, 0) == [];
  }

  /** The i-th round of MessageSplit's loop begins at position si of the message. */
  ghost predicate AtRound(i: nat, chunkSize: nat, si: nat, length: nat) {
    si == i * chunkSize <= length && (i > 0 ==> si < length)
  }

  lemma FirstRound(chunkSize: nat, length: nat)
    ensures AtRound(0, chunkSize, 0, length)
  {
  }

  lemma NextRound(i: nat, chunkSize: nat, si: nat, length: nat)
    requires AtRound(i, chunkSize, si, length)
    ensures si <= length && (if i == 0 then si == 0 else si < length)
    ensures var ei := si + Min(length - si, chunkSize);
      ei <= length && (ei < length ==> AtRound(i + 1, chunkSize, ei, length))
  {
  }

  function Rounds(length: nat, chunkSize: nat): nat
    requires chunkSize >= 1
  {
    length / chunkSize + 1
  }

  lemma NoRoundsLeft(chunkSize: nat, si: nat, length: nat)
    requires chunkSize >= 1
    ensures !AtRound(Rounds(length, chunkSize), chunkSize, si, length)
  {
    assert length == length / chunkSize * chunkSize + length % chunkSize;
  }

  /** What MessageSplit has still to write at the i-th round of its loop, having sent `sent` bytes. */
  ghost function ToSend(m: Message, chunkSize: nat, i: nat, sent: nat): seq<byte>
    requires chunkSize >= 1 && sent <= |m.data|
  {
    if i == 0 then Flatten(Split(m, chunkSize))
    else Flatten(Continuations(m.csid, m.timestamp, m.data[sent..], chunkSize))
  }

  lemma ToSendStep(m: Message, chunkSize: nat, i: nat, sent: nat)
    requires chunkSize >= 1 && sent <= |m.data| && if i == 0 then sent == 0 else sent < |m.data|
    ensures var n := Min(|m.data| - sent, chunkSize);
      ToSend(m, chunkSize, i, sent) ==
        HeaderBytes(if i != 0 then 3 else 0, m.csid, m.timestamp, |m.data|, m.typeId, m.streamId) +
        m.data[sent..][..n] + ToSend(m, chunkSize, i + 1, sent + n)
  {
    hide HeaderBytes, Continuations, Split, Flatten;
    var n := Min(|m.data| - sent, chunkSize);
    if i == 0 {
      SplitShape(m, chunkSize);
      assert m.data[0..] == m.data;
    } else {
      ContinuationsShape(m.csid, m.timestamp, m.data[sent..], chunkSize);
      ContinuationHeader(m.csid, m.timestamp, |m.data|, m.typeId, m.streamId);
      assert m.data[sent..][n..] == m.data[sent + n..];
    }
  }

  lemma ContinuationHeader(csid: nat, time: nat, length: nat, typeId: nat, streamId: nat)
    ensures HeaderBytes(3, csid, time, length, typeId, streamId) == HeaderBytes(3, csid, time, 0, 0, 0)
  {
  }

  lemma EmptyContinuations(m: Message, chunkSize: nat, i: nat)
    requires chunkSize >= 1 && i > 0
    ensures ToSend(m, chunkSize, i, |m.data|) == []
  {
    assert m.data[|m.data|..] == [];
  }
}
