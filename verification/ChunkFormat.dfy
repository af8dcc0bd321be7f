/**
  Chunks by the byte, as section 5.3.1 of the RTMP 1.0 specification lays them out, against what the server writes and
  what it reads (rtmp.go:411-439, 478-543, 569-678).
 */
module ChunkFormat {
  import opened Bytes
  import opened Chunks
  import opened ChunkRuns

  // ---------------------------------------------------------------- fields by their bytes

  function Big2(b: seq<byte>, at: nat): nat
    requires at + 2 <= |b|
  {
    (b[at] as nat) * 0x100 + b[at + 1]
  }

  function Big3(b: seq<byte>, at: nat): nat
    requires at + 3 <= |b|
  {
    (b[at] as nat) * 0x1_0000 + (b[at + 1] as nat) * 0x100 + b[at + 2]
  }

  function Big4(b: seq<byte>, at: nat): nat
    requires at + 4 <= |b|
  {
    (b[at] as nat) * 0x100_0000 + (b[at + 1] as nat) * 0x1_0000 + (b[at + 2] as nat) * 0x100 + b[at + 3]
  }

  function Little4(b: seq<byte>, at: nat): nat
    requires at + 4 <= |b|
  {
    b[at] + (b[at + 1] as nat) * 0x100 + (b[at + 2] as nat) * 0x1_0000 + (b[at + 3] as nat) * 0x100_0000
  }

  /** Fields that are read and written are those numbers. */
  lemma BigFields(b: seq<byte>, at: nat)
    ensures at + 1 <= |b| ==> FromBE(b[at..at + 1]) == b[at]
    ensures at + 2 <= |b| ==> FromBE(b[at..at + 2]) == Big2(b, at)
    ensures at + 3 <= |b| ==> FromBE(b[at..at + 3]) == Big3(b, at)
    ensures at + 4 <= |b| ==> FromBE(b[at..at + 4]) == Big4(b, at)
  {
    if at + 1 <= |b| {
      assert b[at..at + 1][..0] == [];
    }
    if at + 2 <= |b| {
      assert b[at..at + 2][..1] == b[at..at + 1];
    }
    if at + 3 <= |b| {
      assert b[at..at + 3][..2] == b[at..at + 2];
    }
    if at + 4 <= |b| {
      assert b[at..at + 4][..3] == b[at..at + 3];
    }
  }

  lemma LittleField(b: seq<byte>, at: nat)
    requires at + 4 <= |b|
    ensures FromLE(b[at..at + 4]) == Little4(b, at)
  {
    assert b[at..at + 4][1..] == b[at + 1..at + 4] && b[at + 1..at + 4][1..] == b[at + 2..at + 4];
    assert b[at + 2..at + 4][1..] == b[at + 3..at + 4] && b[at + 3..at + 4][1..] == [];
    assert FromLE(b[at + 3..at + 4]) == b[at + 3];
    assert FromLE(b[at + 2..at + 4]) == b[at + 2] + (b[at + 3] as nat) * 0x100;
    assert FromLE(b[at + 1..at + 4]) == b[at + 1] + (b[at + 2] as nat) * 0x100 + (b[at + 3] as nat) * 0x1_0000;
  }

  lemma Read1(inp: seq<byte>, at: nat)
    requires at + 1 <= |inp|
    ensures ReadUint(inp[at..], 1, BE) == inp[at] && Skip(inp[at..], 1) == inp[at + 1..]
  {
    BigFields(inp, at);
    hide FromBE;
    assert inp[at..][..1] == inp[at..at + 1];
  }

  lemma Read2(inp: seq<byte>, at: nat)
    requires at + 2 <= |inp|
    ensures ReadUint(inp[at..], 2, BE) == Big2(inp, at) && Skip(inp[at..], 2) == inp[at + 2..]
  {
    BigFields(inp, at);
    hide FromBE, Big2;
    assert inp[at..][..2] == inp[at..at + 2];
  }

  lemma Read3(inp: seq<byte>, at: nat)
    requires at + 3 <= |inp|
    ensures ReadUint(inp[at..], 3, BE) == Big3(inp, at) && Skip(inp[at..], 3) == inp[at + 3..]
  {
    BigFields(inp, at);
    hide FromBE, Big3;
    assert inp[at..][..3] == inp[at..at + 3];
  }

  lemma Read4(inp: seq<byte>, at: nat)
    requires at + 4 <= |inp|
    ensures ReadUint(inp[at..], 4, BE) == Big4(inp, at) && Skip(inp[at..], 4) == inp[at + 4..]
    ensures ReadUint(inp[at..], 4, LE) == Little4(inp, at)
  {
    BigFields(inp, at);
    LittleField(inp, at);
    hide FromBE, FromLE, Big4, Little4;
    assert inp[at..][..4] == inp[at..at + 4];
  }

  // ---------------------------------------------------------------- headers read

  /** Type 0, 11 bytes: timestamp, message length, type id, and the stream id, which alone is little-endian. */
  lemma Type0Read<D>(c: Chunk<D>, inp: seq<byte>)
    requires c.fmt == 0 && |inp| >= 11 && (Big3(inp, 0) == 0xffffff ==> |inp| >= 15)
    ensures var (d, rest) := ReadHeader(c, inp);
      && d.msgLength == Big3(inp, 3) && d.msgTypeId == inp[6] && d.msgStreamId == Little4(inp, 7)
      && d.timestamp == (if Big3(inp, 0) == 0xffffff then Big4(inp, 11) else Big3(inp, 0))
      && rest == inp[if Big3(inp, 0) == 0xffffff then 15 else 11..]
  {
    hide ReadUint, Skip, Big3, Big4, Little4;
    assert inp[0..] == inp;
    Read3(inp, 0);
    Read3(inp, 3);
    Read1(inp, 6);
    Read4(inp, 7);
    if |inp| >= 15 {
      Read4(inp, 11);
    }
  }

  /** Type 1, 7 bytes: timestamp delta, message length and type id; the stream id stays. */
  lemma Type1Read<D>(c: Chunk<D>, inp: seq<byte>)
    requires c.fmt == 1 && |inp| >= 7 && (Big3(inp, 0) == 0xffffff ==> |inp| >= 11)
    ensures var (d, rest) := ReadHeader(c, inp);
      && d.msgLength == Big3(inp, 3) && d.msgTypeId == inp[6] && d.msgStreamId == c.msgStreamId
      && d.timeDelta == Big3(inp, 0)
      && d.timestamp == (Big3(inp, 0) + if Big3(inp, 0) == 0xffffff then Big4(inp, 7) else c.timestamp) % 0x1_0000_0000
      && rest == inp[if Big3(inp, 0) == 0xffffff then 11 else 7..]
  {
    hide ReadUint, Skip, Big3, Big4, Little4;
    assert inp[0..] == inp;
    Read3(inp, 0);
    Read3(inp, 3);
    Read1(inp, 6);
    if |inp| >= 11 {
      Read4(inp, 7);
    }
  }

  /** Type 2, 3 bytes: a timestamp delta. */
  lemma Type2Read<D>(c: Chunk<D>, inp: seq<byte>)
    requires c.fmt == 2 && |inp| >= 3 && (Big3(inp, 0) == 0xffffff ==> |inp| >= 7)
    ensures var (d, rest) := ReadHeader(c, inp);
      && d.msgLength == c.msgLength && d.msgTypeId == c.msgTypeId && d.msgStreamId == c.msgStreamId
      && d.timeDelta == Big3(inp, 0)
      && d.timestamp == (Big3(inp, 0) + if Big3(inp, 0) == 0xffffff then Big4(inp, 3) else c.timestamp) % 0x1_0000_0000
      && rest == inp[if Big3(inp, 0) == 0xffffff then 7 else 3..]
  {
    hide ReadUint, Skip, Big3, Big4, Little4;
    assert inp[0..] == inp;
    Read3(inp, 0);
    if |inp| >= 7 {
      Read4(inp, 3);
    }
  }

  /** Basic headers of one, two and three bytes, told by the six low bits of the first. */
  lemma BasicRead(inp: seq<byte>)
    requires inp != [] && (inp[0] % 64 == 0 ==> |inp| >= 2) && (inp[0] % 64 == 1 ==> |inp| >= 3)
    ensures var (fmt, csid, rest) := ReadBasic(inp); var low := inp[0] % 64;
      && inp[0] == fmt * 64 + low
      && csid == (if low == 0 then 64 + inp[1] else if low == 1 then 64 + Big2(inp, 1) else low)
      && rest == inp[if low == 0 then 2 else if low == 1 then 3 else 1..]
  {
    hide ReadUint, Skip, Big2;
    if |inp| >= 2 {
      Read1(inp, 1);
    }
    if |inp| >= 3 {
      Read2(inp, 1);
    }
  }

  // ---------------------------------------------------------------- headers written

  lemma Field3(u: nat, front: seq<byte>, rest: seq<byte>)
    requires u < 0x100_0000
    ensures Big3(front + (ToBE(u, 3) + rest), |front|) == u
  {
    var b := front + (ToBE(u, 3) + rest);
    assert b[|front|..|front| + 3] == ToBE(u, 3);
    assert Pow256(3) == 0x100_0000;
    FieldRoundTrip(u, 3, BE);
    BigFields(b, |front|);
  }

  lemma Field4(u: nat, front: seq<byte>, rest: seq<byte>)
    requires u < 0x1_0000_0000
    ensures Big4(front + (ToBE(u, 4) + rest), |front|) == u && Little4(front + (ToLE(u, 4) + rest), |front|) == u
  {
    assert Pow256(4) == 0x1_0000_0000;
    FieldRoundTrip(u, 4, BE);
    FieldRoundTrip(u, 4, LE);
    var b, l := front + (ToBE(u, 4) + rest), front + (ToLE(u, 4) + rest);
    assert b[|front|..|front| + 4] == ToBE(u, 4) && l[|front|..|front| + 4] == ToLE(u, 4);
    BigFields(b, |front|);
    LittleField(l, |front|);
  }

  lemma OneByte(u: byte)
    ensures ToBE(u, 1) == [u]
  {
    assert ToBE(u / 256, 0) == [];
  }

  /** What stands for a time in its three bytes: the mark, from 0xffffff on. */
  function Marked(time: nat): nat {
    if time >= 0xffffff then 0xffffff else time
  }

  lemma Type0Written(time: nat, length: nat, typeId: nat, streamId: nat)
    requires time < 0x1_0000_0000 && length < 0x100_0000 && typeId < 256 && streamId < 0x1_0000_0000
    ensures var w := Fields(0, time, length, typeId, streamId);
      && |w| == (if time > 0xffffff then 15 else 11)
      && Big3(w, 0) == Marked(time) && Big3(w, 3) == length && w[6] == typeId && Little4(w, 7) == streamId
      && (time > 0xffffff ==> Big4(w, 11) == time)
  {
    hide ToBE, ToLE, Big3, Big4, Little4, Fields;
    var tail := if time > 0xffffff then ToBE(time, 4) else [];
    OneByte(typeId);
    Shape0(time, length, typeId, streamId, tail);
    var t, l, s := ToBE(Marked(time), 3), ToBE(length, 3), ToLE(streamId, 4);
    var w := t + (l + ([typeId] + (s + tail)));
    Field3(Marked(time), [], l + ([typeId] + (s + tail)));
    assert [] + w == w;
    Field3(length, t, [typeId] + (s + tail));
    Field4(streamId, t + l + [typeId], tail);
    assert t + l + [typeId] + (s + tail) == w;
    if time > 0xffffff {
      Field4(time, t + l + [typeId] + s, []);
      assert t + l + [typeId] + s + (tail + []) == w;
    }
  }

  lemma Shape0(time: nat, length: nat, typeId: byte, streamId: nat, tail: seq<byte>)
    requires tail == if time > 0xffffff then ToBE(time, 4) else []
    ensures Fields(0, time, length, typeId, streamId) ==
      ToBE(Marked(time), 3) + (ToBE(length, 3) + (ToBE(typeId, 1) + (ToLE(streamId, 4) + tail)))
  {
    hide ToBE, ToLE;
    var t, l, k, s := ToBE(Marked(time), 3), ToBE(length, 3), ToBE(typeId, 1), ToLE(streamId, 4);
    assert l + k + (s + tail) == l + (k + (s + tail));
  }

  /** Type 3 has no message header, but for the extended field of the message it goes on with. */
  lemma Type3Written(time: nat, length: nat, typeId: nat, streamId: nat)
    requires time < 0x1_0000_0000
    ensures var w := Fields(3, time, length, typeId, streamId);
      if time > 0xffffff then |w| == 4 && Big4(w, 0) == time else w == []
  {
    hide ToBE, ToLE, Big4;
    if time > 0xffffff {
      Field4(time, [], []);
      assert [] + (ToBE(time, 4) + []) == Fields(3, time, length, typeId, streamId);
    }
  }

  /** The basic header that is written, where there is one that says the csid. */
  lemma BasicWritten(fmt: nat, csid: nat)
    requires fmt <= 3 && SafeCsid(csid)
    ensures var w := BasicHeader(fmt, csid);
      if csid < 64 then w == [fmt * 64 + csid]
      else if csid < 320 then w == [fmt * 64, csid - 64]
      else |w| == 3 && w[0] == fmt * 64 + 1 && Big2(w, 1) == csid - 64
  {
    if 64 <= csid < 320 {
      OneByte(csid - 64);
    } else if csid >= 384 {
      assert Pow256(2) == 0x1_0000;
      FieldRoundTrip(csid - 64, 2, BE);
      var w := BasicHeader(fmt, csid);
      assert w[1..3] == ToBE(csid - 64, 2);
      BigFields(w, 1);
    }
  }

  /** The specification has the less significant byte first: the two agree just where both bytes are the same. */
  lemma ThreeBytesExactly(fmt: nat, csid: nat)
    requires fmt <= 3 && 384 <= csid < 65600
    ensures var w := BasicHeader(fmt, csid);
      |w| == 3 && (64 + (w[2] as nat) * 256 + w[1] == csid <==> (csid - 64) / 256 == (csid - 64) % 256)
  {
    BasicWritten(fmt, csid);
  }

  // ---------------------------------------------------------------- bodies

  lemma Steps(i: nat, size: nat)
    requires i >= 1
    ensures (i - 1) * size + size == i * size && i * size + size == (i + 1) * size
  {
  }

  /** All chunks behind the first but the last are full, and each has what the message has at its place. */
  lemma {:induction false} BodyAt(csid: nat, time: nat, data: seq<byte>, chunkSize: nat, i: nat)
    requires chunkSize >= 1 && i < |Continuations(csid, time, data, chunkSize)|
    ensures i * chunkSize < |data|
    ensures Continuations(csid, time, data, chunkSize)[i] ==
      HeaderBytes(3, csid, time, 0, 0, 0) + data[i * chunkSize..Min(|data|, i * chunkSize + chunkSize)]
    decreases |data|
  {
    hide HeaderBytes;
    if i > 0 {
      var rest := Continuations(csid, time, data[Min(|data|, chunkSize)..], chunkSize);
      assert Continuations(csid, time, data, chunkSize)[i] == rest[i - 1];
      if |data| <= chunkSize {
        OneAtMost(csid, time, data, chunkSize);
        assert false;
      }
      BodyAt(csid, time, data[chunkSize..], chunkSize, i - 1);
      Steps(i, chunkSize);
      var at := (i - 1) * chunkSize;
      hide Continuations;
      SliceOfRest(data, chunkSize, at, Min(|data| - chunkSize, at + chunkSize));
    }
  }

  lemma OneAtMost(csid: nat, time: nat, data: seq<byte>, chunkSize: nat)
    requires chunkSize >= 1 && |data| <= chunkSize
    ensures |Continuations(csid, time, data, chunkSize)| <= 1
  {
    hide HeaderBytes;
    assert data[|data|..] == [];
  }

  lemma SliceOfRest(data: seq<byte>, n: nat, a: nat, b: nat)
    requires n + a <= n + b <= |data|
    ensures data[n..][a..b] == data[n + a..n + b]
  {
  }

  lemma {:induction false} BodiesCover(csid: nat, time: nat, data: seq<byte>, chunkSize: nat)
    requires chunkSize >= 1
    ensures |data| <= |Continuations(csid, time, data, chunkSize)| * chunkSize
    decreases |data|
  {
    hide HeaderBytes;
    if data != [] {
      var n := Min(|data|, chunkSize);
      BodiesCover(csid, time, data[n..], chunkSize);
      Steps(|Continuations(csid, time, data[n..], chunkSize)| + 1, chunkSize);
    }
  }

  /**
    The i-th chunk of a message is a header of type 0, or 3 behind the first, and the chunkSize bytes that the message
    has from i * chunkSize on, or those that are left; and there are chunks for all of it, and at least one.
   */
  lemma SplitWritten(m: Message, chunkSize: nat, i: nat)
    requires chunkSize >= 1 && i < |Split(m, chunkSize)|
    ensures i == 0 || i * chunkSize < |m.data|
    ensures |m.data| <= |Split(m, chunkSize)| * chunkSize
    ensures Split(m, chunkSize)[i] ==
      HeaderBytes(if i == 0 then 0 else 3, m.csid, m.timestamp, |m.data|, m.typeId, m.streamId) +
      m.data[i * chunkSize..Min(|m.data|, i * chunkSize + chunkSize)]
  {
    hide HeaderBytes, Continuations;
    var n := Min(|m.data|, chunkSize);
    var rest := Continuations(m.csid, m.timestamp, m.data[n..], chunkSize);
    BodiesCover(m.csid, m.timestamp, m.data[n..], chunkSize);
    Steps(|rest| + 1, chunkSize);
    if i > 0 {
      SameHeader(m);
      assert Split(m, chunkSize)[i] == rest[i - 1];
      hide Split;
      LaterBody(m, chunkSize, i);
    }
  }

  lemma LaterBody(m: Message, chunkSize: nat, i: nat)
    requires chunkSize >= 1 && i >= 1
    requires i - 1 < |Continuations(m.csid, m.timestamp, m.data[Min(|m.data|, chunkSize)..], chunkSize)|
    ensures i * chunkSize < |m.data|
    ensures Continuations(m.csid, m.timestamp, m.data[Min(|m.data|, chunkSize)..], chunkSize)[i - 1] ==
      HeaderBytes(3, m.csid, m.timestamp, 0, 0, 0) + m.data[i * chunkSize..Min(|m.data|, i * chunkSize + chunkSize)]
  {
    hide HeaderBytes, Continuations;
    var n := Min(|m.data|, chunkSize);
    BodyAt(m.csid, m.timestamp, m.data[n..], chunkSize, i - 1);
    Steps(i, chunkSize);
    var at := (i - 1) * chunkSize;
    SliceOfRest(m.data, n, at, Min(|m.data| - n, at + chunkSize));
  }

  lemma SameHeader(m: Message)
    ensures HeaderBytes(3, m.csid, m.timestamp, |m.data|, m.typeId, m.streamId) ==
      HeaderBytes(3, m.csid, m.timestamp, 0, 0, 0)
  {
  }
}
