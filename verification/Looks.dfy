/**
  Which bytes of a message the HLS producer looks at (hls.go:109-149, 200-246, 302-331, 880-1064), and that the others
  make no difference to what it writes.
 */
module Looks {
  import opened Bytes
  import opened DataTypes
  import opened Mux
  import opened ParameterSets
  import opened Segments
  import Adts
  import Pes

  function Beyond(data: seq<byte>, n: nat): seq<byte> {
    if |data| < n then [] else data[n..]
  }

  /**
    The bytes of a message that the producer looks at, going by its DataType: of a video frame the composition time and
    the NALU, of an AAC frame all but its tag header, of the headers what they configure, and nothing of the rest.
   */
  function Looked(c: Chunk): seq<byte> {
    match c
    case Media(Aac, _, data) => Beyond(data, 2)
    case Media(_, _, data) => (if |data| < 5 then [] else data[2..5]) + Beyond(data, 9)
    case VideoHeader(record) => if |record| >= 13 && EndPos(record) == LAST_POS then record else Beyond(record, 5)
    case AudioHeader(config) => if |config| < 4 then [] else config[2..4]
    case _ => []
  }

  function Size(c: Chunk): nat {
    match c
    case Media(_, _, data) => |data|
    case VideoHeader(record) => |record|
    case AudioHeader(config) => |config|
    case _ => 0
  }

  /** The same to the producer: they differ at most in bytes that it never looks at. */
  predicate Alike(c: Chunk, d: Chunk) {
    && Looked(c) == Looked(d) && Size(c) == Size(d)
    && match c
       case Media(kind, timestamp, _) => d.Media? && d.kind == kind && d.timestamp == timestamp
       case Other(timestamp) => d == c
       case VideoHeader(_) => d.VideoHeader?
       case AudioHeader(_) => d.AudioHeader?
       case Metadata => d.Metadata?
  }

  /** Byte by byte: what the producer looks at in a frame is its composition time, if it has one, and its data. */
  lemma LookedExactly(kind: Kind, timestamp: nat, x: seq<byte>, y: seq<byte>)
    requires |x| == |y| >= if kind == Aac then 2 else 9
    ensures Alike(Media(kind, timestamp, x), Media(kind, timestamp, y)) <==>
      forall i :: 0 <= i < |x| && (if kind == Aac then i >= 2 else 2 <= i < 5 || i >= 9) ==> x[i] == y[i]
  {
    if kind == Aac {
      SameBehind(x, y, 2);
    } else {
      SameBehind(x, y, 9);
      var a, b := x[2..5] + x[9..], y[2..5] + y[9..];
      assert a[..3] == x[2..5] && b[..3] == y[2..5] && a[3..] == x[9..] && b[3..] == y[9..];
      assert x[2..5] == y[2..5] <==> x[2] == y[2] && x[3] == y[3] && x[4] == y[4] by {
        assert x[2..5] == [x[2], x[3], x[4]] && y[2..5] == [y[2], y[3], y[4]];
      }
    }
  }

  lemma SameBehind(x: seq<byte>, y: seq<byte>, n: nat)
    requires |x| == |y| >= n
    ensures x[n..] == y[n..] <==> forall i :: n <= i < |x| ==> x[i] == y[i]
  {
    if x[n..] == y[n..] {
      forall i | n <= i < |x|
        ensures x[i] == y[i]
      {
        assert x[i] == x[n..][i - n] && y[i] == y[n..][i - n];
      }
    }
  }

  /** Of an audio header it looks at two bytes, of metadata at none. */
  lemma LookedInHeaders(x: seq<byte>, y: seq<byte>)
    requires |x| == |y| >= 4
    ensures Alike(AudioHeader(x), AudioHeader(y)) <==> x[2] == y[2] && x[3] == y[3]
    ensures Alike(Metadata, Metadata)
  {
    assert x[2..4] == [x[2], x[3]] && y[2..4] == [y[2], y[3]];
  }

  ghost predicate AllAlike(cs: seq<Chunk>, ds: seq<Chunk>) {
    |cs| == |ds| && forall i :: 0 <= i < |cs| ==> Alike(cs[i], ds[i])
  }

  lemma SamePes(kind: Kind, timestamp: nat, spsPps: seq<byte>, adts: seq<byte>, x: seq<byte>, y: seq<byte>)
    requires |x| >= Pes.TagLen(kind) && (kind == Aac ==> |adts| == Adts.ADTS_LEN)
    requires Alike(Media(kind, timestamp, x), Media(kind, timestamp, y))
    ensures Pes.Packet(kind, timestamp, spsPps, adts, x) == Pes.Packet(kind, timestamp, spsPps, adts, y)
  {
    hide Pes.Header, Pes.WithPacketLength, Adts.WithLength;
    if kind != Aac {
      assert (x[2..5] + x[9..])[..3] == x[2..5] && (y[2..5] + y[9..])[..3] == y[2..5];
      assert (x[2..5] + x[9..])[3..] == x[9..] && (y[2..5] + y[9..])[3..] == y[9..];
    }
  }

  lemma AlikeFronts(cs: seq<Chunk>, ds: seq<Chunk>)
    requires AllAlike(cs, ds) && cs != []
    ensures ds != [] && AllAlike(Front(cs), Front(ds)) && Alike(Last(cs), Last(ds))
  {
  }

  lemma {:induction false} AlikeHeaders(cs: seq<Chunk>, ds: seq<Chunk>)
    requires AllAlike(cs, ds) && Runs(cs)
    ensures LastAdts(cs) == LastAdts(ds) && LastSpsPps(cs) == LastSpsPps(ds)
    decreases |cs|
  {
    if cs != [] {
      AlikeFronts(cs, ds);
      AlikeHeaders(Front(cs), Front(ds));
      var c, d := Last(cs), Last(ds);
      if c.VideoHeader? {
        SameRecord(c, d);
      } else if c.AudioHeader? {
        assert c.config[2..4][0] == c.config[2] && c.config[2..4][1] == c.config[3];
        assert d.config[2..4][0] == d.config[2] && d.config[2..4][1] == d.config[3];
      }
      hide RecordOk, PrepareOk, SpsPps, Adts.Layout;
    }
  }

  /** Streams that are alike to the producer make the same units. */
  lemma {:induction false} AlikeUnits(cs: seq<Chunk>, ds: seq<Chunk>, pid: nat)
    requires AllAlike(cs, ds) && Runs(cs)
    ensures Runs(ds) && UnitsOf(Jobs(cs), pid) == UnitsOf(Jobs(ds), pid)
    decreases |cs|
  {
    hide Runs, Jobs, UnitsOf, Looked, Acceptable;
    if cs == [] {
      assert ds == [];
    } else {
      RunsFront(cs);
      AlikeFronts(cs, ds);
      AlikeUnits(Front(cs), Front(ds), pid);
      assert cs == Front(cs) + [Last(cs)] && ds == Front(ds) + [Last(ds)];
      OneMoreAlike(Front(cs), Front(ds), Last(cs), Last(ds), pid);
    }
  }

  lemma RunsFront(cs: seq<Chunk>)
    requires Runs(cs) && cs != []
    ensures Runs(Front(cs)) && Acceptable(Front(cs), Last(cs))
  {
    hide Acceptable;
  }

  lemma OneMoreAlike(cs: seq<Chunk>, ds: seq<Chunk>, c: Chunk, d: Chunk, pid: nat)
    requires AllAlike(cs, ds) && Runs(cs) && Runs(ds) && Alike(c, d) && Acceptable(cs, c)
    requires UnitsOf(Jobs(cs), pid) == UnitsOf(Jobs(ds), pid)
    ensures Runs(cs + [c]) && Runs(ds + [d]) && UnitsOf(Jobs(cs + [c]), pid) == UnitsOf(Jobs(ds + [d]), pid)
  {
    hide Runs, Jobs, UnitsOf, LastSpsPps, LastAdts, Looked, Acceptable, PesOf, AllAlike;
    AlikeHeaders(cs, ds);
    AlikeAcceptable(cs, ds, c, d);
    UnitsMore(cs, c, pid);
    UnitsMore(ds, d, pid);
    if c.Media? {
      SameUnit(cs, c, d);
    }
  }

  lemma SameUnit(before: seq<Chunk>, c: Chunk, d: Chunk)
    requires Alike(c, d) && c.Media? && Acceptable(before, c)
    ensures Muxable(Job(c.kind, c.timestamp, LastSpsPps(before), LastAdts(before), c.data))
    ensures Muxable(Job(c.kind, c.timestamp, LastSpsPps(before), LastAdts(before), d.data))
    ensures PesOf(Job(c.kind, c.timestamp, LastSpsPps(before), LastAdts(before), c.data)) ==
      PesOf(Job(c.kind, c.timestamp, LastSpsPps(before), LastAdts(before), d.data))
  {
    hide LastSpsPps, LastAdts;
    SamePes(c.kind, c.timestamp, LastSpsPps(before), LastAdts(before), c.data, d.data);
  }

  lemma AlikeAcceptable(before: seq<Chunk>, other: seq<Chunk>, c: Chunk, d: Chunk)
    requires Alike(c, d) && Acceptable(before, c) && LastAdts(before) == LastAdts(other)
    ensures Acceptable(other, d)
  {
    if c.VideoHeader? {
      SameRecord(c, d);
    }
    hide RecordOk, PrepareOk;
  }

  lemma SameRecord(c: Chunk, d: Chunk)
    requires Alike(c, d) && c.VideoHeader? && RecordOk(c.record)
    ensures RecordOk(d.record) && (PrepareOk(c.record) <==> PrepareOk(d.record))
    ensures SpsPps(c.record) == SpsPps(d.record)
  {
    hide EndPos, PrepareOk, SpsPps;
    if EndPos(c.record) != LAST_POS {
      TagHeaderUnread(c.record, d.record);
    }
  }

  lemma UnitsMore(cs: seq<Chunk>, c: Chunk, pid: nat)
    requires Runs(cs) && Acceptable(cs, c)
    ensures Runs(cs + [c])
    ensures UnitsOf(Jobs(cs + [c]), pid) == UnitsOf(Jobs(cs), pid) +
      if c.Media? && PidOf(c.kind) == pid then
        [Pes.Unit(c.kind, PesOf(Job(c.kind, c.timestamp, LastSpsPps(cs), LastAdts(cs), c.data)))]
      else []
  {
    assert Front(cs + [c]) == cs;
    var js := Jobs(cs);
    var more := NextJob(cs, c);
    assert Jobs(cs + [c]) == js + more;
    if more != [] {
      assert Front(js + more) == js;
    } else {
      assert js + more == js;
    }
    hide LastSpsPps, LastAdts, PesOf, Pes.Unit;
  }
}
