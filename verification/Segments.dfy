/**
  How the stream is cut into segments and listed (hls.go:645-682, 802-819, 1345-1396; sections 4.3.3.1 and 4.3.3.2
  of RFC 8216), as functions on values. The stateful form, with its files and its list, is in HlsStream.dfy.
  Durations are in milliseconds.
 */
module Segments {
  import opened Bytes
  import opened DataTypes

  /** What comes over HlsChan, by its DataType; Other is a message that got none. */
  datatype Chunk =
    | Media(kind: Kind, timestamp: nat, data: seq<byte>)
    | Other(timestamp: nat)
    | VideoHeader(record: seq<byte>)
    | AudioHeader(config: seq<byte>)
    | Metadata

  /** HlsCreator passes on only these. */
  predicate Timed(c: Chunk) {
    c.Media? || c.Other?
  }

  type Frame = c: Chunk | Timed(c) witness Other(0)
  type Segment = s: seq<Frame> | s != [] witness [Other(0)]

  predicate IsKey(f: Frame) {
    f.Media? && f.kind == Key
  }

  /** A uint32 difference. */
  function Elapsed(from: int, to: int): (ms: nat)
    ensures ms < TWO_TO_THE_32
    ensures 0 <= to - from < TWO_TO_THE_32 ==> ms == to - from
  {
    (to - from) % TWO_TO_THE_32
  }

  function Start(s: Segment): nat {
    s[0].timestamp
  }

  function Last<T>(s: seq<T>): T
    requires s != []
  {
    s[|s| - 1]
  }

  function Front<T>(s: seq<T>): seq<T>
    requires s != []
  {
    s[..|s| - 1]
  }

  // ---------------------------------------------------------------- the cut

  /** The segment that begins at `start` is old enough for f to begin the next. */
  predicate Due(start: nat, f: Frame, maxTime: nat) {
    IsKey(f) && Elapsed(start, f.timestamp) / 1000 >= maxTime
  }

  /** f begins a segment. */
  function Opening(segs: seq<Segment>, f: Frame): (r: seq<Segment>)
    ensures |r| == |segs| + 1
  {
    segs + [[f]]
  }

  /** f goes into the open segment. */
  function Longer(segs: seq<Segment>, f: Frame): (r: seq<Segment>)
    requires segs != []
    ensures |r| == |segs|
  {
    Front(segs) + [Last(segs) + [f]]
  }

  predicate Cuts(segs: seq<Segment>, f: Frame, maxTime: nat) {
    segs == [] || Due(Start(Last(segs)), f, maxTime)
  }

  /** TsCreate's choice: a new segment, or the open one. */
  function Place(segs: seq<Segment>, f: Frame, maxTime: nat): (r: seq<Segment>)
    ensures r != []
  {
    if Cuts(segs, f, maxTime) then Opening(segs, f) else Longer(segs, f)
  }

  function Cut(fs: seq<Frame>, maxTime: nat): seq<Segment> {
    if fs == [] then [] else Place(Cut(Front(fs), maxTime), Last(fs), maxTime)
  }

  function Concat<T>(ss: seq<seq<T>>): seq<T> {
    if ss == [] then [] else Concat(Front(ss)) + Last(ss)
  }

  /** f is a keyframe, by the uint32 clock at least maxTime seconds later than the first frame of s. */
  predicate LateKey(s: Segment, f: Frame, maxTime: nat) {
    f.Media? && f.kind == Key && (f.timestamp - s[0].timestamp) % TWO_TO_THE_32 >= 1000 * maxTime
  }

  lemma DueIsLateKey(s: Segment, f: Frame, maxTime: nat)
    ensures Due(Start(s), f, maxTime) <==> LateKey(s, f, maxTime)
  {
  }

  ghost predicate NoneLateInside(s: Segment, maxTime: nat) {
    forall j :: 0 < j < |s| ==> !LateKey(s, s[j], maxTime)
  }

  /** The i-th segment opens with a late keyframe. */
  predicate Opens(segs: seq<Segment>, i: nat, maxTime: nat)
    requires 0 < i < |segs|
  {
    LateKey(segs[i - 1], segs[i][0], maxTime)
  }

  /** Every cut is made at a late keyframe, and no late keyframe is passed over. */
  ghost predicate Lawful(segs: seq<Segment>, maxTime: nat) {
    && (forall i :: 0 < i < |segs| ==> Opens(segs, i, maxTime))
    && (forall i :: 0 <= i < |segs| ==> NoneLateInside(segs[i], maxTime))
  }

  lemma LawfulOpen(segs: seq<Segment>, s: Segment, maxTime: nat)
    ensures Lawful(segs + [s], maxTime) <==>
      && Lawful(segs, maxTime) && NoneLateInside(s, maxTime)
      && (segs != [] ==> LateKey(Last(segs), s[0], maxTime))
  {
    hide LateKey, NoneLateInside;
    var r: seq<Segment> := segs + [s];
    assert forall i :: 0 <= i < |segs| ==> r[i] == segs[i];
    if segs != [] {
      assert Opens(r, |segs|, maxTime) <==> LateKey(Last(segs), s[0], maxTime);
    }
    assert forall i :: 0 < i < |segs| ==> (Opens(r, i, maxTime) <==> Opens(segs, i, maxTime));
    if Lawful(r, maxTime) {
      assert forall i :: 0 <= i < |segs| ==> NoneLateInside(segs[i], maxTime) by {
        forall i | 0 <= i < |segs|
          ensures NoneLateInside(segs[i], maxTime)
        {
          assert NoneLateInside(r[i], maxTime);
        }
      }
      assert NoneLateInside(r[|segs|], maxTime);
    }
  }

  lemma InsideAppend(s: Segment, f: Frame, maxTime: nat)
    ensures NoneLateInside(s + [f], maxTime) <==> NoneLateInside(s, maxTime) && !LateKey(s, f, maxTime)
  {
    hide LateKey;
    var r: Segment := s + [f];
    assert r[|s|] == f && forall j :: 0 <= j < |s| ==> r[j] == s[j];
    forall j | 0 <= j < |r|
      ensures LateKey(s, r[j], maxTime) <==> LateKey(r, r[j], maxTime)
    {
      SameStart(s, r, r[j], maxTime);
    }
    if NoneLateInside(r, maxTime) {
      forall j | 0 < j < |s|
        ensures !LateKey(s, s[j], maxTime)
      {
        assert !LateKey(r, r[j], maxTime);
      }
    }
  }

  lemma SameStart(s: Segment, r: Segment, f: Frame, maxTime: nat)
    requires s[0] == r[0]
    ensures LateKey(s, f, maxTime) <==> LateKey(r, f, maxTime)
  {
  }

  lemma NewSegment(f: Frame, maxTime: nat)
    ensures NoneLateInside([f], maxTime)
  {
  }

  lemma ConcatSnoc<T>(ss: seq<seq<T>>, s: seq<T>)
    ensures Concat(ss + [s]) == Concat(ss) + s
  {
    assert Front(ss + [s]) == ss;
  }

  lemma FrontLast<T>(s: seq<T>)
    requires s != []
    ensures Front(s) + [Last(s)] == s
  {
  }

  lemma {:induction false} CutIsLawful(fs: seq<Frame>, maxTime: nat)
    ensures Lawful(Cut(fs, maxTime), maxTime) && Concat(Cut(fs, maxTime)) == fs
  {
    hide Due, Lawful, LateKey, NoneLateInside, Start, Concat;
    if fs == [] {
      Nothing(maxTime);
    } else {
      CutIsLawful(Front(fs), maxTime);
      PlaceIsLawful(Cut(Front(fs), maxTime), Last(fs), maxTime);
      FrontLast(fs);
    }
  }

  lemma Nothing(maxTime: nat)
    ensures Lawful([], maxTime) && Concat<Frame>([]) == []
  {
  }

  lemma PlaceIsLawful(segs: seq<Segment>, f: Frame, maxTime: nat)
    requires Lawful(segs, maxTime)
    ensures var r := Place(segs, f, maxTime); Lawful(r, maxTime) && Concat(r) == Concat(segs) + [f]
  {
    hide Due, Lawful, LateKey, NoneLateInside, Concat, Front, Last;
    if segs != [] {
      DueIsLateKey(Last(segs), f, maxTime);
    }
    if Cuts(segs, f, maxTime) {
      NewSegment(f, maxTime);
      LawfulOpen(segs, [f], maxTime);
      ConcatSnoc(segs, [f]);
    } else {
      var s := Last(segs);
      FrontLast(segs);
      InsideAppend(s, f, maxTime);
      LawfulOpen(Front(segs), s, maxTime);
      LawfulOpen(Front(segs), s + [f], maxTime);
      ConcatSnoc(Front(segs), s);
      ConcatSnoc(Front(segs), s + [f]);
    }
  }

  /**
    The frames are cut in the one lawful way: each lands in exactly one segment, in order; each segment but the
    first opens with a keyframe, at least maxTime seconds after the one before; and as early as that allows.
   */
  lemma {:induction false} CutExactly(segs: seq<Segment>, fs: seq<Frame>, maxTime: nat)
    ensures Lawful(segs, maxTime) && Concat(segs) == fs <==> segs == Cut(fs, maxTime)
    decreases |fs|
  {
    CutIsLawful(fs, maxTime);
    if Lawful(segs, maxTime) && Concat(segs) == fs {
      LawfulIsCut(segs, fs, maxTime);
    }
  }

  lemma {:induction false} LawfulIsCut(segs: seq<Segment>, fs: seq<Frame>, maxTime: nat)
    requires Lawful(segs, maxTime) && Concat(segs) == fs
    ensures segs == Cut(fs, maxTime)
    decreases |fs|
  {
    hide Due, Lawful, LateKey, NoneLateInside, Concat;
    if segs == [] {
      Nothing(maxTime);
    } else {
      var before, s := Front(segs), Last(segs);
      var f := Last(s);
      FrontLast(segs);
      ConcatSnoc(before, s);
      LawfulOpen(before, s, maxTime);
      assert f == Last(fs) && Front(fs) == Concat(before) + Front(s);
      if before != [] {
        DueIsLateKey(Last(before), f, maxTime);
      }
      if |s| == 1 {
        assert s == [f] && Front(fs) == Concat(before);
        LawfulIsCut(before, Front(fs), maxTime);
      } else {
        var s': Segment := Front(s);
        DueIsLateKey(s', f, maxTime);
        FrontLast(s);
        InsideAppend(s', f, maxTime);
        LawfulOpen(before, s', maxTime);
        ConcatSnoc(before, s');
        LawfulIsCut(before + [s'], Front(fs), maxTime);
        assert Front(before + [s']) == before;
      }
    }
  }

  // ---------------------------------------------------------------- durations

  /** The duration that is published of a closed segment: until the next one starts. */
  function Duration(segs: seq<Segment>, i: nat): nat
    requires i + 1 < |segs|
  {
    Elapsed(Start(segs[i]), Start(segs[i + 1]))
  }

  function TotalDuration(segs: seq<Segment>): nat {
    if |segs| < 2 then 0 else TotalDuration(Front(segs)) + Duration(segs, |segs| - 2)
  }

  /** Published durations add up, as uint32, to what lies between the first segment and the open one. */
  lemma {:induction false} DurationsTelescope(segs: seq<Segment>)
    requires segs != []
    ensures TotalDuration(segs) % TWO_TO_THE_32 == (Last(segs)[0].timestamp - segs[0][0].timestamp) % TWO_TO_THE_32
  {
    if |segs| >= 2 {
      DurationsTelescope(Front(segs));
      ElapsedAdds(Start(segs[0]), Start(segs[|segs| - 2]), Start(Last(segs)), TotalDuration(Front(segs)));
    }
  }

  lemma ElapsedAdds(a: int, b: int, c: int, total: nat)
    requires total % TWO_TO_THE_32 == Elapsed(a, b)
    ensures (total + Elapsed(b, c)) % TWO_TO_THE_32 == Elapsed(a, c)
  {
    var p, q, r := total / TWO_TO_THE_32, (b - a) / TWO_TO_THE_32, (c - b) / TWO_TO_THE_32;
    assert total + Elapsed(b, c) == (c - a) + (p - q - r) * TWO_TO_THE_32;
    Turns(c - a, p - q - r);
  }

  lemma Turns(x: int, k: int)
    ensures (x + k * TWO_TO_THE_32) % TWO_TO_THE_32 == x % TWO_TO_THE_32
  {
  }

  ghost predicate NonDecreasing(fs: seq<Frame>) {
    forall i, j :: 0 <= i < j < |fs| ==> fs[i].timestamp <= fs[j].timestamp < TWO_TO_THE_32
  }

  /** Where a segment's first frame is in the stream. */
  function Offset(segs: seq<Segment>, i: nat): nat
    requires i <= |segs|
  {
    |Concat(segs[..i])|
  }

  lemma {:induction false} AtOffset(segs: seq<Segment>, i: nat)
    requires i < |segs|
    ensures Offset(segs, i) < |Concat(segs)| && Concat(segs)[Offset(segs, i)] == segs[i][0]
    ensures i > 0 ==> Offset(segs, i - 1) < Offset(segs, i)
  {
    if i + 1 == |segs| {
      assert segs[..i] == Front(segs);
    } else {
      AtOffset(Front(segs), i);
      assert Front(segs)[..i] == segs[..i];
    }
    if i > 0 {
      assert Front(segs[..i]) == segs[..i - 1];
    }
  }

  /** No segment starts before the one before it. */
  ghost predicate Ascending(segs: seq<Segment>) {
    forall i, j :: 0 <= i < j < |segs| ==> Start(segs[i]) <= Start(segs[j]) < TWO_TO_THE_32
  }

  lemma {:induction false} OffsetsAscend(segs: seq<Segment>, i: nat, j: nat)
    requires i < j < |segs|
    ensures Offset(segs, i) < Offset(segs, j)
  {
    hide Offset;
    AtOffset(segs, j);
    if i < j - 1 {
      OffsetsAscend(segs, i, j - 1);
    }
  }

  lemma CutAscends(fs: seq<Frame>, segs: seq<Segment>)
    requires NonDecreasing(fs) && Concat(segs) == fs
    ensures Ascending(segs)
  {
    hide Offset, Concat;
    forall i, j | 0 <= i < j < |segs|
      ensures Start(segs[i]) <= Start(segs[j]) < TWO_TO_THE_32
    {
      AtOffset(segs, i);
      AtOffset(segs, j);
      OffsetsAscend(segs, i, j);
    }
  }

  /** Without a step back in time, durations are differences, closed segments are long enough, and nothing wraps. */
  lemma DurationsExact(fs: seq<Frame>, maxTime: nat)
    requires NonDecreasing(fs) && fs != []
    ensures var segs := Cut(fs, maxTime);
      && segs != []
      && (forall i :: 0 <= i < |segs| - 1 ==>
            Duration(segs, i) == segs[i + 1][0].timestamp - segs[i][0].timestamp >= 1000 * maxTime)
      && TotalDuration(segs) == Last(segs)[0].timestamp - segs[0][0].timestamp
  {
    var segs := Cut(fs, maxTime);
    CutIsLawful(fs, maxTime);
    CutAscends(fs, segs);
    hide Cut, Concat, NoneLateInside, LateKey;
    assert segs != [] by {
      if segs == [] {
        Nothing(maxTime);
      }
    }
    forall i | 0 <= i < |segs| - 1
      ensures Duration(segs, i) == segs[i + 1][0].timestamp - segs[i][0].timestamp >= 1000 * maxTime
    {
      assert Start(segs[i]) <= Start(segs[i + 1]) < TWO_TO_THE_32;
      assert Opens(segs, i + 1, maxTime);
      ClosedIsLong(segs[i], segs[i + 1], maxTime);
    }
    Telescope(segs);
  }

  lemma ClosedIsLong(s: Segment, next: Segment, maxTime: nat)
    requires LateKey(s, next[0], maxTime) && Start(s) <= Start(next) < TWO_TO_THE_32
    ensures Elapsed(Start(s), Start(next)) == next[0].timestamp - s[0].timestamp >= 1000 * maxTime
  {
  }

  lemma {:induction false} Telescope(segs: seq<Segment>)
    requires segs != [] && Ascending(segs)
    ensures TotalDuration(segs) == Start(Last(segs)) - Start(segs[0])
  {
    if |segs| >= 2 {
      var before := Front(segs);
      assert Ascending(before) by {
        forall i, j | 0 <= i < j < |before|
          ensures Start(before[i]) <= Start(before[j]) < TWO_TO_THE_32
        {
          assert before[i] == segs[i] && before[j] == segs[j];
        }
      }
      Telescope(before);
      assert Start(segs[|segs| - 2]) <= Start(segs[|segs| - 1]);
    }
  }

  // ---------------------------------------------------------------- the playlist

  /** struct TsInfo: the file of a segment is named after its sequence number. */
  datatype TsInfo = TsInfo(tsExtInfo: nat, seqNo: nat)

  /** All closed segments. */
  function Closed(segs: seq<Segment>): (r: seq<TsInfo>)
    ensures |r| == if segs == [] then 0 else |segs| - 1
    ensures forall i :: 0 <= i < |r| ==> r[i] == TsInfo(Duration(segs, i), i)
  {
    if segs == [] then [] else seq(|segs| - 1, i requires 0 <= i < |segs| - 1 => TsInfo(Duration(segs, i), i))
  }

  /** The sequence number of the first segment in a window of `size`. */
  function FirstSeq(segs: seq<Segment>, size: nat): (first: nat)
    ensures first <= |Closed(segs)|
  {
    if |Closed(segs)| > size then |Closed(segs)| - size else 0
  }

  function Window(segs: seq<Segment>, size: nat): (w: seq<TsInfo>)
    ensures |w| == Min(size, |Closed(segs)|)
    ensures forall i :: 0 <= i < |w| ==> w[i].seqNo == FirstSeq(segs, size) + i
  {
    Closed(segs)[FirstSeq(segs, size)..]
  }

  /** Adding to the open segment closes nothing. */
  lemma ClosedAppend(segs: seq<Segment>, f: Frame)
    requires segs != []
    ensures Closed(Longer(segs, f)) == Closed(segs)
  {
    var r := Longer(segs, f);
    assert forall i :: 0 <= i < |segs| ==> Start(r[i]) == Start(segs[i]);
  }

  /** Opening a segment closes the one that was open, with the time until then. */
  lemma ClosedOpen(segs: seq<Segment>, f: Frame)
    requires segs != []
    ensures Closed(Opening(segs, f)) == Closed(segs) + [TsInfo(Elapsed(Start(Last(segs)), f.timestamp), |segs| - 1)]
  {
    var r := Opening(segs, f);
    assert forall i :: 0 <= i < |segs| ==> r[i] == segs[i];
  }

  /** What M3u8Update does to the list when a segment closes: append, after dropping the first of a full list. */
  lemma WindowSlides(segs: seq<Segment>, f: Frame, size: nat)
    requires segs != [] && size >= 1
    ensures var w := Window(segs, size); var info := TsInfo(Elapsed(Start(Last(segs)), f.timestamp), |segs| - 1);
      && Window(Opening(segs, f), size) == (if |w| == size then w[1..] else w) + [info]
      && FirstSeq(Opening(segs, f), size) == FirstSeq(segs, size) + (if |w| == size then 1 else 0)
  {
    ClosedOpen(segs, f);
    hide Closed;
    var closed := Closed(segs);
    var first := FirstSeq(segs, size);
    if |closed| >= size {
      assert closed[first..][1..] == closed[first + 1..];
    }
  }

  function MaxExt(list: seq<TsInfo>): (m: nat)
    ensures forall e :: e in list ==> e.tsExtInfo <= m
    ensures m == 0 || exists e :: e in list && e.tsExtInfo == m
  {
    if list == [] then 0
    else
      var m, e := MaxExt(Front(list)), Last(list);
      assert Front(list) + [e] == list;
      assert e in list;
      if m < e.tsExtInfo then e.tsExtInfo else m
  }

  /** Whole seconds, rounded up. */
  function Ceil(ms: nat): nat {
    (ms + 999) / 1000
  }

  /** The target duration is the least number of seconds that no listed segment exceeds. */
  lemma TargetIsLeast(list: seq<TsInfo>, target: nat)
    ensures target == Ceil(MaxExt(list)) <==>
      && (forall e :: e in list ==> e.tsExtInfo <= 1000 * target)
      && (target > 0 ==> exists e :: e in list && e.tsExtInfo > 1000 * (target - 1))
  {
    var m := MaxExt(list);
    if m > 0 {
      var e :| e in list && e.tsExtInfo == m;
      if target == Ceil(m) {
        assert e.tsExtInfo > 1000 * (target - 1);
      } else if target < Ceil(m) {
        assert e.tsExtInfo > 1000 * target;
      }
    }
    if target > Ceil(m) {
      forall e | e in list
        ensures e.tsExtInfo <= 1000 * (target - 1)
      {
        assert m <= 1000 * Ceil(m) <= 1000 * (target - 1);
      }
    }
  }
}
