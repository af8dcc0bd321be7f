/** The byte stream of H.264, as a decoder reads it (Annex B of ITU-T H.264): NAL units between start codes. */
module AnnexB {
  import opened Bytes

  /** Three bytes that cannot be inside a NAL unit: a start code, or zeros that lead to one. */
  predicate StopsAt(b: seq<byte>, i: nat) {
    i + 3 <= |b| && b[i] == 0 && b[i + 1] == 0 && b[i + 2] <= 1
  }

  predicate StartsWithCode(b: seq<byte>) {
    |b| >= 3 && b[0] == 0 && b[1] == 0 && b[2] == 1
  }

  /** How far a NAL unit goes that begins with b. */
  function End(b: seq<byte>): (n: nat)
    ensures n <= |b| && (n < |b| ==> StopsAt(b, n)) && forall i :: 0 <= i < n ==> !StopsAt(b, i)
    decreases |b|
  {
    if b == [] || StopsAt(b, 0) then 0
    else
      var n := End(b[1..]);
      assert forall i :: 0 < i < |b| ==> (StopsAt(b, i) <==> StopsAt(b[1..], i - 1));
      n + 1
  }

  /** Without its trailing zeros. */
  function Trimmed(b: seq<byte>): (r: seq<byte>)
    ensures r <= b && (r == [] || r[|r| - 1] != 0)
  {
    if b == [] || b[|b| - 1] != 0 then b else Trimmed(b[..|b| - 1])
  }

  /** The NAL units of a byte stream. */
  function Nals(b: seq<byte>): seq<seq<byte>>
    decreases |b|
  {
    if b == [] then []
    else if !StartsWithCode(b) then Nals(b[1..])
    else
      var n := End(b[3..]);
      var nal := Trimmed(b[3..3 + n]);
      (if nal == [] then [] else [nal]) + Nals(b[3 + n..])
  }

  /** What section 7.4.1 of H.264 asks of a NAL unit: it does not end in 0, and no start code can be found in it. */
  ghost predicate IsNal(n: seq<byte>) {
    n != [] && n[|n| - 1] != 0 && forall i :: 0 <= i < |n| ==> !StopsAt(n, i)
  }

  /** The stream goes on with a start code, or with zeros before one, or ends. */
  predicate Breaks(rest: seq<byte>) {
    rest == [] || StopsAt(rest, 0)
  }

  /** A NAL unit ends where the stream breaks. */
  lemma EndsWhole(n: seq<byte>, rest: seq<byte>)
    requires IsNal(n) && Breaks(rest)
    ensures End(n + rest) == |n|
  {
    var b := n + rest;
    forall i | 0 <= i < |n|
      ensures !StopsAt(b, i)
    {
      assert !StopsAt(n, i);
    }
    if rest != [] {
      assert StopsAt(b, |n|);
    }
  }

  /** A NAL unit behind a start code is the first to be read. */
  lemma NalReads(n: seq<byte>, rest: seq<byte>)
    requires IsNal(n) && Breaks(rest)
    ensures Nals([0, 0, 1] + n + rest) == [n] + Nals(rest)
  {
    hide IsNal, Breaks, End;
    var b := [0, 0, 1] + n + rest;
    assert b[3..] == n + rest;
    EndsWhole(n, rest);
    assert b[3..3 + |n|] == n && b[3 + |n|..] == rest;
    NotTrimmed(n);
  }

  lemma NotTrimmed(n: seq<byte>)
    requires IsNal(n)
    ensures Trimmed(n) == n && n != []
  {
  }

  /** A zero in front of a start code is passed over. */
  lemma ZeroSkipped(rest: seq<byte>)
    requires Breaks(rest)
    ensures Nals([0] + rest) == Nals(rest)
  {
    if rest != [] {
      assert ([0] + rest)[1..] == rest;
    } else {
      assert ([0] + rest)[1..] == [];
    }
  }

  /** Each NAL unit behind a start code. */
  function Stream(ns: seq<seq<byte>>): seq<byte> {
    if ns == [] then [] else [0, 0, 1] + ns[0] + Stream(ns[1..])
  }

  lemma StreamBreaks(ns: seq<seq<byte>>)
    ensures Breaks(Stream(ns))
  {
  }

  /** A stream of NAL units reads back. */
  lemma {:induction false} StreamReads(ns: seq<seq<byte>>)
    requires forall n :: n in ns ==> IsNal(n)
    ensures Nals(Stream(ns)) == ns
  {
    hide IsNal, Nals;
    if ns == [] {
      NoNals();
    } else {
      assert forall n :: n in ns[1..] ==> n in ns;
      StreamReads(ns[1..]);
      StreamBreaks(ns[1..]);
      NalReads(ns[0], Stream(ns[1..]));
      assert [ns[0]] + ns[1..] == ns;
    }
  }

  lemma NoNals()
    ensures Nals([]) == []
  {
  }

  // ---------------------------------------------------------------- units with their length in front

  /** NAL units as an MP4 or FLV sample has them: each behind its length in four bytes (5.2.3 of ISO/IEC 14496-15). */
  function Sample(ns: seq<seq<byte>>): seq<byte> {
    if ns == [] then [] else ToBE(|ns[0]|, 4) + ns[0] + Sample(ns[1..])
  }

  /** Proper NAL units, none of the unspecified type 0. */
  ghost predicate Coded(ns: seq<seq<byte>>) {
    forall n :: n in ns ==> IsNal(n) && n[0] != 0 && |n| < TWO_TO_THE_32
  }

  /** How many start codes there are. */
  function StartCodes(b: seq<byte>): nat {
    if b == [] then 0 else (if StartsWithCode(b) then 1 else 0) + StartCodes(b[1..])
  }

  lemma {:induction false} NotMoreThanStarts(b: seq<byte>)
    ensures |Nals(b)| <= StartCodes(b)
    decreases |b|
  {
    hide End, Trimmed;
    if b != [] {
      if !StartsWithCode(b) {
        NotMoreThanStarts(b[1..]);
      } else {
        var n := End(b[3..]);
        NotMoreThanStarts(b[3 + n..]);
        FewerStarts(b[1..], n + 2);
        assert b[1..][n + 2..] == b[3 + n..];
      }
    }
  }

  lemma {:induction false} FewerStarts(b: seq<byte>, n: nat)
    requires n <= |b|
    ensures StartCodes(b[n..]) <= StartCodes(b)
    decreases n
  {
    if n == 0 {
      assert b[0..] == b;
    } else {
      FewerStarts(b[1..], n - 1);
      assert b[1..][n - 1..] == b[n..];
    }
  }

  /** The bytes of a NAL unit neither begin a start code nor end one that is not theirs. */
  lemma {:induction false} StartsBehind(n: seq<byte>, rest: seq<byte>, at: nat)
    requires IsNal(n) && at <= |n|
    ensures StartCodes(n[at..] + rest) == StartCodes(rest)
    decreases |n| - at
  {
    if at == |n| {
      assert n[at..] + rest == rest;
    } else {
      var b := n[at..] + rest;
      StartsBehind(n, rest, at + 1);
      assert b[1..] == n[at + 1..] + rest;
      assert !StopsAt(n, at);
      assert forall i :: 0 <= i < |n| - at ==> b[i] == n[at + i];
    }
  }

  /** A unit and its length hold at most one start code. */
  lemma OneStartAtMost(n: seq<byte>, rest: seq<byte>)
    requires IsNal(n) && n[0] != 0
    ensures StartCodes(ToBE(|n|, 4) + n + rest) <= 1 + StartCodes(rest)
  {
    hide ToBE, StartCodes;
    var l := ToBE(|n|, 4);
    StartsBehind(n, rest, 0);
    assert n[0..] + rest == n + rest;
    var b3 := [l[3]] + (n + rest);
    var b2 := [l[2]] + b3;
    var b1 := [l[1]] + b2;
    assert l + n + rest == [l[0]] + b1;
    OneMore(l[3], n + rest);
    OneMore(l[2], b3);
    OneMore(l[1], b2);
    OneMore(l[0], b1);
    assert (n + rest)[0] == n[0];
  }

  lemma OneMore(x: byte, b: seq<byte>)
    ensures StartCodes([x] + b) == StartCodes(b) + if x == 0 && |b| >= 2 && b[0] == 0 && b[1] == 1 then 1 else 0
  {
    assert ([x] + b)[1..] == b;
  }

  lemma {:induction false} SampleStarts(ns: seq<seq<byte>>)
    requires Coded(ns)
    ensures StartCodes(Sample(ns)) <= |ns|
  {
    hide ToBE, IsNal;
    if ns != [] {
      assert ns[0] in ns && forall n :: n in ns[1..] ==> n in ns;
      SampleStarts(ns[1..]);
      OneStartAtMost(ns[0], Sample(ns[1..]));
    }
  }

  /** The four bytes of a length. */
  lemma LengthBytes(u: nat)
    requires u < TWO_TO_THE_32
    ensures ToBE(u, 4) == [u / TWO_TO_THE_24 % 256, u / TWO_TO_THE_16 % 256, u / 256 % 256, u % 256]
  {
    assert forall i :: 0 <= i < 4 ==> To(u, 4, BE)[i] == u / Pow256(3 - i) % 256 by {
      forall i | 0 <= i < 4
        ensures To(u, 4, BE)[i] == u / Pow256(3 - i) % 256
      {
        ToAt(u, 4, BE, i);
      }
    }
    hide ToBE;
    assert Pow256(0) == 1 && Pow256(1) == 256 && Pow256(2) == TWO_TO_THE_16 && Pow256(3) == TWO_TO_THE_24;
    assert To(u, 4, BE)[0] == u / Pow256(3) % 256 && To(u, 4, BE)[1] == u / Pow256(2) % 256;
    assert To(u, 4, BE)[2] == u / Pow256(1) % 256 && To(u, 4, BE)[3] == u / Pow256(0) % 256;
  }

  /** The length 1 is taken for the start code that it happens to be. */
  lemma LengthOneIsCode(m: seq<byte>, rest: seq<byte>)
    requires |m| == 1
    ensures Breaks(ToBE(|m|, 4) + m + rest)
    ensures Nals(ToBE(|m|, 4) + m + rest) == Nals([0, 0, 1] + m + rest)
  {
    LengthBytes(1);
    hide ToBE, Nals;
    assert ToBE(|m|, 4) + m + rest == [0] + ([0, 0, 1] + m + rest);
    ZeroSkipped([0, 0, 1] + m + rest);
  }

  lemma NoCodeInside(m: seq<byte>, rest: seq<byte>, at: nat)
    requires IsNal(m) && at < |m|
    ensures !StartsWithCode([m[at]] + (m[at + 1..] + rest))
  {
    var b := [m[at]] + (m[at + 1..] + rest);
    assert !StopsAt(m, at);
    assert forall i :: 0 <= i < |m| - at ==> b[i] == m[at + i];
  }

  lemma {:induction false} PassedOver(m: seq<byte>, rest: seq<byte>, at: nat)
    requires IsNal(m) && at <= |m|
    ensures Nals(m[at..] + rest) == Nals(rest)
    decreases |m| - at
  {
    if at == |m| {
      assert m[at..] + rest == rest;
    } else {
      PassedOver(m, rest, at + 1);
      NoCodeInside(m, rest, at);
      hide Nals;
      NotACode(m[at], m[at + 1..] + rest);
      assert m[at..] + rest == [m[at]] + (m[at + 1..] + rest);
    }
  }

  lemma NotACode(x: byte, b: seq<byte>)
    requires !StartsWithCode([x] + b)
    ensures Nals([x] + b) == Nals(b)
  {
    assert ([x] + b)[1..] == b;
  }

  /** Behind a length of 2 to 255 the unit before ends, and the one behind has no start code. */
  lemma SmallIsLost(m: seq<byte>, rest: seq<byte>)
    requires IsNal(m) && m[0] != 0 && 2 <= |m| < 256
    ensures Breaks(ToBE(|m|, 4) + m + rest) && Nals(ToBE(|m|, 4) + m + rest) == Nals(rest)
  {
    LengthBytes(|m|);
    PassedOver(m, rest, 0);
    hide ToBE, Nals;
    assert m[0..] + rest == m + rest;
    var b: seq<byte> := [|m|] + (m + rest);
    NotACode(|m|, m + rest);
    NotACode(0, b);
    NotACode(0, [0] + b);
    NotACode(0, [0] + ([0] + b));
    assert ToBE(|m|, 4) + m + rest == [0] + ([0] + ([0] + b));
  }

  /** What is read first, if it is read up to a break that comes behind all of n. */
  lemma FirstIsLonger(n: seq<byte>, rest: seq<byte>)
    requires n != [] && n[|n| - 1] != 0 && forall i :: 0 <= i < |n| ==> !StopsAt(n + rest, i)
    ensures var r := Nals([0, 0, 1] + n + rest); r != [] && n <= r[0]
  {
    hide Nals, StopsAt;
    var b := [0, 0, 1] + n + rest;
    assert b[3..] == n + rest;
    var e := End(n + rest);
    assert e >= |n|;
    HeadOf(n, rest, e);
    assert b[3..3 + e] == (n + rest)[..e];
    KeepsNonZero(b[3..3 + e], n);
    assert Nals(b) == [Trimmed(b[3..3 + e])] + Nals(b[3 + e..]) by {
      NalsOf(b);
    }
  }

  lemma HeadOf(n: seq<byte>, rest: seq<byte>, e: nat)
    requires |n| <= e <= |n + rest|
    ensures n <= (n + rest)[..e]
  {
  }

  lemma NalsOf(b: seq<byte>)
    requires StartsWithCode(b)
    ensures var n := End(b[3..]); var nal := Trimmed(b[3..3 + n]);
      Nals(b) == (if nal == [] then [] else [nal]) + Nals(b[3 + n..])
  {
    hide End, Trimmed;
  }

  lemma {:induction false} KeepsNonZero(b: seq<byte>, n: seq<byte>)
    requires n <= b && n != [] && n[|n| - 1] != 0
    ensures n <= Trimmed(b)
  {
    if |b| > |n| {
      KeepsNonZero(b[..|b| - 1], n);
    }
  }

  /** Behind a length of 256 to 511 the unit begins with the last byte of the length. */
  lemma MiddlingIsLonger(m: seq<byte>, rest: seq<byte>)
    requires IsNal(m) && m[0] != 0 && 256 <= |m| < 512
    ensures Breaks(ToBE(|m|, 4) + m + rest)
    ensures var r := Nals(ToBE(|m|, 4) + m + rest); r != [] && |r[0]| > |m|
  {
    LengthBytes(|m|);
    hide ToBE, Nals;
    var low: byte := |m| % 256;
    assert ToBE(|m|, 4) + m + rest == [0, 0, 1] + ([low] + m) + rest;
    forall i | 0 <= i < |m| + 1
      ensures !StopsAt([low] + m + rest, i)
    {
      assert i > 0 ==> !StopsAt(m, i - 1);
    }
    FirstIsLonger([low] + m, rest);
  }

  lemma NoStopAcross(n: seq<byte>, x: seq<byte>, more: seq<byte>)
    requires IsNal(n) && 1 <= |x| <= 3 && x[|x| - 1] != 0 && (|x| == 3 ==> x[2] >= 2)
    ensures forall i :: 0 <= i < |n| + |x| ==> !StopsAt(n + x + more, i)
  {
    var b := n + x + more;
    assert forall i :: 0 <= i < |x| ==> b[|n| + i] == x[i];
    forall i | 0 <= i < |n| + |x|
      ensures !StopsAt(b, i)
    {
      assert i < |n| ==> !StopsAt(n, i);
    }
  }

  lemma Moved(a: seq<byte>, n: seq<byte>, l: seq<byte>, k: nat, tail: seq<byte>)
    requires k <= |l|
    ensures a + n + (l + tail) == a + (n + l[..k]) + (l[k..] + tail)
  {
    assert l == l[..k] + l[k..];
  }

  /** A length of 512 or more is read as part of the unit before it. */
  lemma LargeIsSwallowed(n: seq<byte>, m: seq<byte>, rest: seq<byte>)
    requires IsNal(n) && 512 <= |m| < TWO_TO_THE_32
    ensures var r := Nals([0, 0, 1] + n + (ToBE(|m|, 4) + m + rest)); r != [] && r[0] != n
  {
    LengthBytes(|m|);
    var l := ToBE(|m|, 4);
    assert l[0] != 0 || l[1] != 0 || l[2] >= 2;
    hide ToBE, Nals, IsNal, StopsAt;
    var k := if l[0] != 0 then 1 else if l[1] != 0 then 2 else 3;
    var x, more := l[..k], l[k..] + m + rest;
    Moved([0, 0, 1], n, l, k, m + rest);
    assert l + m + rest == l + (m + rest) && l[k..] + (m + rest) == more;
    NoStopAcross(n, x, more);
    FirstIsLonger(n + x, more);
  }

  /**
    What a decoder reads when the units behind the first still have their lengths where start codes should be: just
    these units, if and only if each of the others is a single byte.
   */
  lemma {:induction false} SampleReadsExactly(n: seq<byte>, ms: seq<seq<byte>>)
    requires IsNal(n) && Coded(ms)
    ensures Nals([0, 0, 1] + n + Sample(ms)) == [n] + ms <==> forall m :: m in ms ==> |m| == 1
    decreases ms
  {
    hide IsNal, Nals, ToBE, Coded, Breaks;
    if ms == [] {
      NoNals();
      NothingBreaks();
      NalReads(n, []);
    } else {
      var m, rest := ms[0], Sample(ms[1..]);
      CodedParts(ms);
      SampleReadsExactly(m, ms[1..]);
      assert [m] + ms[1..] == ms;
      assert Sample(ms) == ToBE(|m|, 4) + m + rest;
      if |m| >= 512 {
        LargeIsSwallowed(n, m, rest);
      } else {
        if |m| == 1 {
          LengthOneIsCode(m, rest);
        } else if |m| < 256 {
          SmallIsLost(m, rest);
          NotMoreThanStarts(rest);
          SampleStarts(ms[1..]);
        } else {
          MiddlingIsLonger(m, rest);
        }
        NalReads(n, Sample(ms));
        SameTail(n, Nals(Sample(ms)), ms);
      }
    }
  }

  lemma SameTail(n: seq<byte>, a: seq<seq<byte>>, b: seq<seq<byte>>)
    ensures [n] + a == [n] + b <==> a == b
  {
    assert ([n] + a)[1..] == a && ([n] + b)[1..] == b;
  }

  lemma NothingBreaks()
    ensures Breaks([])
  {
  }

  lemma CodedParts(ms: seq<seq<byte>>)
    requires Coded(ms) && ms != []
    ensures IsNal(ms[0]) && 0 < |ms[0]| < TWO_TO_THE_32 && ms[0][0] != 0 && Coded(ms[1..])
  {
    assert ms[0] in ms && forall m :: m in ms[1..] ==> m in ms;
  }
}
