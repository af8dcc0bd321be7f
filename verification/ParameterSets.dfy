/** The parameter sets of a video header, as the muxer writes them in front of keyframes (hls.go:109-149). */
module ParameterSets {
  import opened Bytes

  /** Where the picture parameter sets begin, in uint16 arithmetic. */
  function EndPos(data: seq<byte>): nat
    requires |data| >= 13
  {
    (13 + (data[10] as nat) % 32 * FromBE(data[11..13])) % TWO_TO_THE_16
  }

  /** Behind this position the next ones are 0, 1 and 2 again. */
  const LAST_POS := 0xffff

  /** A position behind it, as a uint16. */
  function Behind(data: seq<byte>, n: nat): nat
    requires |data| >= 13
  {
    (EndPos(data) + n) % TWO_TO_THE_16
  }

  /** Every index and slice of the configuration record is in range. */
  predicate RecordOk(data: seq<byte>) {
    && |data| >= 13
    && 13 <= EndPos(data) < |data|
    && Behind(data, 1) <= Behind(data, 3) <= |data|
  }

  function SpsSize(data: seq<byte>): nat
    requires RecordOk(data)
  {
    FromBE(data[11..13])
  }

  function PpsSize(data: seq<byte>): nat
    requires RecordOk(data)
  {
    FromBE(data[Behind(data, 1)..Behind(data, 3)])
  }

  /** PrepareSpsPpsData stays inside its buffer, all sizes being uint16. */
  predicate PrepareOk(data: seq<byte>)
    requires RecordOk(data)
  {
    var m := TWO_TO_THE_16;
    var size := (6 + SpsSize(data) + PpsSize(data)) % m;
    var sp := (3 + SpsSize(data)) % m;
    var pp := (sp + 3) % m;
    3 <= sp <= size && sp <= pp <= size && pp <= (pp + PpsSize(data)) % m <= size
  }

  lemma PrepareExactly(data: seq<byte>)
    requires RecordOk(data)
    ensures PrepareOk(data) <==> 6 + SpsSize(data) + PpsSize(data) < TWO_TO_THE_16
  {
    hide SpsSize, PpsSize, RecordOk;
    SizesFit(data);
    var s, p := SpsSize(data), PpsSize(data);
    Wrapped(6 + s + p);
    Wrapped(3 + s);
    var sp := (3 + s) % TWO_TO_THE_16;
    Wrapped(sp + 3);
    Wrapped((sp + 3) % TWO_TO_THE_16 + p);
  }

  lemma Wrapped(x: nat)
    requires x < 3 * TWO_TO_THE_16
    ensures var m := TWO_TO_THE_16;
      x % m == if x < m then x else if x < 2 * m then x - m else x - 2 * m
  {
  }

  lemma SizesFit(data: seq<byte>)
    requires RecordOk(data)
    ensures SpsSize(data) < TWO_TO_THE_16 && PpsSize(data) < TWO_TO_THE_16
    ensures Behind(data, 3) - Behind(data, 1) == 2
  {
    FromBound(data[11..13], BE);
    FromBound(data[Behind(data, 1)..Behind(data, 3)], BE);
    assert Pow256(2) == TWO_TO_THE_16;
    hide FromBE;
  }

  /** What `copy` leaves of d in a zeroed slice of n bytes. */
  function Sized(d: seq<byte>, n: nat): (r: seq<byte>)
    ensures |r| == n
  {
    if |d| >= n then d[..n] else d + seq(n - |d|, _ => 0)
  }

  const START_CODE: seq<byte> := [0, 0, 1]

  /** Both sets, each behind a start code. */
  function SpsPps(data: seq<byte>): seq<byte>
    requires RecordOk(data)
  {
    START_CODE + Sized(data[13..EndPos(data)], SpsSize(data)) +
    (START_CODE + Sized(data[Behind(data, 3)..], PpsSize(data)))
  }

  /** The first five bytes, the tag header, are not looked at, unless a position wraps round to them. */
  lemma TagHeaderUnread(d: seq<byte>, e: seq<byte>)
    requires |d| == |e| && RecordOk(d) && d[5..] == e[5..] && EndPos(d) != LAST_POS
    ensures RecordOk(e) && (PrepareOk(d) <==> PrepareOk(e)) && SpsPps(d) == SpsPps(e)
  {
    hide FromBE, Sized;
    SameSlice(d, e, 11, 13);
    assert d[10] == d[5..][5] && e[10] == e[5..][5];
    assert EndPos(d) == EndPos(e);
    assert 13 <= EndPos(d) <= Behind(d, 1);
    hide EndPos;
    SameSlice(d, e, 13, EndPos(d));
    SameSlice(d, e, Behind(d, 1), Behind(d, 3));
    SameSlice(d, e, Behind(d, 3), |d|);
    assert d[Behind(d, 3)..|d|] == d[Behind(d, 3)..] && e[Behind(d, 3)..|d|] == e[Behind(d, 3)..];
  }

  lemma SameSlice(d: seq<byte>, e: seq<byte>, a: nat, b: nat)
    requires |d| == |e| && 5 <= a <= b <= |d| && d[5..] == e[5..]
    ensures d[a..b] == e[a..b]
  {
    assert d[a..b] == d[5..][a - 5..b - 5] && e[a..b] == e[5..][a - 5..b - 5];
  }

  method PutSized(d: array<byte>, ss: nat, ee: nat, w: seq<byte>)
    requires ss <= ee <= d.Length && forall i :: ss <= i < d.Length ==> d[i] == 0
    modifies d
    ensures d[..ee] == old(d[..ss]) + Sized(w, ee - ss)
    ensures forall i :: ee <= i < d.Length ==> d[i] == 0
  {
    ghost var before := d[..];
    Copy(d, ss, ee, w);
    ghost var n := Min(|w|, ee - ss);
    assert d[..] == Overwrite(before, ss, w[..n]);
    assert forall i :: ss + n <= i < d.Length ==> d[..][i] == before[i];
    assert d[..ee] == d[..][..ee];
    assert d[..ee] == before[..ss] + Sized(w, ee - ss);
  }

  /** The fields of the configuration record. */
  method ReadRecord(data: seq<byte>) returns (spsSize: nat, endPos: nat, ppsSize: nat)
    requires RecordOk(data)
    ensures spsSize == SpsSize(data) && endPos == EndPos(data) && ppsSize == PpsSize(data)
  {
    SizesFit(data);
    var numOfSps := (data[10] as nat) % 32;
    spsSize := ByteToUint(data[11..13], 2, BE);
    assert data[11..13][..Min(2, 2)] == data[11..13];
    endPos := (13 + numOfSps * spsSize) % TWO_TO_THE_16;
    assert endPos == EndPos(data);
    hide EndPos;
    var field := data[(endPos + 1) % TWO_TO_THE_16..(endPos + 3) % TWO_TO_THE_16];
    ppsSize := ByteToUint(field, 2, BE);
    assert field[..Min(2, 2)] == field;
  }

  method PrepareSpsPpsData(data: seq<byte>) returns (spsPpsData: array<byte>)
    requires RecordOk(data) && PrepareOk(data)
    ensures fresh(spsPpsData) && spsPpsData[..] == SpsPps(data)
  {
    PrepareExactly(data);
    var spsSize, endPos, ppsSize := ReadRecord(data);
    hide FromBE, EndPos, PrepareOk;
    spsPpsData := Both(data[13..endPos], spsSize, data[(endPos + 3) % TWO_TO_THE_16..], ppsSize);
  }

  method Both(spsData: seq<byte>, spsSize: nat, ppsData: seq<byte>, ppsSize: nat) returns (d: array<byte>)
    ensures fresh(d)
    ensures d[..] == START_CODE + Sized(spsData, spsSize) + (START_CODE + Sized(ppsData, ppsSize))
  {
    hide Sized;
    d := new byte[6 + spsSize + ppsSize](_ => 0);
    var sp := 3 + spsSize;
    PutStartCode(d, 0);
    PutSized(d, 3, sp, spsData);
    PutStartCode(d, sp);
    PutSized(d, sp + 3, sp + 3 + ppsSize, ppsData);
    assert d[..] == d[..sp + 3 + ppsSize];
  }

  method PutStartCode(d: array<byte>, ss: nat)
    requires ss + 3 <= d.Length && forall i :: ss <= i < d.Length ==> d[i] == 0
    modifies d
    ensures d[..ss + 3] == old(d[..ss]) + START_CODE
    ensures forall i :: ss + 3 <= i < d.Length ==> d[i] == 0
  {
    ghost var before := d[..];
    StartCode();
    hide ToBE, ToLE;
    var r := UintToByte(1, 3, d, ss, ss + 3, BE);
    assert r[..Min(3, 3)] == r;
    assert d[..] == Overwrite(before, ss, START_CODE);
    assert forall i :: ss + 3 <= i < d.Length ==> d[..][i] == before[i];
    assert d[..ss + 3] == d[..][..ss + 3];
  }

  lemma StartCode()
    ensures ToBE(1, 3) == START_CODE
  {
    assert ToBE(0, 1) == [0] && ToBE(0, 2) == [0, 0];
  }
}
