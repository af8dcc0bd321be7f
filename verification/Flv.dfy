/** The FLV stream (flv.go:170-426; Annex E of the Adobe FLV 10.1 specification): one tag after another. */
module Flv {
  import opened Bytes

  /** What a tag says of a message. */
  datatype Tag = Tag(typeId: nat, timestamp: nat, streamId: nat, data: seq<byte>)

  const HEADER_LEN: nat := 11

  /** The file header with sound and picture, and the size of the tag before the first, which is 0. */
  const HEAD: seq<byte> := [0x46, 0x4c, 0x56, 0x01, 0x05, 0, 0, 0, 9, 0, 0, 0, 0]

  // ---------------------------------------------------------------- writing

  /** The 11 bytes in front of the data; the extension of the timestamp is 0 whatever the timestamp. */
  function TagHeader(t: Tag): (h: seq<byte>)
    ensures |h| == HEADER_LEN
  {
    [t.typeId % 256] + ToBE(|t.data|, 3) + ToBE(t.timestamp, 3) + [0] + ToBE(t.streamId, 3)
  }

  function TagBytes(t: Tag): (b: seq<byte>)
    ensures |b| == HEADER_LEN + |t.data| + 4
  {
    TagHeader(t) + t.data + ToBE(HEADER_LEN + |t.data|, 4)
  }

  function Tags(ts: seq<Tag>): seq<byte> {
    if ts == [] then [] else Tags(ts[..|ts| - 1]) + TagBytes(ts[|ts| - 1])
  }

  /** A tag as a reader can get it: everything fits its field. */
  predicate Fits(t: Tag) {
    && t.typeId < 256 && t.timestamp < TWO_TO_THE_24 && t.streamId < TWO_TO_THE_24
    && |t.data| < TWO_TO_THE_24
  }

  // ---------------------------------------------------------------- reading

  /** DataSize, and the tag that is that long. */
  function DataSize(b: seq<byte>): nat
    requires |b| >= 11
  {
    FromBE(b[1..4])
  }

  /** The extension is the high byte of the timestamp. */
  function ReadTag(b: seq<byte>): Tag
    requires |b| >= 11 && |b| == 11 + DataSize(b)
  {
    Tag(b[0], (b[7] as nat) * TWO_TO_THE_24 + FromBE(b[4..7]), FromBE(b[8..11]), b[11..])
  }

  /** From the front, by DataSize; stops where there is no whole tag. */
  function Forward(b: seq<byte>): seq<Tag>
    decreases |b|
  {
    if |b| < 11 || |b| < 11 + DataSize(b) + 4 then []
    else
      var n := 11 + DataSize(b);
      SameSize(b, n);
      [ReadTag(b[..n])] + Forward(b[n + 4..])
  }

  /** What a file says it has, and its tags. */
  datatype File = File(hasAudio: bool, hasVideo: bool, tags: seq<Tag>) | NotFlv

  /**
    A file as section E.2 has it: the signature "FLV", version 1, flags of which only those for audio and video may be
    set, where the header ends, in four bytes, and behind that the size of a tag that is not there.
   */
  function ReadFile(b: seq<byte>): File {
    if |b| < 9 || b[0] != 0x46 || b[1] != 0x4c || b[2] != 0x56 || b[3] != 1 then NotFlv
    else if (b[4] as nat) / 8 != 0 || (b[4] as nat) / 2 % 2 != 0 then NotFlv
    else
      var at := FromBE(b[5..9]);
      if at < 9 || |b| < at + 4 || FromBE(b[at..at + 4]) != 0 then NotFlv
      else File((b[4] as nat) / 4 % 2 == 1, b[4] % 2 == 1, Forward(b[at + 4..]))
  }

  /** The header leads to the tags behind it, and announces both sound and pictures. */
  lemma HeadReads(rest: seq<byte>)
    ensures ReadFile(HEAD + rest) == File(true, true, Forward(rest))
  {
    HeadFields();
    ToFrom([0, 0, 0, 9], BE);
    FieldRoundTrip(9, 4, BE);
    FieldRoundTrip(0, 4, BE);
    assert Pow256(4) == TWO_TO_THE_32;
    hide FromBE, ToBE, Forward;
    var b := HEAD + rest;
    assert b[5..9] == [0, 0, 0, 9] && b[9..13] == [0, 0, 0, 0] && b[13..] == rest;
  }

  lemma SameSize(b: seq<byte>, n: nat)
    requires 11 <= n <= |b|
    ensures DataSize(b[..n]) == DataSize(b)
  {
    assert b[..n][1..4] == b[1..4];
  }

  /** From the end, by PreviousTagSize; stops at 0, or where there is no whole tag. */
  function Backward(b: seq<byte>): seq<Tag>
    decreases |b|
  {
    if |b| < 4 then []
    else
      var n := FromBE(b[|b| - 4..]);
      if n < 11 || n + 4 > |b| then []
      else
        var t := b[|b| - 4 - n..|b| - 4];
        if n != 11 + DataSize(t) then []
        else Backward(b[..|b| - 4 - n]) + [ReadTag(t)]
  }

  // ---------------------------------------------------------------- one tag

  /** What is left of a tag: a type of one byte, and a timestamp and a stream id of three. */
  function Cut(t: Tag): Tag {
    Tag(t.typeId % 256, t.timestamp % TWO_TO_THE_24, t.streamId % TWO_TO_THE_24, t.data)
  }

  lemma CutExactly(t: Tag)
    requires |t.data| < TWO_TO_THE_24
    ensures Cut(t) == t <==> Fits(t)
  {
  }

  /** A tag reads back cut, because nothing is ever written to the extension of the timestamp. */
  lemma TagReadsBack(t: Tag)
    requires |t.data| < TWO_TO_THE_24
    ensures var b := TagHeader(t) + t.data; DataSize(b) == |t.data| && ReadTag(b) == Cut(t)
  {
    hide ToBE, FromBE;
    assert Pow256(3) == TWO_TO_THE_24;
    FieldRoundTrip(|t.data|, 3, BE);
    FromTo(t.timestamp, 3, BE);
    FromTo(t.streamId, 3, BE);
    var b := TagHeader(t) + t.data;
    assert b[1..4] == ToBE(|t.data|, 3) && b[4..7] == ToBE(t.timestamp, 3) && b[8..11] == ToBE(t.streamId, 3);
    assert b[HEADER_LEN..] == t.data;
  }

  // ---------------------------------------------------------------- streams

  lemma NoTags()
    ensures Tags([]) == [] && Forward([]) == []
  {
  }

  lemma TagsSnoc(ts: seq<Tag>, t: Tag)
    ensures Tags(ts + [t]) == Tags(ts) + TagBytes(t)
  {
    hide TagBytes;
    assert (ts + [t])[..|ts|] == ts;
  }

  lemma {:induction false} TagsCons(t: Tag, ts: seq<Tag>)
    ensures Tags([t] + ts) == TagBytes(t) + Tags(ts)
    decreases |ts|
  {
    hide TagBytes;
    if ts == [] {
      assert [t] + ts == [t] && [t][..0] == [];
    } else {
      var n := |ts| - 1;
      TagsCons(t, ts[..n]);
      assert ([t] + ts)[..n + 1] == [t] + ts[..n];
    }
  }

  function AllCut(ts: seq<Tag>): (r: seq<Tag>)
    ensures |r| == |ts| && forall i :: 0 <= i < |ts| ==> r[i] == Cut(ts[i])
  {
    seq(|ts|, i requires 0 <= i < |ts| => Cut(ts[i]))
  }

  ghost predicate Short(ts: seq<Tag>) {
    forall t :: t in ts ==> |t.data| < TWO_TO_THE_24
  }

  lemma ForwardOne(t: Tag, rest: seq<byte>)
    requires |t.data| < TWO_TO_THE_24
    ensures Forward(TagBytes(t) + rest) == [Cut(t)] + Forward(rest)
  {
    hide ToBE, FromBE, TagHeader, Cut;
    var b, n := TagBytes(t) + rest, HEADER_LEN + |t.data|;
    TagReadsBack(t);
    assert b[..n] == TagHeader(t) + t.data;
    SameSize(b, n);
    assert b[n + 4..] == rest;
  }

  lemma {:induction false} ForwardReads(ts: seq<Tag>)
    requires Short(ts)
    ensures Forward(Tags(ts)) == AllCut(ts)
    decreases |ts|
  {
    hide TagBytes, Forward, Tags, AllCut, Short;
    AllCutCons(ts);
    if ts == [] {
      NoTags();
    } else {
      TagsCons(ts[0], ts[1..]);
      ForwardReads(ts[1..]);
      ForwardOne(ts[0], Tags(ts[1..]));
      assert [ts[0]] + ts[1..] == ts;
    }
  }

  lemma AllCutCons(ts: seq<Tag>)
    requires Short(ts)
    ensures AllCut(ts) == if ts == [] then [] else [Cut(ts[0])] + AllCut(ts[1..])
    ensures ts != [] ==> |ts[0].data| < TWO_TO_THE_24 && Short(ts[1..])
  {
    hide Cut;
    if ts != [] {
      assert ts[0] in ts && forall t :: t in ts[1..] ==> t in ts;
    }
  }

  lemma BackwardOne(front: seq<byte>, t: Tag)
    requires |t.data| < TWO_TO_THE_24
    ensures Backward(front + TagBytes(t)) == Backward(front) + [Cut(t)]
  {
    hide ToBE, FromBE, TagHeader, Cut;
    var b, n := front + TagBytes(t), HEADER_LEN + |t.data|;
    TagReadsBack(t);
    assert Pow256(4) == TWO_TO_THE_32;
    FieldRoundTrip(n, 4, BE);
    assert b[|b| - 4..] == ToBE(n, 4);
    assert b[|b| - 4 - n..|b| - 4] == TagHeader(t) + t.data;
    assert b[..|b| - 4 - n] == front;
  }

  lemma {:induction false} BackwardReads(front: seq<byte>, ts: seq<Tag>)
    requires Short(ts)
    ensures Backward(front + Tags(ts)) == Backward(front) + AllCut(ts)
    decreases |ts|
  {
    hide TagBytes, Backward, Tags, Cut;
    if ts == [] {
      NoTags();
      assert front + Tags([]) == front && Backward(front) + [] == Backward(front);
    } else {
      var before, last := ts[..|ts| - 1], ts[|ts| - 1];
      assert before + [last] == ts;
      TagsSnoc(before, last);
      BackwardReads(front, before);
      BackwardOne(front + Tags(before), last);
      assert front + Tags(ts) == front + Tags(before) + TagBytes(last);
      assert AllCut(before) + [Cut(last)] == AllCut(ts);
    }
  }

  /** Whatever the bytes, what is read forward is short enough for its DataSize. */
  lemma {:induction false} ForwardIsShort(b: seq<byte>)
    ensures Short(Forward(b))
    decreases |b|
  {
    if |b| >= HEADER_LEN && |b| >= HEADER_LEN + DataSize(b) + 4 {
      var n := HEADER_LEN + DataSize(b);
      SameSize(b, n);
      assert Pow256(3) == TWO_TO_THE_24;
      FromBound(b[1..4], BE);
      ForwardIsShort(b[n + 4..]);
      hide FromBE;
      assert Forward(b) == [ReadTag(b[..n])] + Forward(b[n + 4..]);
    }
  }

  /**
    A stream of tags reads the same forward, by DataSize, and backward, by PreviousTagSize, whenever no message is
    too long for DataSize.
   */
  lemma BothWaysAgree(ts: seq<Tag>)
    requires Short(ts)
    ensures ReadFile(HEAD + Tags(ts)) == File(true, true, AllCut(ts)) && Backward(HEAD + Tags(ts)) == AllCut(ts)
  {
    hide *;
    HeadReads(Tags(ts));
    ForwardReads(ts);
    BackwardReads(HEAD, ts);
    HeadIsStart();
    assert [] + AllCut(ts) == AllCut(ts);
  }

  /** It gives back its messages if and only if they all fit: types of a byte, all else below 2^24. */
  lemma ReadsBackExactly(ts: seq<Tag>)
    ensures ReadFile(HEAD + Tags(ts)) == File(true, true, ts) <==> forall t :: t in ts ==> Fits(t)
  {
    hide TagBytes, Forward, Tags, Cut, ReadFile;
    HeadReads(Tags(ts));
    ForwardIsShort(Tags(ts));
    if Short(ts) {
      ForwardReads(ts);
      forall i | 0 <= i < |ts|
        ensures AllCut(ts)[i] == ts[i] <==> Fits(ts[i])
      {
        CutExactly(ts[i]);
      }
      assert (forall t :: t in ts ==> Fits(t)) <==> forall i :: 0 <= i < |ts| ==> Fits(ts[i]);
    }
  }

  lemma HeadIsStart()
    ensures Backward(HEAD) == []
  {
    assert HEAD[9..] == [0, 0, 0, 0];
    assert FromBE([0]) == 0 && FromBE([0, 0]) == 0 && FromBE([0, 0, 0]) == 0 by {
      assert [0][..0] == [] && [0, 0][..1] == [0] && [0, 0, 0][..2] == [0, 0];
    }
    assert [0, 0, 0, 0][..3] == [0, 0, 0];
  }

  // ---------------------------------------------------------------- the source's operations

  class FlvPlayer {
    var out: seq<byte>  // what has been written to Conn

    constructor ()
      ensures out == []
    {
      out := [];
    }

    method FlvSendHead()
      modifies this
      ensures out == old(out) + HEAD
    {
      var buf := new byte[13](_ => 0);
      buf[0], buf[1], buf[2], buf[3] := 0x46, 0x4c, 0x56, 0x01;
      buf[4] := 0 * 8 + 1 * 4 + 0 * 2 + 1;
      var _ := UintToByte(9, 4, buf, 5, 9, BE);
      var _ := UintToByte(0, 4, buf, 9, 13, BE);
      HeadFields();
      assert buf[..] == HEAD;
      out := out + buf[..];
    }

    /** The buffer of one tag, filled slice by slice, as every sender of tags fills it. */
    method SendTag(t: Tag)
      requires |t.data| + 15 < TWO_TO_THE_32
      modifies this
      ensures out == old(out) + TagBytes(t)
    {
      hide ToBE, ToLE;
      var size := |t.data|;
      var buf := new byte[11 + size + 4];
      buf[0] := t.typeId % 256;
      PutUint(buf, 1, 4, size);
      PutUint(buf, 4, 7, t.timestamp);
      buf[7] := 0;
      assert buf[..8] == buf[..7] + [0];
      PutUint(buf, 8, 11, t.streamId);
      Copy(buf, 11, 11 + size, t.data);
      assert t.data[..Min(size, size)] == t.data;
      assert buf[..11 + size] == buf[..][..11 + size];
      PutUint(buf, 11 + size, 11 + size + 4, 11 + size);
      assert buf[..] == buf[..11 + size + 4];
      assert buf[..] == TagBytes(t);
      out := out + buf[..];
    }

    /** FlvSendMetaData, FlvSendVideoHead and FlvSendAudioHead: a message under a fixed type. */
    method FlvSendAs(typeId: nat, t: Tag)
      requires |t.data| + 15 < TWO_TO_THE_32
      modifies this
      ensures out == old(out) + TagBytes(t.(typeId := typeId))
    {
      SendTag(t.(typeId := typeId));
    }

    /** FlvSendData: the cached frames, one variable reused for all tags. */
    method FlvSendData(md: seq<Tag>)
      requires forall t :: t in md ==> |t.data| + 15 < TWO_TO_THE_32
      modifies this
      ensures out == old(out) + Tags(md)
    {
      hide TagBytes, Tags;
      NoTags();
      for i := 0 to |md|
        invariant out == old(out) + Tags(md[..i])
      {
        TagsSnoc(md[..i], md[i]);
        assert md[..i + 1] == md[..i] + [md[i]];
        SendTag(md[i]);
      }
      assert md[..|md|] == md;
    }

    /** MessageSendFlv. */
    method MessageSendFlv(t: Tag)
      requires |t.data| + 15 < TWO_TO_THE_32
      modifies this
      ensures out == old(out) + TagBytes(t)
    {
      SendTag(t);
    }

    /** GopCacheSendFlv: a stream that a player can read from either end begins. */
    method GopCacheSendFlv(metaData: Tag, videoHeader: Tag, audioHeader: Tag, mediaData: seq<Tag>)
      requires forall t :: t in [metaData, videoHeader, audioHeader] + mediaData ==> |t.data| + 15 < TWO_TO_THE_32
      modifies this
      ensures var sent :=
          [metaData.(typeId := 0x12), videoHeader.(typeId := 0x9), audioHeader.(typeId := 0x8)] + mediaData;
        && out == old(out) + (HEAD + Tags(sent))
        && (Short(sent) ==>
              && ReadFile(HEAD + Tags(sent)) == File(true, true, AllCut(sent))
              && Backward(HEAD + Tags(sent)) == AllCut(sent))
    {
      hide TagBytes, Tags, ReadFile, Backward, AllCut;
      ghost var m, v, a := metaData.(typeId := 0x12), videoHeader.(typeId := 0x9), audioHeader.(typeId := 0x8);
      ghost var sent := [m, v, a] + mediaData;
      FlvSendHead();
      assert metaData in [metaData, videoHeader, audioHeader] + mediaData;
      FlvSendAs(0x12, metaData);
      assert videoHeader in [metaData, videoHeader, audioHeader] + mediaData;
      FlvSendAs(0x9, videoHeader);
      assert audioHeader in [metaData, videoHeader, audioHeader] + mediaData;
      FlvSendAs(0x8, audioHeader);
      FlvSendData(mediaData);
      FourParts(m, v, a, mediaData);
      if Short(sent) {
        BothWaysAgree(sent);
      }
    }
  }

  lemma HeadFields()
    ensures ToBE(9, 4) == [0, 0, 0, 9] && ToBE(0, 4) == [0, 0, 0, 0]
  {
    assert ToBE(0, 1) == [0] && ToBE(0, 2) == [0, 0];
    assert ToBE(0, 3) == [0, 0, 0] && ToBE(9, 1) == [9];
  }

  lemma FourParts(m: Tag, v: Tag, a: Tag, md: seq<Tag>)
    ensures Tags([m, v, a] + md) == TagBytes(m) + (TagBytes(v) + (TagBytes(a) + Tags(md)))
  {
    hide TagBytes, Tags;
    TagsCons(a, md);
    TagsCons(v, [a] + md);
    TagsCons(m, [v] + ([a] + md));
    assert [m] + ([v] + ([a] + md)) == [m, v, a] + md;
  }
}
