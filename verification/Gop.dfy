/**
  The GOP cache (rtmp.go:957-1075, 1144-1192, 1234-1276): the media since a keyframe, kept so that a new player can
  start at once.
 */
module Gop {
  import opened DataTypes

  /** A media frame; `number` tells frames apart (in the server it is the chunk itself). */
  datatype Frame = Frame(kind: Kind, number: nat)

  /** GopCacheNum and MediaData. */
  datatype State = State(num: int, media: seq<Frame>)

  const EMPTY := State(0, [])

  function KeyCount(s: seq<Frame>): nat {
    if s == [] then 0 else (if s[|s| - 1].kind == Key then 1 else 0) + KeyCount(s[..|s| - 1])
  }

  predicate KeyHeaded(s: seq<Frame>) {
    s != [] && s[0].kind == Key
  }

  ghost predicate IsSuffix(s: seq<Frame>, h: seq<Frame>) {
    |s| <= |h| && h[|h| - |s|..] == s
  }

  /** The part of the history that begins with its n-th last keyframe. */
  ghost predicate IsLastGops(s: seq<Frame>, h: seq<Frame>, n: int) {
    IsSuffix(s, h) && KeyHeaded(s) && KeyCount(s) == n
  }

  // ---------------------------------------------------------------- what the code does, on values

  /** The loop of GopCacheUpdate: frames go from the front until the second keyframe is met. */
  function DropGop(media: seq<Frame>, keys: nat): (r: seq<Frame>)
    decreases media
  {
    if media == [] then []
    else
      var keys' := keys + if media[0].kind == Key then 1 else 0;
      if keys' == 2 then media else DropGop(media[1..], keys')
  }

  function Update(s: State, max: int): State {
    if s.num < max then s else State(s.num - 1, DropGop(s.media, 0))
  }

  function Push(s: State, f: Frame, max: int): State {
    var media := s.media + [f];
    if f.kind == Key then Update(State(s.num + if |media| > 1 then 1 else 0, media), max)
    else State(s.num, media)
  }

  /** The cache after a whole history of media frames. */
  function After(history: seq<Frame>, max: int): State
    decreases history
  {
    if history == [] then EMPTY
    else Push(After(history[..|history| - 1], max), history[|history| - 1], max)
  }

  // ---------------------------------------------------------------- what is cached of the messages received

  /** The frames among the messages, numbered as they came. */
  function FramesIn(cs: seq<Content>): seq<Frame>
    decreases cs
  {
    if cs == [] then [] else FramesIn(cs[..|cs| - 1]) + Cached(cs[|cs| - 1], |cs| - 1)
  }

  /** What one message adds to the media history. */
  function Cached(c: Content, number: nat): seq<Frame> {
    if c.MediaFrame? then [Frame(c.kind, number)] else []
  }

  /** The number of the last header of each kind. */
  function HeadsIn(cs: seq<Content>): map<HeadKind, nat>
    decreases cs
  {
    if cs == [] then map[]
    else
      var c, before := cs[|cs| - 1], HeadsIn(cs[..|cs| - 1]);
      if c.Head? then before[c.head := |cs| - 1] else before
  }

  lemma OneMore(cs: seq<Content>, c: Content)
    ensures FramesIn(cs + [c]) == FramesIn(cs) + Cached(c, |cs|)
    ensures HeadsIn(cs + [c]) == if c.Head? then HeadsIn(cs)[c.head := |cs|] else HeadsIn(cs)
  {
    assert (cs + [c])[..|cs|] == cs;
  }

  // ---------------------------------------------------------------- the cache as the server keeps it

  class GopCache {
    var max: int
    var num: int
    var media: seq<Frame>
    ghost var history: seq<Frame>  // every media frame ever pushed

    ghost predicate Valid()
      reads this
    {
      max >= 1 && State(num, media) == After(history, max)
    }

    /** GopCacheNew, for any GopCacheMax of at least 1 (the server's is 1). */
    constructor (max: int)
      requires max >= 1
      ensures Valid() && this.max == max && history == []
    {
      this.max, num, media, history := max, 0, [], [];
    }

    method GopCacheUpdate()
      modifies this`num, this`media
      ensures State(num, media) == Update(old(State(num, media)), max)
    {
      if num < max {
        return;
      }
      var keyFrameNum := 0;
      while media != []
        invariant 0 <= keyFrameNum <= 1 && num == old(num)
        invariant DropGop(media, keyFrameNum) == old(DropGop(media, 0))
        decreases |media|
      {
        var v := media[0];
        if v.kind == Key {
          keyFrameNum := keyFrameNum + 1;
        }
        if keyFrameNum == 2 {
          break;
        }
        media := media[1..];
      }
      num := num - 1;
    }

    /** VideoHandle on a NALU frame. */
    method PushVideo(f: Frame)
      requires Valid() && f.kind != Aac
      modifies this
      ensures Valid() && max == old(max) && history == old(history) + [f]
    {
      media := media + [f];
      history := history + [f];
      assert history[..|history| - 1] == old(history);
      if f.kind == Key {
        if |media| > 1 {
          num := num + 1;
        }
        GopCacheUpdate();
      }
    }

    /** AudioHandle on a raw AAC frame. */
    method PushAudio(f: Frame)
      requires Valid() && f.kind == Aac
      modifies this
      ensures Valid() && max == old(max) && history == old(history) + [f]
    {
      media := media + [f];
      history := history + [f];
      assert history[..|history| - 1] == old(history);
    }
  }

  // ---------------------------------------------------------------- counting keyframes

  lemma {:induction false} KeyCountSum(a: seq<Frame>, b: seq<Frame>)
    ensures KeyCount(a + b) == KeyCount(a) + KeyCount(b)
    decreases b
  {
    if b == [] {
      assert a + b == a;
    } else {
      assert (a + b)[..|a + b| - 1] == a + b[..|b| - 1];
      KeyCountSum(a, b[..|b| - 1]);
    }
  }

  lemma KeyCountFront(s: seq<Frame>)
    requires s != []
    ensures KeyCount(s) == (if s[0].kind == Key then 1 else 0) + KeyCount(s[1..])
  {
    assert s == [s[0]] + s[1..] && [s[0]][..0] == [];
    KeyCountSum([s[0]], s[1..]);
  }

  /** What the loop leaves begins with the second keyframe; if there is no second one, nothing is left. */
  lemma {:induction false} DropGopLeaves(media: seq<Frame>, keys: nat)
    requires keys <= 1
    ensures var r := DropGop(media, keys);
      && IsSuffix(r, media)
      && (r == [] <==> keys + KeyCount(media) < 2)
      && (r != [] ==> KeyHeaded(r) && KeyCount(r) == keys + KeyCount(media) - 1)
    decreases media
  {
    if media != [] {
      KeyCountFront(media);
      var keys' := keys + if media[0].kind == Key then 1 else 0;
      if keys' != 2 {
        DropGopLeaves(media[1..], keys');
        SuffixTail(DropGop(media[1..], keys'), media);
      }
    }
  }

  lemma SuffixTail(s: seq<Frame>, h: seq<Frame>)
    requires h != [] && IsSuffix(s, h[1..])
    ensures IsSuffix(s, h)
  {
  }

  lemma SuffixTrans(s: seq<Frame>, t: seq<Frame>, h: seq<Frame>)
    requires IsSuffix(s, t) && IsSuffix(t, h)
    ensures IsSuffix(s, h)
  {
    assert h[|h| - |s|..] == h[|h| - |t|..][|t| - |s|..];
  }

  lemma SuffixSnoc(s: seq<Frame>, h: seq<Frame>, f: Frame)
    requires IsSuffix(s, h)
    ensures IsSuffix(s + [f], h + [f])
  {
    assert (h + [f])[|h| - |s|..] == h[|h| - |s|..] + [f];
  }

  // ---------------------------------------------------------------- every run

  ghost predicate SuffixInv(s: State, h: seq<Frame>, max: int) {
    && IsSuffix(s.media, h)
    && 0 <= s.num < max
    && KeyCount(s.media) <= max
    && (s.num == KeyCount(s.media) || (KeyHeaded(s.media) && s.num == KeyCount(s.media) - 1))
  }

  lemma Pushed(s: State, h: seq<Frame>, f: Frame)
    requires IsSuffix(s.media, h)
    ensures IsSuffix(s.media + [f], h + [f]) && IsSuffix(DropGop(s.media + [f], 0), h + [f])
    ensures KeyCount(s.media + [f]) == KeyCount(s.media) + if f.kind == Key then 1 else 0
  {
    var media := s.media + [f];
    SuffixSnoc(s.media, h, f);
    DropGopLeaves(media, 0);
    SuffixTrans(DropGop(media, 0), media, h + [f]);
    assert media[..|media| - 1] == s.media;
  }

  lemma PushKeepsSuffix(s: State, h: seq<Frame>, f: Frame, max: int)
    requires max >= 1 && SuffixInv(s, h, max)
    ensures SuffixInv(Push(s, f, max), h + [f], max)
  {
    Pushed(s, h, f);
    DropGopLeaves(s.media + [f], 0);
    hide DropGop, IsSuffix;
    if s.media != [] {
      assert (s.media + [f])[0] == s.media[0];
    }
  }

  /**
    Every run whatsoever: the cache is a contiguous suffix of the media history with at most M keyframes, and the
    counter is the number of keyframes in it, or one less when it begins with one.
   */
  lemma {:induction false} SuffixAlways(h: seq<Frame>, max: int)
    requires max >= 1
    ensures SuffixInv(After(h, max), h, max)
    decreases h
  {
    hide Push;
    if h != [] {
      var n := |h| - 1;
      assert h == h[..n] + [h[n]];
      SuffixAlways(h[..n], max);
      PushKeepsSuffix(After(h[..n], max), h[..n], h[n], max);
    }
  }

  /** Once the cache begins with a keyframe it always will. */
  lemma KeyHeadedStays(h: seq<Frame>, f: Frame, max: int)
    requires max >= 1 && KeyHeaded(After(h, max).media)
    ensures KeyHeaded(After(h + [f], max).media)
  {
    assert (h + [f])[..|h|] == h;
    SuffixAlways(h, max);
    var media := After(h, max).media + [f];
    assert media[..|media| - 1] == After(h, max).media;
    KeyCountFront(After(h, max).media);
    DropGopLeaves(media, 0);
  }

  /** With room for one GOP the cache either begins with a keyframe or holds none at all. */
  lemma {:induction false} OneGop(h: seq<Frame>)
    ensures var media := After(h, 1).media;
      if KeyHeaded(media) then KeyCount(media) == 1 else KeyCount(media) == 0
    decreases h
  {
    SuffixAlways(h, 1);
    var media := After(h, 1).media;
    if KeyHeaded(media) {
      KeyCountFront(media);
    }
  }

  ghost predicate DesignInv(s: State, h: seq<Frame>, max: int) {
    var k := KeyCount(h);
    var n := if k < max then k else max;
    k >= 1 && IsLastGops(s.media, h, n) && s.num == n - 1
  }

  lemma PushKeepsDesign(s: State, h: seq<Frame>, f: Frame, max: int)
    requires max >= 1 && DesignInv(s, h, max)
    ensures DesignInv(Push(s, f, max), h + [f], max)
  {
    Pushed(s, h, f);
    DropGopLeaves(s.media + [f], 0);
    assert (h + [f])[..|h|] == h;
    assert (s.media + [f])[0] == s.media[0];
    hide DropGop, IsSuffix;
  }

  lemma FirstKeyframe(f: Frame, max: int)
    requires max >= 1 && f.kind == Key
    ensures DesignInv(After([f], max), [f], max)
  {
    assert [f][..0] == [] && [] + [f] == [f];
    assert KeyCount([f]) == 1 + KeyCount([]);
    assert After([f], max) == Push(After([], max), f, max);
    assert After([f], max) == State(0, [f]);
  }

  /**
    When the first frame of all is a keyframe, the cache is exactly what the design says: with k keyframes so far,
    the media from the min(k, M)-th last of them on, and GopCacheNum is one less than that.
   */
  lemma {:induction false} RefinesDesign(h: seq<Frame>, max: int)
    requires max >= 1 && KeyHeaded(h)
    ensures DesignInv(After(h, max), h, max)
    decreases h
  {
    var n := |h| - 1;
    assert h == h[..n] + [h[n]];
    if n == 0 {
      FirstKeyframe(h[0], max);
    } else {
      RefinesDesign(h[..n], max);
      PushKeepsDesign(After(h[..n], max), h[..n], h[n], max);
      hide Push, DesignInv;
    }
  }

  /** There is only one such part of a history, so RefinesDesign determines the cache. */
  lemma LastGopsUnique(s: seq<Frame>, t: seq<Frame>, h: seq<Frame>, n: int)
    requires IsLastGops(s, h, n) && IsLastGops(t, h, n)
    ensures s == t
  {
    if |s| < |t| {
      LongerHasMoreKeys(s, t);
    } else if |t| < |s| {
      LongerHasMoreKeys(t, s);
    } else {
      assert s == h[|h| - |s|..] == t;
    }
  }

  lemma LongerHasMoreKeys(s: seq<Frame>, t: seq<Frame>)
    requires |s| < |t| && KeyHeaded(t)
    requires t[|t| - |s|..] == s
    ensures KeyCount(t) > KeyCount(s)
  {
    var d := |t| - |s|;
    assert t == t[..d] + s;
    KeyCountSum(t[..d], s);
    KeyCountFront(t[..d]);
  }

  // ---------------------------------------------------------------- exactly when

  /** Two keyframes with nothing between them. */
  predicate Twins(h: seq<Frame>) {
    exists i :: 0 <= i < |h| - 1 && h[i].kind == h[i + 1].kind == Key
  }

  lemma TwinsSnoc(h: seq<Frame>, f: Frame)
    ensures Twins(h + [f]) <==> Twins(h) || (h != [] && h[|h| - 1].kind == f.kind == Key)
  {
    var r := h + [f];
    assert forall i :: 0 <= i < |h| ==> r[i] == h[i];
    if Twins(h) {
      var i :| 0 <= i < |h| - 1 && h[i].kind == h[i + 1].kind == Key;
      assert r[i].kind == r[i + 1].kind == Key;
    }
    if h != [] && h[|h| - 1].kind == f.kind == Key {
      assert r[|h| - 1].kind == r[|h| - 1 + 1].kind == Key;
    }
  }

  /** With room for two GOPs or more, a counter that starts one too high never comes down. */
  lemma {:induction false} CountsOneMore(h: seq<Frame>, max: int)
    requires max >= 2 && h != [] && !KeyHeaded(h)
    ensures var s := After(h, max); s.num == KeyCount(s.media) && s.media != []
    decreases h
  {
    var n := |h| - 1;
    assert h == h[..n] + [h[n]];
    if n == 0 {
      assert h[..0] == [] && [] + [h[0]] == [h[0]];
      assert KeyCount([h[0]]) == KeyCount([h[0]][..0]);
    } else {
      CountsOneMore(h[..n], max);
      SuffixAlways(h[..n], max);
      CountGoesOn(After(h[..n], max), h[..n], h[n], max);
    }
  }

  lemma CountGoesOn(s: State, h: seq<Frame>, f: Frame, max: int)
    requires max >= 2 && SuffixInv(s, h, max) && s.num == KeyCount(s.media) && s.media != []
    ensures var r := Push(s, f, max); r.num == KeyCount(r.media) && r.media != []
  {
    Pushed(s, h, f);
    DropGopLeaves(s.media + [f], 0);
    hide DropGop, IsSuffix, KeyCount, KeyHeaded;
  }

  /** With room for one, every keyframe goes with what was before it, until one finds the cache empty. */
  lemma {:induction false} KeysAreLost(h: seq<Frame>)
    requires h != [] && !KeyHeaded(h) && !Twins(h)
    ensures var s := After(h, 1);
      s.num == 0 && KeyCount(s.media) == 0 && (s.media == [] <==> h[|h| - 1].kind == Key)
    decreases h
  {
    var n := |h| - 1;
    assert h == h[..n] + [h[n]];
    if n == 0 {
      assert h[..0] == [] && [] + [h[0]] == [h[0]];
      assert KeyCount([h[0]]) == KeyCount([h[0]][..0]);
    } else {
      TwinsSnoc(h[..n], h[n]);
      KeysAreLost(h[..n]);
      SuffixAlways(h[..n], 1);
      var s := After(h[..n], 1);
      Pushed(s, h[..n], h[n]);
      DropGopLeaves(s.media + [h[n]], 0);
    }
  }

  /** And that one heads the cache from then on. */
  lemma {:induction false} TwinsHead(h: seq<Frame>)
    requires Twins(h) && !KeyHeaded(h)
    ensures KeyHeaded(After(h, 1).media)
    decreases h
  {
    var n := |h| - 1;
    assert h == h[..n] + [h[n]];
    TwinsSnoc(h[..n], h[n]);
    if Twins(h[..n]) {
      TwinsHead(h[..n]);
      KeyHeadedStays(h[..n], h[n], 1);
    } else {
      KeysAreLost(h[..n]);
      assert After(h, 1).media == [h[n]];
    }
  }

  /** Keyframe at the head and room for one: that is all the design asks for. */
  lemma HeadIsEnough(h: seq<Frame>)
    requires KeyHeaded(After(h, 1).media)
    ensures DesignInv(After(h, 1), h, 1)
  {
    SuffixAlways(h, 1);
    OneGop(h);
    var media := After(h, 1).media;
    assert h == h[..|h| - |media|] + media;
    KeyCountSum(h[..|h| - |media|], media);
  }

  /**
    The cache is what the design says if and only if the first media frame was a keyframe, or, with room for one GOP,
    two keyframes have followed each other with no frame between them.
   */
  lemma DesignExactly(h: seq<Frame>, max: int)
    requires max >= 1
    ensures DesignInv(After(h, max), h, max) <==> KeyHeaded(h) || (max == 1 && Twins(h))
  {
    hide After, DropGop;
    if KeyHeaded(h) {
      RefinesDesign(h, max);
    } else if h == [] {
      assert KeyCount(h) == 0;
    } else if max >= 2 {
      CountsOneMore(h, max);
    } else if Twins(h) {
      TwinsHead(h);
      HeadIsEnough(h);
    } else {
      KeysAreLost(h);
    }
  }

  /** The server's own setting, and a publisher that sends sound first: its first keyframe is lost. */
  lemma SoundFirst(a: nat, b: nat)
    ensures var h := [Frame(Aac, a), Frame(Key, b)];
      After(h, 1) == State(0, []) && !DesignInv(After(h, 1), h, 1)
  {
    var h := [Frame(Aac, a), Frame(Key, b)];
    assert h[..1] == [h[0]] && h[..1][..0] == [];
    assert After([], 1) == EMPTY;
    assert After(h[..1], 1) == State(0, [h[0]]);
    var media := [h[0]] + [h[1]];
    assert media[1..][1..] == [];
    assert DropGop(media, 0) == DropGop(media[1..], 0) == DropGop(media[1..][1..], 1) == [];
  }
}
