/**
  The digests of the complex handshake (rtmp.go:189-260). The keyed hash is any function at all with results of 32
  bytes; the random bytes are parameters.
 */
module Handshake {
  import opened Bytes

  const DIGEST_LEN: nat := 32
  const PACKET_LEN: nat := 1536
  const OFFSETS: nat := 728

  type Digest = d: seq<byte> | |d| == DIGEST_LEN witness seq(DIGEST_LEN, _ => 0)
  type Packet = p: seq<byte> | |p| == PACKET_LEN witness seq(PACKET_LEN, _ => 0)
  type Hash = (seq<byte>, seq<byte>) -> Digest

  /** The two places where the four bytes of the offset can be. */
  predicate IsBase(base: nat) {
    base == 8 || base == 772
  }

  /** DigestFindPos. */
  function FindPos(p: Packet, base: nat): (pos: nat)
    requires IsBase(base)
    ensures base + 4 <= pos && pos + DIGEST_LEN <= PACKET_LEN
  {
    base + 4 + ((p[base] as nat) + (p[base + 1] as nat) + (p[base + 2] as nat) + (p[base + 3] as nat)) % OFFSETS
  }

  /**
    The place is the one of 728, behind the four bytes, whose number is congruent to their sum; with the digest it stays
    inside the half of 764 bytes that the four bytes are in, so that neither half ever overlaps the other.
   */
  lemma PlaceExactly(p: Packet, base: nat, pos: nat)
    requires base == 8 || base == 772
    ensures pos == FindPos(p, base) <==>
      && base + 4 <= pos < base + 4 + 728
      && var sum: nat := (p[base] as nat) + (p[base + 1] as nat) + (p[base + 2] as nat) + (p[base + 3] as nat);
         (sum - (pos - base - 4)) % 728 == 0
    ensures FindPos(p, base) + 32 <= base + 764
  {
    var sum: nat := (p[base] as nat) + (p[base + 1] as nat) + (p[base + 2] as nat) + (p[base + 3] as nat);
    if base + 4 <= pos < base + 4 + 728 {
      Congruent(sum, pos - base - 4);
    }
  }

  lemma Congruent(sum: nat, n: nat)
    requires n < 728
    ensures (sum - n) % 728 == 0 <==> sum % 728 == n
  {
  }

  /** What is hashed: all but the digest. */
  function Hashed(p: seq<byte>, pos: nat): seq<byte>
    requires pos + DIGEST_LEN <= |p|
  {
    p[..pos] + p[pos + DIGEST_LEN..]
  }

  function Signed(hash: Hash, key: seq<byte>, p: Packet, pos: nat): Packet
    requires pos + DIGEST_LEN <= PACKET_LEN
  {
    p[..pos] + hash(key, Hashed(p, pos)) + p[pos + DIGEST_LEN..]
  }

  /** DigestFind: the digest at its place, if it is the right one, and nothing otherwise. */
  function Find(hash: Hash, key: seq<byte>, p: Packet, base: nat): (d: seq<byte>)
    requires IsBase(base)
    ensures d == [] || |d| == DIGEST_LEN
  {
    var pos := FindPos(p, base);
    if p[pos..pos + DIGEST_LEN] == hash(key, Hashed(p, pos)) then p[pos..pos + DIGEST_LEN] else []
  }

  /** The digest depends on every byte but the 32 at its place, and on none of those. */
  lemma HashedExactly(p: seq<byte>, q: seq<byte>, pos: nat)
    requires |p| == |q| && pos + DIGEST_LEN <= |p|
    ensures Hashed(p, pos) == Hashed(q, pos) <==>
      forall i :: 0 <= i < |p| && !(pos <= i < pos + DIGEST_LEN) ==> p[i] == q[i]
  {
    var h, k := Hashed(p, pos), Hashed(q, pos);
    if h == k {
      forall i | 0 <= i < |p| && !(pos <= i < pos + DIGEST_LEN)
        ensures p[i] == q[i]
      {
        var j := if i < pos then i else i - DIGEST_LEN;
        assert h[j] == p[i] && k[j] == q[i];
      }
    }
  }

  /** Writing the digest changes neither what is hashed nor where the digest is looked for. */
  lemma SigningIsStable(hash: Hash, key: seq<byte>, p: Packet, base: nat)
    requires IsBase(base)
    ensures var pos := FindPos(p, base); var s := Signed(hash, key, p, pos);
      FindPos(s, base) == pos && Hashed(s, pos) == Hashed(p, pos)
  {
    var pos := FindPos(p, base);
    var s := Signed(hash, key, p, pos);
    assert s[..pos] == p[..pos] && s[pos + DIGEST_LEN..] == p[pos + DIGEST_LEN..];
    assert forall i :: 0 <= i < pos ==> s[i] == s[..pos][i];
  }

  /** A digest is found exactly in the packets that signing leaves as they are, so signing twice is signing once. */
  lemma FoundExactly(hash: Hash, key: seq<byte>, p: Packet, base: nat)
    requires IsBase(base)
    ensures Find(hash, key, p, base) != [] <==> Signed(hash, key, p, FindPos(p, base)) == p
    ensures var s := Signed(hash, key, p, FindPos(p, base));
      Find(hash, key, s, base) == hash(key, Hashed(p, FindPos(p, base)))
  {
    hide FindPos, Hashed;
    var pos := FindPos(p, base);
    var s := Signed(hash, key, p, pos);
    SigningIsStable(hash, key, p, base);
    assert s[pos..pos + DIGEST_LEN] == hash(key, Hashed(p, pos));
    if p[pos..pos + DIGEST_LEN] == hash(key, Hashed(p, pos)) {
      assert s == p[..pos] + p[pos..pos + DIGEST_LEN] + p[pos + DIGEST_LEN..] == p;
    }
  }

  class Server {
    const hash: Hash
    const clientKey: seq<byte>    // FPKeyP
    const serverKey: seq<byte>    // FMSKeyP
    const responseKey: seq<byte>  // FMSKey

    constructor (hash: Hash, clientKey: seq<byte>, serverKey: seq<byte>, responseKey: seq<byte>)
      ensures this.hash == hash && this.clientKey == clientKey
      ensures this.serverKey == serverKey && this.responseKey == responseKey
    {
      this.hash, this.clientKey, this.serverKey, this.responseKey := hash, clientKey, serverKey, responseKey;
    }

    method DigestFindPos(c1: array<byte>, base: nat) returns (pos: nat)
      requires c1.Length == PACKET_LEN && IsBase(base)
      ensures pos == FindPos(c1[..], base)
    {
      var offset: nat := 0;
      for i := 0 to 4
        invariant i >= 1 ==> offset >= c1[base]
        invariant offset == (if i > 0 then c1[base] as nat else 0) + (if i > 1 then c1[base + 1] as nat else 0) +
          (if i > 2 then c1[base + 2] as nat else 0) + (if i > 3 then c1[base + 3] as nat else 0)
      {
        offset := offset + (c1[base + i] as nat);
      }
      pos := base + 4 + offset % OFFSETS;
    }

    /** A position of -1 hashes everything. */
    method DigestCreate(b: seq<byte>, pos: int, key: seq<byte>) returns (d: Digest)
      requires pos > 0 ==> pos + DIGEST_LEN <= |b|
      ensures d == hash(key, if pos <= 0 then b else Hashed(b, pos))
    {
      if pos <= 0 {
        d := hash(key, b);
      } else {
        d := hash(key, b[..pos] + b[pos + DIGEST_LEN..]);
      }
    }

    method DigestFind(c1: array<byte>, base: nat) returns (d: seq<byte>)
      requires c1.Length == PACKET_LEN && IsBase(base)
      ensures d == Find(hash, clientKey, c1[..], base)
    {
      var pos := DigestFindPos(c1, base);
      var digest := DigestCreate(c1[..], pos, clientKey);
      assert c1[pos..pos + DIGEST_LEN] == c1[..][pos..pos + DIGEST_LEN];
      d := if c1[pos..pos + DIGEST_LEN] == digest then digest else [];
    }

    /**
      The answer to a client whose C1 carries a digest at either place: S1 echoes its times and carries a digest
      that the client will find, S2 one keyed by the client's.
     */
    method CreateComplexS1S2(c1: array<byte>, s1: array<byte>, s2: array<byte>, random1: seq<byte>, random2: Packet)
      returns (ok: bool)
      requires c1.Length == s1.Length == s2.Length == PACKET_LEN && |random1| == PACKET_LEN - 8
      requires c1 != s1 && c1 != s2 && s1 != s2
      modifies s1, s2
      ensures var d := Find(hash, clientKey, c1[..], 8);
        var c1Digest := if d != [] then d else Find(hash, clientKey, c1[..], 772);
        && (ok <==> c1Digest != [])
        && (ok ==>
              && s1[..8] == c1[..8]
              && Find(hash, serverKey, s1[..], 8) != []
              && s2[..1504] == random2[..1504]
              && s2[1504..] == hash(hash(responseKey, c1Digest), s2[..1504]))
    {
      hide Find, Hashed;
      var c1Digest := DigestFind(c1, 8);
      if c1Digest == [] {
        c1Digest := DigestFind(c1, 772);
      }
      if c1Digest == [] {
        return false;
      }
      ok := true;
      EchoTimes(c1, s1, random1);
      assert s1[..8] == s1[..][..8] == c1[..8];
      Sign(s1);
      var key := DigestCreate(c1Digest, -1, responseKey);
      Answer(s2, key, random2);
    }

    /** Random bytes, closed by their digest. */
    method Answer(s2: array<byte>, key: seq<byte>, random: Packet)
      requires s2.Length == PACKET_LEN
      modifies s2
      ensures s2[..1504] == random[..1504] && s2[1504..] == hash(key, s2[..1504])
    {
      Put(s2, 0, PACKET_LEN, random);
      assert s2[..] == s2[..PACKET_LEN] == random;
      var s2Digest := DigestCreate(s2[..], 1504, key);
      assert Hashed(random, 1504) == random[..1504];
      Copy(s2, 1504, PACKET_LEN, s2Digest);
      assert s2[..1504] == s2[..][..1504] && s2[1504..] == s2[..][1504..];
    }

    /** The times of C1 and random bytes. */
    method EchoTimes(c1: array<byte>, s1: array<byte>, random: seq<byte>)
      requires c1.Length == s1.Length == PACKET_LEN && |random| == PACKET_LEN - 8 && c1 != s1
      modifies s1
      ensures s1[..] == c1[..8] + random
    {
      hide ToBE, FromBE, ToLE, FromLE;
      var time, zero := c1[0..4], c1[4..8];
      assert time[..Min(4, 4)] == time && zero[..Min(4, 4)] == zero;
      var cTime := ByteToUint(time, 4, BE);
      var cZero := ByteToUint(zero, 4, BE);
      ToFrom(time, BE);
      ToFrom(zero, BE);
      PutUint(s1, 0, 4, cTime);
      PutUint(s1, 4, 8, cZero);
      assert s1[..8] == time + zero == c1[..8];
      Put(s1, 8, PACKET_LEN, random);
      assert s1[..] == s1[..PACKET_LEN];
    }

    method Sign(s1: array<byte>)
      requires s1.Length == PACKET_LEN
      modifies s1
      ensures s1[..] == Signed(hash, serverKey, old(s1[..]), FindPos(old(s1[..]), 8))
      ensures s1[..8] == old(s1[..8]) && Find(hash, serverKey, s1[..], 8) != []
    {
      hide FindPos;
      ghost var before: Packet := s1[..];
      FoundExactly(hash, serverKey, before, 8);
      var pos := DigestFindPos(s1, 8);
      var s1Digest := DigestCreate(s1[..], pos, serverKey);
      Copy(s1, pos, PACKET_LEN, s1Digest);
      assert s1[..] == Signed(hash, serverKey, before, pos);
      assert s1[..8] == s1[..][..8] && before[..8] == before[..pos][..8];
    }
  }
}
