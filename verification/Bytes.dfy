/**
  Byte order: the layer every codec of the server stands on (serialize.go).

  `FromBE`/`FromLE` and `ToBE`/`ToLE` say what a big- or little-endian field means; the methods below them are
  the source's loops, proved against those meanings.
 */
module Bytes {
  type byte = x: int | 0 <= x < 256

  datatype ByteOrder = BE | LE

  const TWO_TO_THE_16: nat := 0x1_0000
  const TWO_TO_THE_24: nat := 0x100_0000
  const TWO_TO_THE_32: nat := 0x1_0000_0000

  /** 256 to the power n: one more than the largest value of an n-byte field. */
  function Pow256(n: nat): (p: nat)
    ensures p >= 1
    decreases n
  {
    if n == 0 then 1 else 256 * Pow256(n - 1)
  }

  /** The number whose digits to base 256 are b, most significant first. */
  function FromBE(b: seq<byte>): nat
  {
    if b == [] then 0 else FromBE(b[..|b| - 1]) * 256 + b[|b| - 1]
  }

  /** The number whose digits to base 256 are b, least significant first. */
  function FromLE(b: seq<byte>): nat
  {
    if b == [] then 0 else b[0] + 256 * FromLE(b[1..])
  }

  function From(b: seq<byte>, bo: ByteOrder): nat {
    if bo == BE then FromBE(b) else FromLE(b)
  }

  /** The n low-order base-256 digits of u, most significant first. */
  function ToBE(u: nat, n: nat): (r: seq<byte>)
    ensures |r| == n
    decreases n
  {
    if n == 0 then [] else ToBE(u / 256, n - 1) + [u % 256]
  }

  /** The n low-order base-256 digits of u, least significant first. */
  function ToLE(u: nat, n: nat): (r: seq<byte>)
    ensures |r| == n
    decreases n
  {
    if n == 0 then [] else [u % 256] + ToLE(u / 256, n - 1)
  }

  function To(u: nat, n: nat, bo: ByteOrder): (r: seq<byte>)
    ensures |r| == n
  {
    if bo == BE then ToBE(u, n) else ToLE(u, n)
  }

  // ---------------------------------------------------------------- round trips

  lemma ModStep(u: nat, p: nat)
    requires p >= 1
    ensures (u / 256) % p * 256 + u % 256 == u % (256 * p)
  {
    var q, d := u / 256, u % 256;
    var k, m := q / p, q % p;
    assert u == 256 * q + d && q == p * k + m;
    assert u == (256 * p) * k + (256 * m + d) by {
      assert 256 * (p * k) == (256 * p) * k;
    }
    assert 0 <= 256 * m + d < 256 * p;
    ModUnique(u, 256 * p, k, 256 * m + d);
  }

  lemma ModUnique(u: nat, p: nat, k: nat, m: nat)
    requires p >= 1 && u == p * k + m && m < p
    ensures u % p == m && u / p == k
  {
    var k', m' := u / p, u % p;
    assert u == p * k' + m';
    if k < k' {
      MulMono(p, k + 1, k');
    } else if k' < k {
      MulMono(p, k' + 1, k);
    }
  }

  lemma MulMono(p: nat, a: nat, b: nat)
    requires a <= b
    ensures p * a <= p * b
  {
  }

  lemma {:induction false} FromBound(b: seq<byte>, bo: ByteOrder)
    ensures From(b, bo) < Pow256(|b|)
  {
    if b != [] {
      FromBound(if bo == BE then b[..|b| - 1] else b[1..], bo);
    }
  }

  /** Reading back an n-byte field gives the value reduced to n bytes. */
  lemma {:induction false} FromTo(u: nat, n: nat, bo: ByteOrder)
    ensures From(To(u, n, bo), bo) == u % Pow256(n)
  {
    if n != 0 {
      FromTo(u / 256, n - 1, bo);
      ModStep(u, Pow256(n - 1));
      var rest := To(u / 256, n - 1, bo);
      if bo == BE {
        assert ToBE(u, n)[..n - 1] == rest;
      } else {
        assert ToLE(u, n)[1..] == rest;
      }
    }
  }

  /** Writing back a field that was read restores its bytes. */
  lemma {:induction false} ToFrom(b: seq<byte>, bo: ByteOrder)
    ensures To(From(b, bo), |b|, bo) == b
  {
    if b != [] {
      if bo == BE {
        ToFrom(b[..|b| - 1], bo);
        ModUnique(FromBE(b), 256, FromBE(b[..|b| - 1]), b[|b| - 1]);
      } else {
        ToFrom(b[1..], bo);
        ModUnique(FromLE(b), 256, FromLE(b[1..]), b[0]);
      }
    }
  }

  /** A field that is wide enough for its value round-trips exactly. */
  lemma FieldRoundTrip(u: nat, n: nat, bo: ByteOrder)
    requires u < Pow256(n)
    ensures From(To(u, n, bo), bo) == u
  {
    FromTo(u, n, bo);
    ModUnique(u, Pow256(n), 0, u);
  }

  /** The bytes of a field one by one, as the shift `u >> 8k` selects them. */
  lemma {:induction false} ToAt(u: nat, n: nat, bo: ByteOrder, i: nat)
    requires i < n
    ensures To(u, n, bo)[i] == u / Pow256(if bo == BE then n - 1 - i else i) % 256
  {
    var low := if bo == BE then n - 1 else 0;
    if i != low {
      var k := if bo == BE then n - 1 - i else i;
      ToAt(u / 256, n - 1, bo, if bo == BE then i else i - 1);
      DivStep(u, Pow256(k - 1));
    }
  }

  lemma DivStep(u: nat, p: nat)
    requires p >= 1
    ensures u / 256 / p == u / (256 * p)
  {
    var q, d := u / 256, u % 256;
    var k, m := q / p, q % p;
    assert u == 256 * (p * k + m) + d == (256 * p) * k + (256 * m + d);
    ModUnique(u, 256 * p, k, 256 * m + d);
  }

  // ---------------------------------------------------------------- the source's loops

  function Min(a: nat, b: nat): nat {
    if a < b then a else b
  }

  /** ByteToUint16/ByteToUint32: at most `width` bytes of b, with the source's shift-and-add in uint arithmetic. */
  method ByteToUint(b: seq<byte>, width: nat, bo: ByteOrder) returns (u: nat)
    ensures u == From(b[..Min(|b|, width)], bo)
    ensures u < Pow256(width)
  {
    var n := |b|;
    if n > width {
      n := width;
    }
    u := 0;
    PowMono(0, width);
    for i := 0 to n
      invariant u == From(b[..i], bo) < Pow256(i)
    {
      FromSnoc(b[..i + 1], bo);
      assert b[..i + 1][..i] == b[..i];
      FromBound(b[..i + 1], bo);
      PowMono(i + 1, width);
      if bo == BE {
        u := (u * 256 + b[i]) % Pow256(width);
      } else {
        u := (u + b[i] * Pow256(i)) % Pow256(width);
      }
      ModUnique(From(b[..i + 1], bo), Pow256(width), 0, From(b[..i + 1], bo));
    }
    PowMono(n, width);
  }

  lemma {:induction false} PowMono(i: nat, j: nat)
    requires i <= j
    ensures Pow256(i) <= Pow256(j)
  {
    if i < j {
      PowMono(i, j - 1);
    }
  }

  /** The last byte of a little-endian field is the most significant one. */
  lemma {:induction false} FromSnoc(b: seq<byte>, bo: ByteOrder)
    requires b != []
    ensures bo == BE ==> FromBE(b) == FromBE(b[..|b| - 1]) * 256 + b[|b| - 1]
    ensures bo == LE ==> FromLE(b) == FromLE(b[..|b| - 1]) + b[|b| - 1] * Pow256(|b| - 1)
  {
    if bo == LE && |b| > 1 {
      FromSnoc(b[1..], LE);
      assert b[1..][..|b| - 2] == b[..|b| - 1][1..];
      var h, p := b[|b| - 1], Pow256(|b| - 2);
      assert 256 * (h * p) == h * (256 * p);
    }
  }

  /** s with the bytes from position `at` on replaced by w. */
  function Overwrite(s: seq<byte>, at: nat, w: seq<byte>): (r: seq<byte>)
    requires at + |w| <= |s|
    ensures |r| == |s|
  {
    s[..at] + w + s[at + |w|..]
  }

  /** Go's `copy(dst[lo:hi], src)`: as many bytes as fit. */
  method Copy(dst: array<byte>, lo: nat, hi: nat, src: seq<byte>)
    requires lo <= hi <= dst.Length
    modifies dst
    ensures dst[..] == Overwrite(old(dst[..]), lo, src[..Min(|src|, hi - lo)])
  {
    var n := Min(|src|, hi - lo);
    forall i | 0 <= i < n {
      dst[lo + i] := src[i];
    }
    assert dst[..] == Overwrite(old(dst[..]), lo, src[..n]);
  }

  /**
    Uint16ToByte/Uint24ToByte/Uint32ToByte: `width` bytes of u, also copied into the caller's slice
    `b[lo..hi]` when there is one.
   */
  method UintToByte(u: nat, width: nat, b: array?<byte>, lo: nat, hi: nat, bo: ByteOrder) returns (r: seq<byte>)
    requires b != null ==> lo <= hi <= b.Length
    modifies b
    ensures r == To(u, width, bo)
    ensures b != null ==> b[..] == Overwrite(old(b[..]), lo, r[..Min(width, hi - lo)])
  {
    var bb := new byte[width];
    for i := 0 to width
      modifies bb
      invariant bb[..i] == To(u, width, bo)[..i]
    {
      ToAt(u, width, bo, i);
      bb[i] := u / Pow256(if bo == BE then width - 1 - i else i) % 256;
      assert bb[..i + 1] == bb[..i] + [bb[i]];
    }
    r := bb[..];
    assert bb[..] == bb[..width];
    if b != null {
      Copy(b, lo, hi, r);
    }
  }

  /** `copy(d[ss:ee], w)` of as many bytes as there is room for, behind what has been written. */
  method Put(d: array<byte>, ss: nat, ee: nat, w: seq<byte>)
    requires ss <= ee <= d.Length && |w| == ee - ss
    modifies d
    ensures d[..ee] == old(d[..ss]) + w
  {
    Copy(d, ss, ee, w);
    assert w[..Min(|w|, ee - ss)] == w;
    assert d[..ee] == d[..][..ee];
  }

  /** Uint16ToByte/Uint24ToByte/Uint32ToByte into a slice of that width. */
  method PutUint(d: array<byte>, ss: nat, ee: nat, u: nat)
    requires ss <= ee <= d.Length
    modifies d
    ensures d[..ee] == old(d[..ss]) + ToBE(u, ee - ss)
  {
    hide ToBE, ToLE;
    var r := UintToByte(u, ee - ss, d, ss, ee, BE);
    assert r[..Min(ee - ss, ee - ss)] == r;
    assert d[..ee] == d[..][..ee];
  }
}
