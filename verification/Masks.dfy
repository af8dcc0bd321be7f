/** The bit operations of the source on bytes, as arithmetic. */
module Masks {
  lemma Or(p: bv8, q: bv8)
    requires p & q == 0
    ensures (p | q) as nat == p as nat + q as nat
  {
  }

  lemma Up2(y: nat)
    requires y < 64
    ensures ((y as bv8) << 2) as nat == y * 4
  {
    assert y % 256 == y;
  }

  lemma Up5(y: nat)
    requires y < 8
    ensures ((y as bv8) << 5) as nat == y * 32
  {
    assert y % 256 == y;
  }

  lemma SplitAt2(b: bv8)
    ensures b == (b & 0xfc) | (b & 0x3) && (b & 0xfc) & (b & 0x3) == 0
    ensures b & 0xfc == (b >> 2) << 2 && b & 0x3 < 4 && b >> 2 < 64
  {
  }

  lemma SplitAt5(b: bv8)
    ensures b == (b & 0xe0) | (b & 0x1f) && (b & 0xe0) & (b & 0x1f) == 0
    ensures b & 0xe0 == (b >> 5) << 5 && b & 0x1f < 32 && b >> 5 < 8
  {
  }

  /** 0xfc clears the two low bits. */
  lemma KeepHigh(b: bv8)
    ensures (b & 0xfc) as nat == (b as nat) / 4 * 4
  {
    SplitAt2(b);
    Or(b & 0xfc, b & 0x3);
    var q := b >> 2;
    Up2(q as nat);
    assert (q as nat) as bv8 == q;
    assert (b & 0x3) as nat < 4;
  }

  /** 0x1f keeps the five low bits. */
  lemma KeepLow(b: bv8)
    ensures (b & 0x1f) as nat == (b as nat) % 32
  {
    SplitAt5(b);
    Or(b & 0xe0, b & 0x1f);
    var q := b >> 5;
    Up5(q as nat);
    assert (q as nat) as bv8 == q;
    assert (b & 0x1f) as nat < 32;
  }

  /** 0x2 keeps one bit where it stands. */
  lemma KeepBit1(y: nat)
    requires y < 32
    ensures ((y as bv8) & 0x2) as nat == y / 2 % 2 * 2
  {
  }

  lemma NoOverlap(x: bv8, y: bv8)
    ensures (x & 0xfc) & (y & 0x2) == 0 && (x & 0x1f) & (y << 5) == 0
  {
  }

  lemma ByteBack(x: nat)
    requires x < 256
    ensures (x as bv8) as nat == x
  {
    assert x % 256 == x;
  }

  lemma HighAndBit1(b: bv8, y: nat)
    requires y < 32
    ensures ((b & 0xfc) | ((y as bv8) & 0x2)) as nat == (b as nat) / 4 * 4 + y / 2 % 2 * 2
  {
    NoOverlap(b, y as bv8);
    Or(b & 0xfc, (y as bv8) & 0x2);
    KeepHigh(b);
    KeepBit1(y);
  }

  lemma LowAndTop(b: bv8, y: nat)
    requires y < 8
    ensures ((b & 0x1f) | ((y as bv8) << 5)) as nat == (b as nat) % 32 + y * 32
  {
    NoOverlap(b, y as bv8);
    Or(b & 0x1f, (y as bv8) << 5);
    KeepLow(b);
    Up5(y);
  }
}
