/**
  The MPEG-2 CRC-32 of the PAT and PMT sections (hls.go:1225-1303).

  `Remainder` is the definition: the bits of the message, most significant first, are shifted one at a time into
  a 32-bit register that is reduced by the generator polynomial. `Crc32Create` is the source's table-driven loop.
 */
module Crc {
  const POLY: bv32 := 0x04C11DB7
  const INITIAL: bv32 := 0xFFFF_FFFF

  // ---------------------------------------------------------------- words

  function Xor(a: bv32, b: bv32): bv32 {
    a ^ b
  }

  function Shl(a: bv32): bv32 {
    a << 1
  }

  predicate Top(c: bv32) {
    c & 0x8000_0000 != 0
  }

  // ---------------------------------------------------------------- division, bit by bit

  function Reduce(top: bool): bv32 {
    if top then POLY else 0
  }

  /** One shift of the register, subtracting the polynomial when a one falls out. */
  function Shift1(c: bv32): bv32 {
    Xor(Shl(c), Reduce(Top(c)))
  }

  function TopWord(bit: bool): bv32 {
    if bit then 0x8000_0000 else 0
  }

  function BitStep(c: bv32, bit: bool): bv32 {
    Shift1(Xor(c, TopWord(bit)))
  }

  function DivideBits(c: bv32, bits: seq<bool>): bv32
    decreases bits
  {
    if bits == [] then c else DivideBits(BitStep(c, bits[0]), bits[1..])
  }

  /** The first n bits of a word, most significant first. */
  function TopBits(w: bv32, n: nat): (r: seq<bool>)
    ensures |r| == n
    decreases n
  {
    if n == 0 then [] else [Top(w)] + TopBits(Shl(w), n - 1)
  }

  function HighByte(b: bv8): bv32 {
    (b as bv32) << 24
  }

  function Bits(src: seq<bv8>): (r: seq<bool>)
    ensures |r| == 8 * |src|
  {
    if src == [] then [] else Bits(src[..|src| - 1]) + TopBits(HighByte(src[|src| - 1]), 8)
  }

  function Remainder(src: seq<bv8>): bv32 {
    DivideBits(INITIAL, Bits(src))
  }

  // ---------------------------------------------------------------- the table

  const ROW_0: seq<bv32> := [
    0x00000000, 0x04c11db7, 0x09823b6e, 0x0d4326d9,
    0x130476dc, 0x17c56b6b, 0x1a864db2, 0x1e475005,
    0x2608edb8, 0x22c9f00f, 0x2f8ad6d6, 0x2b4bcb61,
    0x350c9b64, 0x31cd86d3, 0x3c8ea00a, 0x384fbdbd]

  const ROW_1: seq<bv32> := [
    0x4c11db70, 0x48d0c6c7, 0x4593e01e, 0x4152fda9,
    0x5f15adac, 0x5bd4b01b, 0x569796c2, 0x52568b75,
    0x6a1936c8, 0x6ed82b7f, 0x639b0da6, 0x675a1011,
    0x791d4014, 0x7ddc5da3, 0x709f7b7a, 0x745e66cd]

  const ROW_2: seq<bv32> := [
    0x9823b6e0, 0x9ce2ab57, 0x91a18d8e, 0x95609039,
    0x8b27c03c, 0x8fe6dd8b, 0x82a5fb52, 0x8664e6e5,
    0xbe2b5b58, 0xbaea46ef, 0xb7a96036, 0xb3687d81,
    0xad2f2d84, 0xa9ee3033, 0xa4ad16ea, 0xa06c0b5d]

  const ROW_3: seq<bv32> := [
    0xd4326d90, 0xd0f37027, 0xddb056fe, 0xd9714b49,
    0xc7361b4c, 0xc3f706fb, 0xceb42022, 0xca753d95,
    0xf23a8028, 0xf6fb9d9f, 0xfbb8bb46, 0xff79a6f1,
    0xe13ef6f4, 0xe5ffeb43, 0xe8bccd9a, 0xec7dd02d]

  const ROW_4: seq<bv32> := [
    0x34867077, 0x30476dc0, 0x3d044b19, 0x39c556ae,
    0x278206ab, 0x23431b1c, 0x2e003dc5, 0x2ac12072,
    0x128e9dcf, 0x164f8078, 0x1b0ca6a1, 0x1fcdbb16,
    0x018aeb13, 0x054bf6a4, 0x0808d07d, 0x0cc9cdca]

  const ROW_5: seq<bv32> := [
    0x7897ab07, 0x7c56b6b0, 0x71159069, 0x75d48dde,
    0x6b93dddb, 0x6f52c06c, 0x6211e6b5, 0x66d0fb02,
    0x5e9f46bf, 0x5a5e5b08, 0x571d7dd1, 0x53dc6066,
    0x4d9b3063, 0x495a2dd4, 0x44190b0d, 0x40d816ba]

  const ROW_6: seq<bv32> := [
    0xaca5c697, 0xa864db20, 0xa527fdf9, 0xa1e6e04e,
    0xbfa1b04b, 0xbb60adfc, 0xb6238b25, 0xb2e29692,
    0x8aad2b2f, 0x8e6c3698, 0x832f1041, 0x87ee0df6,
    0x99a95df3, 0x9d684044, 0x902b669d, 0x94ea7b2a]

  const ROW_7: seq<bv32> := [
    0xe0b41de7, 0xe4750050, 0xe9362689, 0xedf73b3e,
    0xf3b06b3b, 0xf771768c, 0xfa325055, 0xfef34de2,
    0xc6bcf05f, 0xc27dede8, 0xcf3ecb31, 0xcbffd686,
    0xd5b88683, 0xd1799b34, 0xdc3abded, 0xd8fba05a]

  const ROW_8: seq<bv32> := [
    0x690ce0ee, 0x6dcdfd59, 0x608edb80, 0x644fc637,
    0x7a089632, 0x7ec98b85, 0x738aad5c, 0x774bb0eb,
    0x4f040d56, 0x4bc510e1, 0x46863638, 0x42472b8f,
    0x5c007b8a, 0x58c1663d, 0x558240e4, 0x51435d53]

  const ROW_9: seq<bv32> := [
    0x251d3b9e, 0x21dc2629, 0x2c9f00f0, 0x285e1d47,
    0x36194d42, 0x32d850f5, 0x3f9b762c, 0x3b5a6b9b,
    0x0315d626, 0x07d4cb91, 0x0a97ed48, 0x0e56f0ff,
    0x1011a0fa, 0x14d0bd4d, 0x19939b94, 0x1d528623]

  const ROW_A: seq<bv32> := [
    0xf12f560e, 0xf5ee4bb9, 0xf8ad6d60, 0xfc6c70d7,
    0xe22b20d2, 0xe6ea3d65, 0xeba91bbc, 0xef68060b,
    0xd727bbb6, 0xd3e6a601, 0xdea580d8, 0xda649d6f,
    0xc423cd6a, 0xc0e2d0dd, 0xcda1f604, 0xc960ebb3]

  const ROW_B: seq<bv32> := [
    0xbd3e8d7e, 0xb9ff90c9, 0xb4bcb610, 0xb07daba7,
    0xae3afba2, 0xaafbe615, 0xa7b8c0cc, 0xa379dd7b,
    0x9b3660c6, 0x9ff77d71, 0x92b45ba8, 0x9675461f,
    0x8832161a, 0x8cf30bad, 0x81b02d74, 0x857130c3]

  const ROW_C: seq<bv32> := [
    0x5d8a9099, 0x594b8d2e, 0x5408abf7, 0x50c9b640,
    0x4e8ee645, 0x4a4ffbf2, 0x470cdd2b, 0x43cdc09c,
    0x7b827d21, 0x7f436096, 0x7200464f, 0x76c15bf8,
    0x68860bfd, 0x6c47164a, 0x61043093, 0x65c52d24]

  const ROW_D: seq<bv32> := [
    0x119b4be9, 0x155a565e, 0x18197087, 0x1cd86d30,
    0x029f3d35, 0x065e2082, 0x0b1d065b, 0x0fdc1bec,
    0x3793a651, 0x3352bbe6, 0x3e119d3f, 0x3ad08088,
    0x2497d08d, 0x2056cd3a, 0x2d15ebe3, 0x29d4f654]

  const ROW_E: seq<bv32> := [
    0xc5a92679, 0xc1683bce, 0xcc2b1d17, 0xc8ea00a0,
    0xd6ad50a5, 0xd26c4d12, 0xdf2f6bcb, 0xdbee767c,
    0xe3a1cbc1, 0xe760d676, 0xea23f0af, 0xeee2ed18,
    0xf0a5bd1d, 0xf464a0aa, 0xf9278673, 0xfde69bc4]

  const ROW_F: seq<bv32> := [
    0x89b8fd09, 0x8d79e0be, 0x803ac667, 0x84fbdbd0,
    0x9abc8bd5, 0x9e7d9662, 0x933eb0bb, 0x97ffad0c,
    0xafb010b1, 0xab710d06, 0xa6322bdf, 0xa2f33668,
    0xbcb4666d, 0xb8757bda, 0xb5365d03, 0xb1f740b4]

  function CrcTable(j: bv8): bv32
  {
    var h, lo := j >> 4, (j & 0x0f) as int;
    if h == 0 then ROW_0[lo]
    else if h == 1 then ROW_1[lo]
    else if h == 2 then ROW_2[lo]
    else if h == 3 then ROW_3[lo]
    else if h == 4 then ROW_4[lo]
    else if h == 5 then ROW_5[lo]
    else if h == 6 then ROW_6[lo]
    else if h == 7 then ROW_7[lo]
    else if h == 8 then ROW_8[lo]
    else if h == 9 then ROW_9[lo]
    else if h == 10 then ROW_A[lo]
    else if h == 11 then ROW_B[lo]
    else if h == 12 then ROW_C[lo]
    else if h == 13 then ROW_D[lo]
    else if h == 14 then ROW_E[lo]
    else ROW_F[lo]
  }

  function Shift8(c: bv32): bv32 {
    Shift1(Shift1(Shift1(Shift1(Shift1(Shift1(Shift1(Shift1(c))))))))
  }

  lemma Row0(n: bv8)
    requires n < 16
    ensures ROW_0[n as int] == Shift8(((0x00 | n) as bv32) << 24)
  {
  }

  lemma Row1(n: bv8)
    requires n < 16
    ensures ROW_1[n as int] == Shift8(((0x10 | n) as bv32) << 24)
  {
  }

  lemma Row2(n: bv8)
    requires n < 16
    ensures ROW_2[n as int] == Shift8(((0x20 | n) as bv32) << 24)
  {
  }

  lemma Row3(n: bv8)
    requires n < 16
    ensures ROW_3[n as int] == Shift8(((0x30 | n) as bv32) << 24)
  {
  }

  lemma Row4(n: bv8)
    requires n < 16
    ensures ROW_4[n as int] == Shift8(((0x40 | n) as bv32) << 24)
  {
  }

  lemma Row5(n: bv8)
    requires n < 16
    ensures ROW_5[n as int] == Shift8(((0x50 | n) as bv32) << 24)
  {
  }

  lemma Row6(n: bv8)
    requires n < 16
    ensures ROW_6[n as int] == Shift8(((0x60 | n) as bv32) << 24)
  {
  }

  lemma Row7(n: bv8)
    requires n < 16
    ensures ROW_7[n as int] == Shift8(((0x70 | n) as bv32) << 24)
  {
  }

  lemma Row8(n: bv8)
    requires n < 16
    ensures ROW_8[n as int] == Shift8(((0x80 | n) as bv32) << 24)
  {
  }

  lemma Row9(n: bv8)
    requires n < 16
    ensures ROW_9[n as int] == Shift8(((0x90 | n) as bv32) << 24)
  {
  }

  lemma RowA(n: bv8)
    requires n < 16
    ensures ROW_A[n as int] == Shift8(((0xa0 | n) as bv32) << 24)
  {
  }

  lemma RowB(n: bv8)
    requires n < 16
    ensures ROW_B[n as int] == Shift8(((0xb0 | n) as bv32) << 24)
  {
  }

  lemma RowC(n: bv8)
    requires n < 16
    ensures ROW_C[n as int] == Shift8(((0xc0 | n) as bv32) << 24)
  {
  }

  lemma RowD(n: bv8)
    requires n < 16
    ensures ROW_D[n as int] == Shift8(((0xd0 | n) as bv32) << 24)
  {
  }

  lemma RowE(n: bv8)
    requires n < 16
    ensures ROW_E[n as int] == Shift8(((0xe0 | n) as bv32) << 24)
  {
  }

  lemma RowF(n: bv8)
    requires n < 16
    ensures ROW_F[n as int] == Shift8(((0xf0 | n) as bv32) << 24)
  {
  }

  lemma Nibbles(j: bv8)
    ensures j & 0x0f < 16 && j >> 4 < 16 && j == ((j >> 4) << 4) | (j & 0x0f)
  {
  }

  /** All 256 entries: entry j is what eight shifts of j in the top byte leave. */
  lemma TableEntry(j: bv8)
    ensures CrcTable(j) == Shift8((j as bv32) << 24)
  {
    hide Shift8;
    var n := j & 0x0f;
    Nibbles(j);
    match j >> 4
    case 0 => Row0(n);
    case 1 => Row1(n);
    case 2 => Row2(n);
    case 3 => Row3(n);
    case 4 => Row4(n);
    case 5 => Row5(n);
    case 6 => Row6(n);
    case 7 => Row7(n);
    case 8 => Row8(n);
    case 9 => Row9(n);
    case 10 => RowA(n);
    case 11 => RowB(n);
    case 12 => RowC(n);
    case 13 => RowD(n);
    case 14 => RowE(n);
    case _ => RowF(n);
  }

  // ---------------------------------------------------------------- the algebra of words
  // Each law of `^` and `<<` is proved on its own; the lemmas built from them hide the operators, so that they are
  // chained as equations and not as circuits.

  lemma XorAssoc(a: bv32, b: bv32, c: bv32)
    ensures Xor(Xor(a, b), c) == Xor(a, Xor(b, c))
  {
  }

  lemma XorComm(a: bv32, b: bv32)
    ensures Xor(a, b) == Xor(b, a)
  {
  }

  lemma XorSelf(a: bv32)
    ensures Xor(a, a) == 0 && Xor(a, 0) == a
  {
  }

  lemma XorTwice(a: bv32, b: bv32)
    ensures Xor(Xor(a, b), b) == a
  {
    XorAssoc(a, b, b);
    XorSelf(a);
    XorSelf(b);
    hide Xor;
  }

  lemma XorSwap(x: bv32, y: bv32, p: bv32, q: bv32)
    ensures Xor(Xor(x, y), Xor(p, q)) == Xor(Xor(x, p), Xor(y, q))
  {
    hide Xor;
    calc {
      Xor(Xor(x, y), Xor(p, q));
      { XorAssoc(x, y, Xor(p, q)); }
      Xor(x, Xor(y, Xor(p, q)));
      { XorAssoc(y, p, q); XorComm(y, p); XorAssoc(p, y, q); }
      Xor(x, Xor(p, Xor(y, q)));
      { XorAssoc(x, p, Xor(y, q)); }
      Xor(Xor(x, p), Xor(y, q));
    }
  }

  lemma ShlXor(a: bv32, b: bv32)
    ensures Shl(Xor(a, b)) == Xor(Shl(a), Shl(b))
  {
  }

  lemma TopXor(a: bv32, b: bv32)
    ensures Top(Xor(a, b)) == (Top(a) != Top(b))
  {
  }

  lemma ShiftLinear(a: bv32, b: bv32)
    ensures Shift1(Xor(a, b)) == Xor(Shift1(a), Shift1(b))
  {
    hide Xor, Shl, Top;
    ShlXor(a, b);
    TopXor(a, b);
    var p, q := Reduce(Top(a)), Reduce(Top(b));
    XorSwap(Shl(a), Shl(b), p, q);
    XorSelf(p);
    XorSelf(q);
    XorComm(p, q);
  }

  /** Undoes one shift: the polynomial has a one in its lowest place, so the lowest bit tells what fell out. */
  function Unshift1(c: bv32): bv32 {
    if c & 1 == 1 then ((c ^ POLY) >> 1) | 0x8000_0000 else c >> 1
  }

  lemma UnshiftTop(a: bv32)
    requires Top(a)
    ensures Shift1(a) == (a << 1) ^ POLY && Shift1(a) & 1 == 1
    ensures ((((a << 1) ^ POLY) ^ POLY) >> 1) | 0x8000_0000 == a
  {
  }

  lemma UnshiftZero(a: bv32)
    requires !Top(a)
    ensures Shift1(a) == a << 1 && Shift1(a) & 1 == 0
    ensures (a << 1) >> 1 == a
  {
  }

  lemma UnshiftShift(a: bv32)
    ensures Unshift1(Shift1(a)) == a
  {
    if Top(a) {
      UnshiftTop(a);
      hide Top, Shift1;
    } else {
      UnshiftZero(a);
      hide Top, Shift1;
    }
  }

  lemma ShiftInjective(a: bv32, b: bv32)
    requires Shift1(a) == Shift1(b)
    ensures a == b
  {
    UnshiftShift(a);
    UnshiftShift(b);
    hide Shift1, Unshift1;
  }

  // ---------------------------------------------------------------- a word at a time

  function ShiftN(c: bv32, n: nat): bv32
    decreases n
  {
    if n == 0 then c else ShiftN(Shift1(c), n - 1)
  }

  /** What is left of w when its first n bits are gone. */
  function Drop(w: bv32, n: nat): bv32
    decreases n
  {
    if n == 0 then w else Drop(Shl(w), n - 1)
  }

  lemma RestOfWord(w: bv32)
    ensures Shift1(Xor(w, TopWord(Top(w)))) == Shl(w)
  {
    hide Xor, Shl, Top;
    var t := TopWord(Top(w));
    TopXor(w, t);
    ShlXor(w, t);
    TopWordFacts();
    XorSelf(Shl(w));
  }

  lemma TopWordFacts()
    ensures Top(0x8000_0000) && !Top(0) && Shl(0x8000_0000) == 0 == Shl(0)
  {
  }

  /** Feeding the first bit of w is shifting with all of w mixed in, up to what remains of w. */
  lemma BitOfWord(c: bv32, w: bv32)
    ensures Shift1(Xor(c, w)) == Xor(BitStep(c, Top(w)), Shl(w))
  {
    hide Xor, Shl, Top, Shift1;
    var t := TopWord(Top(w));
    XorSwap(c, t, w, t);
    XorSelf(t);
    XorSelf(Xor(c, w));
    ShiftLinear(Xor(c, t), Xor(w, t));
    RestOfWord(w);
  }

  lemma {:induction false} BitsOfWord(c: bv32, w: bv32, n: nat)
    ensures ShiftN(Xor(c, w), n) == Xor(DivideBits(c, TopBits(w, n)), Drop(w, n))
    decreases n
  {
    hide Xor, Shl, Top, Shift1, BitStep;
    if n > 0 {
      BitOfWord(c, w);
      BitsOfWord(BitStep(c, Top(w)), Shl(w), n - 1);
      assert TopBits(w, n)[1..] == TopBits(Shl(w), n - 1);
    }
  }

  /** A whole 32-bit word is fed as if it had been mixed into the register at once. */
  lemma WordFed(c: bv32, w: bv32)
    ensures DivideBits(c, TopBits(w, 32)) == ShiftN(Xor(c, w), 32)
  {
    BitsOfWord(c, w, 32);
    Drop32(w);
    XorSelf(DivideBits(c, TopBits(w, 32)));
    hide *;
  }

  lemma Drop32(w: bv32)
    ensures Drop(w, 32) == 0
  {
    DropIs(w, 8);
    DropIs(Drop(w, 8), 8);
    DropIs(Drop(Drop(w, 8), 8), 8);
    DropIs(Drop(Drop(Drop(w, 8), 8), 8), 8);
    DropSum(w, 8, 24);
    DropSum(Drop(w, 8), 8, 16);
    DropSum(Drop(Drop(w, 8), 8), 8, 8);
    hide Drop;
  }

  lemma DropIs(w: bv32, n: nat)
    requires n == 8
    ensures Drop(w, n) == w << 8
  {
    assert Drop(w, 8) == Shl(Shl(Shl(Shl(Shl(Shl(Shl(Shl(w))))))));
  }

  lemma {:induction false} DropSum(w: bv32, m: nat, n: nat)
    ensures Drop(w, m + n) == Drop(Drop(w, m), n)
    decreases m
  {
    hide Shl;
    if m > 0 {
      DropSum(Shl(w), m - 1, n);
    }
  }

  /** A byte, likewise: the step of the table-driven loop. */
  lemma ByteFed(c: bv32, b: bv8)
    ensures DivideBits(c, TopBits(HighByte(b), 8)) == ShiftN(Xor(c, HighByte(b)), 8)
  {
    BitsOfWord(c, HighByte(b), 8);
    DropIs(HighByte(b), 8);
    assert HighByte(b) << 8 == 0;
    XorSelf(DivideBits(c, TopBits(HighByte(b), 8)));
    hide *;
  }

  // ---------------------------------------------------------------- the register over a whole message

  lemma {:induction false} DivideSum(c: bv32, a: seq<bool>, b: seq<bool>)
    ensures DivideBits(c, a + b) == DivideBits(DivideBits(c, a), b)
    decreases a
  {
    hide BitStep;
    if a == [] {
      assert a + b == b;
    } else {
      assert (a + b)[1..] == a[1..] + b;
      DivideSum(BitStep(c, a[0]), a[1..], b);
    }
  }

  /** Distinct registers stay distinct whatever follows. */
  lemma {:induction false} DivideInjective(a: bv32, b: bv32, bits: seq<bool>)
    requires a != b
    ensures DivideBits(a, bits) != DivideBits(b, bits)
    decreases bits
  {
    hide Xor, Shift1, TopWord;
    if bits != [] {
      if BitStep(a, bits[0]) == BitStep(b, bits[0]) {
        ShiftInjective(Xor(a, TopWord(bits[0])), Xor(b, TopWord(bits[0])));
        XorTwice(a, TopWord(bits[0]));
        XorTwice(b, TopWord(bits[0]));
      }
      DivideInjective(BitStep(a, bits[0]), BitStep(b, bits[0]), bits[1..]);
    }
  }

  lemma {:induction false} ShiftNInjective(a: bv32, b: bv32, n: nat)
    requires a != b
    ensures ShiftN(a, n) != ShiftN(b, n)
    decreases n
  {
    hide Shift1;
    if n > 0 {
      if Shift1(a) == Shift1(b) {
        ShiftInjective(a, b);
      }
      ShiftNInjective(Shift1(a), Shift1(b), n - 1);
    }
  }

  lemma {:induction false} ShiftNZero(n: nat)
    ensures ShiftN(0, n) == 0
    decreases n
  {
    if n > 0 {
      assert Shift1(0) == 0;
      ShiftNZero(n - 1);
    }
  }

  lemma XorDistinct(c: bv32, a: bv32, b: bv32)
    requires a != b
    ensures Xor(c, a) != Xor(c, b)
  {
    XorComm(c, a);
    XorComm(c, b);
    XorTwice(a, c);
    XorTwice(b, c);
    hide Xor;
  }

  /** An error burst: any two messages that differ, but only inside one 32-bit window, have different remainders. */
  lemma BurstDetected(pre: seq<bool>, w: bv32, v: bv32, post: seq<bool>)
    requires w != v
    ensures DivideBits(INITIAL, pre + TopBits(w, 32) + post) != DivideBits(INITIAL, pre + TopBits(v, 32) + post)
  {
    hide Xor, Shl, Top, TopBits, DivideBits, ShiftN;
    var c := DivideBits(INITIAL, pre);
    DivideSum(INITIAL, pre, TopBits(w, 32));
    DivideSum(INITIAL, pre, TopBits(v, 32));
    DivideSum(INITIAL, pre + TopBits(w, 32), post);
    DivideSum(INITIAL, pre + TopBits(v, 32), post);
    WordFed(c, w);
    WordFed(c, v);
    XorDistinct(c, w, v);
    ShiftNInjective(Xor(c, w), Xor(c, v), 32);
    DivideInjective(DivideBits(c, TopBits(w, 32)), DivideBits(c, TopBits(v, 32)), post);
  }

  lemma {:induction false} BitsSum(a: seq<bv8>, b: seq<bv8>)
    ensures Bits(a + b) == Bits(a) + Bits(b)
    decreases b
  {
    hide TopBits, HighByte;
    if b == [] {
      assert a + b == a;
    } else {
      var m := |b| - 1;
      assert (a + b)[..|a + b| - 1] == a + b[..m];
      BitsSum(a, b[..m]);
    }
  }

  lemma HighByteDistinct(a: bv8, b: bv8)
    requires a != b
    ensures HighByte(a) != HighByte(b)
  {
    assert ((a as bv32) << 24) >> 24 == a as bv32;
    assert ((b as bv32) << 24) >> 24 == b as bv32;
  }

  /** Two strings of one length that differ in exactly one byte never have the same CRC. */
  lemma ByteErrorDetected(s: seq<bv8>, t: seq<bv8>, i: nat)
    requires i < |s| == |t| && s[i] != t[i]
    requires forall k :: 0 <= k < |s| && k != i ==> s[k] == t[k]
    ensures Remainder(s) != Remainder(t)
  {
    hide Xor, TopBits, DivideBits, ShiftN, HighByte, Bits;
    var pre, post := s[..i], s[i + 1..];
    assert s == pre + [s[i]] + post && t == pre + [t[i]] + post;
    var c := DivideBits(INITIAL, Bits(pre));
    RemainderAround(pre, s[i], post);
    RemainderAround(pre, t[i], post);
    HighByteDistinct(s[i], t[i]);
    XorDistinct(c, HighByte(s[i]), HighByte(t[i]));
    ShiftNInjective(Xor(c, HighByte(s[i])), Xor(c, HighByte(t[i])), 8);
    DivideInjective(ShiftN(Xor(c, HighByte(s[i])), 8), ShiftN(Xor(c, HighByte(t[i])), 8), Bits(post));
  }

  lemma RemainderAround(pre: seq<bv8>, b: bv8, post: seq<bv8>)
    ensures Remainder(pre + [b] + post) ==
      DivideBits(ShiftN(Xor(DivideBits(INITIAL, Bits(pre)), HighByte(b)), 8), Bits(post))
  {
    RemainderSnoc(pre, b);
    BitsSum(pre + [b], post);
    DivideSum(INITIAL, Bits(pre + [b]), Bits(post));
    hide Bits, DivideBits, ShiftN, Xor, HighByte;
  }

  lemma RemainderSnoc(src: seq<bv8>, b: bv8)
    ensures Remainder(src + [b]) == ShiftN(Xor(Remainder(src), HighByte(b)), 8)
  {
    hide Xor, TopBits, DivideBits, ShiftN, HighByte;
    assert (src + [b])[..|src|] == src;
    DivideSum(INITIAL, Bits(src), TopBits(HighByte(b), 8));
    ByteFed(Remainder(src), b);
  }

  // ---------------------------------------------------------------- Crc32Create

  function Shl8(c: bv32): bv32 {
    c << 8
  }

  /** The source's table index: the register's top byte combined with the message byte. */
  function Index(c: bv32, b: bv8): bv8 {
    TopByte(c) ^ b
  }

  function TopByte(c: bv32): bv8 {
    (c >> 24) as bv8
  }

  function TableStep(c: bv32, b: bv8): bv32 {
    Xor(Shl8(c), CrcTable(Index(c, b)))
  }

  function Low(c: bv32): bv32 {
    c & 0x00ff_ffff
  }

  lemma SplitRegister(c: bv32, b: bv8)
    ensures Xor(c, HighByte(b)) == Xor(HighByte(Index(c, b)), Low(c))
  {
    hide Xor, HighByte, Low, TopByte;
    var h, l, m := HighByte(TopByte(c)), Low(c), HighByte(b);
    TopAndLow(c);
    HighXor(TopByte(c), b);
    XorAssoc(h, l, m);
    XorComm(l, m);
    XorAssoc(h, m, l);
  }

  lemma TopAndLow(c: bv32)
    ensures c == Xor(HighByte(TopByte(c)), Low(c))
  {
  }

  lemma HighXor(p: bv8, b: bv8)
    ensures HighByte(p ^ b) == Xor(HighByte(p), HighByte(b))
  {
  }

  lemma {:induction false} ShiftNLinear(a: bv32, b: bv32, n: nat)
    ensures ShiftN(Xor(a, b), n) == Xor(ShiftN(a, n), ShiftN(b, n))
    decreases n
  {
    hide Xor, Shift1;
    if n > 0 {
      ShiftLinear(a, b);
      ShiftNLinear(Shift1(a), Shift1(b), n - 1);
    }
  }

  function And(x: bv32, m: bv32): bv32 {
    x & m
  }

  const TOP_BYTE: bv32 := 0xff00_0000

  lemma AgreeStep(x: bv32, y: bv32, m: bv32)
    requires Top(m) && And(x, m) == And(y, m)
    ensures Top(x) == Top(y) && And(Shl(x), Shl(m)) == And(Shl(y), Shl(m))
  {
    TopAnd(x, m);
    TopAnd(y, m);
    ShlAnd(x, m);
    ShlAnd(y, m);
    hide And, Shl, Top;
  }

  lemma TopAnd(x: bv32, m: bv32)
    requires Top(m)
    ensures Top(And(x, m)) == Top(x)
  {
  }

  lemma ShlAnd(x: bv32, m: bv32)
    ensures Shl(And(x, m)) == And(Shl(x), Shl(m))
  {
  }

  function Ones(n: nat): (r: seq<bool>)
    ensures |r| == n
    decreases n
  {
    if n == 0 then [] else [true] + Ones(n - 1)
  }

  /** Words that agree under a mask agree in the bits the mask starts with. */
  lemma {:induction false} MaskedBits(x: bv32, y: bv32, m: bv32, n: nat)
    requires And(x, m) == And(y, m)
    requires TopBits(m, n) == Ones(n)
    ensures TopBits(x, n) == TopBits(y, n)
    decreases n
  {
    hide Top, Shl, And;
    if n > 0 {
      assert TopBits(m, n)[0] && TopBits(m, n)[1..] == TopBits(Shl(m), n - 1);
      assert Ones(n)[0] && Ones(n)[1..] == Ones(n - 1);
      AgreeStep(x, y, m);
      MaskedBits(Shl(x), Shl(y), Shl(m), n - 1);
    }
  }

  lemma SameTopByte(x: bv32, y: bv32)
    requires And(x, TOP_BYTE) == And(y, TOP_BYTE)
    ensures TopBits(x, 8) == TopBits(y, 8)
  {
    assert TopBits(TOP_BYTE, 8) == Ones(8);
    hide TopBits, And;
    MaskedBits(x, y, TOP_BYTE, 8);
  }

  /** A register with nothing in its top byte is only moved by eight shifts. */
  lemma ShiftLow(c: bv32)
    ensures ShiftN(Low(c), 8) == Shl8(c)
  {
    hide Low, ShiftN, Drop, DivideBits, TopBits, Xor, Shl8, And;
    LowFacts(c);
    SameTopByte(Low(c), 0);
    BitsOfWord(0, Low(c), 8);
    BitsOfWord(0, 0, 8);
    ShiftNZero(8);
    var x := DivideBits(0, TopBits(0, 8));
    XorSelf(x);
    XorSelf(0);
    XorComm(0, Low(c));
    XorSelf(Low(c));
    XorComm(0, Shl8(c));
    XorSelf(Shl8(c));
  }

  lemma LowFacts(c: bv32)
    ensures And(Low(c), TOP_BYTE) == And(0, TOP_BYTE) && Drop(Low(c), 8) == Shl8(c) && Drop(0, 8) == 0
  {
    DropIs(Low(c), 8);
    DropIs(0, 8);
    assert (c & 0x00ff_ffff) << 8 == c << 8;
  }

  lemma StepIsDivision(c: bv32, b: bv8)
    ensures TableStep(c, b) == ShiftN(Xor(c, HighByte(b)), 8)
  {
    hide Shift1, HighByte, CrcTable, Xor, Index, Low, Shl8;
    var j := Index(c, b);
    SplitRegister(c, b);
    ShiftNLinear(HighByte(j), Low(c), 8);
    ShiftLow(c);
    EntryShifted(j);
    XorComm(CrcTable(j), Shl8(c));
  }

  lemma EntryShifted(j: bv8)
    ensures ShiftN(HighByte(j), 8) == CrcTable(j)
  {
    hide Shift1, CrcTable;
    TableEntry(j);
    assert ShiftN(HighByte(j), 8) == Shift8(HighByte(j));
  }

  /** The table-driven loop computes the remainder of the bit-by-bit division, for every byte string. */
  method Crc32Create(src: seq<bv8>) returns (crc32: bv32)
    ensures crc32 == Remainder(src)
  {
    hide DivideBits, Bits, TableStep, ShiftN, Xor, HighByte;
    crc32 := INITIAL;
    assert Remainder([]) == INITIAL by {
      EmptyRemainder();
    }
    for i := 0 to |src|
      invariant crc32 == Remainder(src[..i])
    {
      assert src[..i + 1] == src[..i] + [src[i]];
      RemainderSnoc(src[..i], src[i]);
      StepIsDivision(crc32, src[i]);
      crc32 := TableStep(crc32, src[i]);
    }
    assert src[..|src|] == src;
  }

  lemma EmptyRemainder()
    ensures Remainder([]) == INITIAL
  {
  }

  /** The digits 1 to 9 in ASCII. */
  const DIGITS: seq<bv8> := [0x31, 0x32, 0x33, 0x34, 0x35, 0x36, 0x37, 0x38, 0x39]

  lemma Fed(src: seq<bv8>, b: bv8, c: bv32, d: bv32)
    requires Remainder(src) == c && Shift8(c ^ ((b as bv32) << 24)) == d
    ensures Remainder(src + [b]) == d
  {
    RemainderSnoc(src, b);
    hide Remainder, Shift1;
    assert ShiftN(Xor(c, HighByte(b)), 8) == Shift8(c ^ ((b as bv32) << 24));
  }

  /** The value by which this CRC is told from others of 32 bits: initial value, polynomial and bit order decide it. */
  lemma CheckValue()
    ensures Remainder(DIGITS) == 0x0376_e6e7
  {
    hide Remainder;
    assert DIGITS[..0] == [];
    EmptyRemainder();
    Fed(DIGITS[..0], 0x31, 0xffff_ffff, 0x9efb_cf93);
    assert DIGITS[..1] == DIGITS[..0] + [0x31];
    Fed(DIGITS[..1], 0x32, 0x9efb_cf93, 0x3fec_5e6a);
    assert DIGITS[..2] == DIGITS[..1] + [0x32];
    Fed(DIGITS[..2], 0x33, 0x3fec_5e6a, 0xd952_f164);
    assert DIGITS[..3] == DIGITS[..2] + [0x33];
    Fed(DIGITS[..3], 0x34, 0xd952_f164, 0xa695_c4aa);
    assert DIGITS[..4] == DIGITS[..3] + [0x34];
    Fed(DIGITS[..4], 0x35, 0xa695_c4aa, 0xbd9a_b747);
    assert DIGITS[..5] == DIGITS[..4] + [0x35];
    Fed(DIGITS[..5], 0x36, 0xbd9a_b747, 0xd8f0_6c8f);
    assert DIGITS[..6] == DIGITS[..5] + [0x36];
    Fed(DIGITS[..6], 0x37, 0xd8f0_6c8f, 0x0d8a_14c4);
    assert DIGITS[..7] == DIGITS[..6] + [0x37];
    Fed(DIGITS[..7], 0x38, 0x0d8a_14c4, 0x49e3_c2fb);
    assert DIGITS[..8] == DIGITS[..7] + [0x38];
    Fed(DIGITS[..8], 0x39, 0x49e3_c2fb, 0x0376_e6e7);
    assert DIGITS[..9] == DIGITS[..8] + [0x39];
    assert DIGITS[..9] == DIGITS;
  }

  // ---------------------------------------------------------------- the CRC as a check

  function BigEndian(c: bv32): (r: seq<bv8>)
    ensures |r| == 4
  {
    [((c >> 24) & 0xff) as bv8, ((c >> 16) & 0xff) as bv8, ((c >> 8) & 0xff) as bv8, (c & 0xff) as bv8]
  }

  function Word(t: seq<bv8>): bv32
    requires |t| == 4
  {
    Pack(t[0], t[1], t[2], t[3])
  }

  lemma {:induction false} TopBitsSum(w: bv32, m: nat, n: nat)
    ensures TopBits(w, m + n) == TopBits(w, m) + TopBits(Drop(w, m), n)
    decreases m
  {
    hide Top, Shl;
    if m > 0 {
      TopBitsSum(Shl(w), m - 1, n);
    }
  }

  /** The bits of four bytes are the bits of the word they make. */
  lemma BitsOfWordBytes(t: seq<bv8>)
    requires |t| == 4
    ensures Bits(t) == TopBits(Word(t), 32)
  {
    hide TopBits, HighByte, Drop, Word, And, Shl8;
    var w := Word(t);
    WordBytes(t);
    Drop8(w);
    Drop8(Shl8(w));
    Drop8(Shl8(Shl8(w)));
    TopBitsSum(w, 8, 24);
    TopBitsSum(Shl8(w), 8, 16);
    TopBitsSum(Shl8(Shl8(w)), 8, 8);
    SameTopByte(w, HighByte(t[0]));
    SameTopByte(Shl8(w), HighByte(t[1]));
    SameTopByte(Shl8(Shl8(w)), HighByte(t[2]));
    SameTopByte(Shl8(Shl8(Shl8(w))), HighByte(t[3]));
    FourBytes(t);
  }

  lemma Drop8(w: bv32)
    ensures Drop(w, 8) == Shl8(w)
  {
    DropIs(w, 8);
  }

  lemma FourBytes(t: seq<bv8>)
    requires |t| == 4
    ensures Bits(t) == TopBits(HighByte(t[0]), 8) + (TopBits(HighByte(t[1]), 8) +
      (TopBits(HighByte(t[2]), 8) + TopBits(HighByte(t[3]), 8)))
  {
    hide TopBits, HighByte, Bits;
    assert t == [t[0]] + ([t[1]] + ([t[2]] + [t[3]]));
    BitsSum([t[0]], [t[1]] + ([t[2]] + [t[3]]));
    BitsSum([t[1]], [t[2]] + [t[3]]);
    BitsSum([t[2]], [t[3]]);
    OneByte(t[0]);
    OneByte(t[1]);
    OneByte(t[2]);
    OneByte(t[3]);
  }

  lemma OneByte(b: bv8)
    ensures Bits([b]) == TopBits(HighByte(b), 8)
  {
    hide TopBits, HighByte;
    assert [b][..0] == [];
    assert Bits([]) == [];
  }

  lemma WordBytes(t: seq<bv8>)
    requires |t| == 4
    ensures And(Word(t), TOP_BYTE) == And(HighByte(t[0]), TOP_BYTE)
    ensures And(Shl8(Word(t)), TOP_BYTE) == And(HighByte(t[1]), TOP_BYTE)
    ensures And(Shl8(Shl8(Word(t))), TOP_BYTE) == And(HighByte(t[2]), TOP_BYTE)
    ensures And(Shl8(Shl8(Shl8(Word(t)))), TOP_BYTE) == And(HighByte(t[3]), TOP_BYTE)
  {
    PackTop(t[0], t[1], t[2], t[3]);
    hide Pack;
  }

  function Pack(x0: bv8, x1: bv8, x2: bv8, x3: bv8): bv32 {
    ((x0 as bv32) << 24) | ((x1 as bv32) << 16) | ((x2 as bv32) << 8) | (x3 as bv32)
  }

  lemma PackTop(x0: bv8, x1: bv8, x2: bv8, x3: bv8)
    ensures Pack(x0, x1, x2, x3) & TOP_BYTE == ((x0 as bv32) << 24) & TOP_BYTE
    ensures (Pack(x0, x1, x2, x3) << 8) & TOP_BYTE == ((x1 as bv32) << 24) & TOP_BYTE
    ensures ((Pack(x0, x1, x2, x3) << 8) << 8) & TOP_BYTE == ((x2 as bv32) << 24) & TOP_BYTE
    ensures (((Pack(x0, x1, x2, x3) << 8) << 8) << 8) & TOP_BYTE == ((x3 as bv32) << 24) & TOP_BYTE
  {
  }

  /**
    A section carries the right CRC exactly when the check over the whole of it comes out zero: appending the
    big-endian remainder always passes, and no other four bytes do.
   */
  lemma CheckAccepts(src: seq<bv8>, t: seq<bv8>)
    requires |t| == 4
    ensures Remainder(src + t) == 0 <==> t == BigEndian(Remainder(src))
  {
    hide Bits, TopBits, DivideBits, ShiftN, Xor, Word, BigEndian;
    var c, w := Remainder(src), Word(t);
    BitsSum(src, t);
    DivideSum(INITIAL, Bits(src), Bits(t));
    BitsOfWordBytes(t);
    WordFed(c, w);
    ShiftNZero(32);
    WordBack(t);
    BigEndianBack(c);
    if w == c {
      XorSelf(c);
    } else {
      XorSelf(c);
      XorDistinct(c, c, w);
      ShiftNInjective(Xor(c, w), 0, 32);
    }
  }

  lemma WordBack(t: seq<bv8>)
    requires |t| == 4
    ensures BigEndian(Word(t)) == t
  {
    PackBack(t[0], t[1], t[2], t[3]);
    hide Pack;
  }

  lemma PackBack(x0: bv8, x1: bv8, x2: bv8, x3: bv8)
    ensures ((Pack(x0, x1, x2, x3) >> 24) & 0xff) as bv8 == x0
    ensures ((Pack(x0, x1, x2, x3) >> 16) & 0xff) as bv8 == x1
    ensures ((Pack(x0, x1, x2, x3) >> 8) & 0xff) as bv8 == x2
    ensures (Pack(x0, x1, x2, x3) & 0xff) as bv8 == x3
  {
  }

  lemma BigEndianBack(c: bv32)
    ensures Word(BigEndian(c)) == c
  {
  }
}
