/** Bit fields of a number, as shifts and masks pick them out. */
module Bits {
  import opened Bytes

  /** `(x >> k) & (2^w - 1)`, for unit = 2^k and size = 2^w. */
  function Field(x: nat, unit: nat, size: nat): (f: nat)
    requires unit >= 1 && size >= 1
    ensures f < size
  {
    x / unit % size
  }

  lemma DivTwice(x: nat, p: nat, k: nat)
    requires p >= 1 && k >= 1
    ensures p * k >= 1 && x / (p * k) == x / p / k && x % (p * k) == x / p % k * p + x % p
  {
    var q, r := x / p, x % p;
    var v, mid := q / k, q % k;
    MulMono(p, 1, k);
    MulMono(p, mid + 1, k);
    Regroup(p, k, v, mid);
    ModUnique(x, p * k, v, p * mid + r);
  }

  lemma Regroup(p: nat, k: nat, v: nat, m: nat)
    ensures p * (k * v + m) == p * k * v + p * m && p * (m + 1) == p * m + p
  {
  }

  /** A field of k * m values is one of m values beside one of k. */
  lemma Split(x: nat, unit: nat, k: nat, m: nat)
    requires unit >= 1 && k >= 1 && m >= 1
    ensures k * m >= 1 && unit * k >= 1
    ensures Field(x, unit, k * m) == Field(x, unit * k, m) * k + Field(x, unit, k)
  {
    MulMono(k, 1, m);
    MulMono(unit, 1, k);
    DivTwice(x, unit, k);
    DivTwice(x / unit, k, m);
  }

  /** What is put in at a place comes out of that place. */
  lemma Place(high: nat, field: nat, low: nat, unit: nat, size: nat)
    requires low < unit && field < size
    ensures Field((high * size + field) * unit + low, unit, size) == field
  {
    ModUnique((high * size + field) * unit + low, unit, high * size + field, low);
    ModUnique(high * size + field, size, high, field);
  }

  lemma Fits(x: nat, size: nat)
    requires x < size
    ensures Field(x, 1, size) == x
  {
    ModUnique(x, size, 0, x);
  }

  /** A field of a field. */
  lemma Inner(x: nat, unit: nat, k: nat, m: nat)
    requires unit >= 1 && k >= 1 && m >= 1
    ensures k * m >= 1 && unit * k >= 1
    ensures Field(Field(x, unit, k * m), k, m) == Field(x, unit * k, m)
    ensures Field(Field(x, unit, k * m), 1, k) == Field(x, unit, k)
  {
    Split(x, unit, k, m);
    var mid, low := Field(x, unit * k, m), Field(x, unit, k);
    Place(0, mid, low, k, m);
    assert (0 * m + mid) * k + low == mid * k + low;
    ModUnique(mid * k + low, k, mid, low);
  }
}
