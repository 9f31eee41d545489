/**
 * Unsigned numbers as bit strings, least significant bit first. The 32-bit
 * buffer word, the bytes of kernel memory and the values stored into
 * bit-fields are related through these two conversions.
 */
module Bits {

  function Pow2(n: nat): (p: nat)
    ensures p >= 1
  {
    if n == 0 then 1 else 2 * Pow2(n - 1)
  }

  /** The `n` low bits of `v`. */
  function ToBits(v: nat, n: nat): (bits: seq<bool>)
    ensures |bits| == n
  {
    if n == 0 then [] else [v % 2 == 1] + ToBits(v / 2, n - 1)
  }

  /** The number a bit string denotes; it is below two to the string's length. */
  function FromBits(bits: seq<bool>): (v: nat)
    ensures v < Pow2(|bits|)
  {
    if bits == [] then 0 else (if bits[0] then 1 else 0) + 2 * FromBits(bits[1..])
  }

  /** The step of the division algorithm that peels off the lowest bit. */
  lemma ModDoublePow(v: nat, p: nat)
    requires p >= 1
    ensures v % (2 * p) == v % 2 + 2 * ((v / 2) % p)
  {
    var q, r := v / 2, v % 2;
    var k, m := q / p, q % p;
    assert v == 2 * p * k + (2 * m + r) by {
      assert q == p * k + m;
      assert v == 2 * q + r;
    }
    assert 0 <= 2 * m + r < 2 * p;
    DivModUnique(v, 2 * p, k, 2 * m + r);
  }

  lemma DivModUnique(v: nat, d: nat, k: nat, m: nat)
    requires d >= 1 && m < d && v == d * k + m
    ensures v % d == m
  {
    var k' := v / d;
    assert d * k + m == d * k' + v % d;
    if k < k' {
      MulMonotone(d, k + 1, k');
      assert false;
    } else if k' < k {
      MulMonotone(d, k' + 1, k);
      assert false;
    }
  }

  lemma MulMonotone(d: nat, a: nat, b: nat)
    requires a <= b
    ensures d * a <= d * b
  {
  }

  lemma ModOfSmaller(v: nat, d: nat)
    requires v < d
    ensures v % d == v
  {
    DivModUnique(v, d, 0, v);
  }

  /** The number the `n` low bits of `v` denote. */
  function LowBits(v: nat, n: nat): nat {
    if n == 0 then 0 else v % 2 + 2 * LowBits(v / 2, n - 1)
  }

  /** The low `n` bits of `v` are `v` modulo two to the `n`. */
  lemma {:induction false} LowBitsIsMod(v: nat, n: nat)
    ensures LowBits(v, n) == v % Pow2(n)
  {
    if n > 0 {
      LowBitsIsMod(v / 2, n - 1);
      ModDoublePow(v, Pow2(n - 1));
    }
  }

  /** A number that fits in `n` bits is its own low `n` bits. */
  lemma LowBitsOfSmaller(v: nat, n: nat)
    requires v < Pow2(n)
    ensures LowBits(v, n) == v
  {
    LowBitsIsMod(v, n);
    ModOfSmaller(v, Pow2(n));
  }

  /** Reading back the bits of a number gives its low bits. */
  lemma {:induction false} FromToBits(v: nat, n: nat)
    ensures FromBits(ToBits(v, n)) == LowBits(v, n)
  {
    if n > 0 {
      FromToBits(v / 2, n - 1);
      assert ToBits(v, n)[1..] == ToBits(v / 2, n - 1);
    }
  }

  /** Writing out the number a bit string denotes gives the string back. */
  lemma {:induction false} ToFromBits(bits: seq<bool>)
    ensures ToBits(FromBits(bits), |bits|) == bits
  {
    if bits != [] {
      ToFromBits(bits[1..]);
      var v := FromBits(bits);
      assert v / 2 == FromBits(bits[1..]);
      assert (v % 2 == 1) == bits[0];
      assert bits == [bits[0]] + bits[1..];
    }
  }
}
