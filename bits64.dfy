/**
 * Go's fixed-width integers used by the synthetic key: `uint64`, `int64`,
 * the conversions between them, and `math/bits.Reverse64`.
 *
 * A `uint64` is a natural number below 2^64; its bits are read as a sequence
 * of 64 booleans, least significant bit first.
 */
module Bits64 {

  const TWO_63: int := 0x8000_0000_0000_0000
  const TWO_64: int := 0x1_0000_0000_0000_0000

  /** Go `uint64`. */
  type Uint64 = x: int | 0 <= x < TWO_64

  /** Go `int64`. */
  type Int64 = x: int | -TWO_63 <= x < TWO_63

  const MIN_INT64: Int64 := -TWO_63
  const MAX_INT64: Int64 := TWO_63 - 1

  function Pow2(k: nat): (p: nat)
    ensures p > 0
  {
    if k == 0 then 1 else 2 * Pow2(k - 1)
  }

  lemma {:induction false} Pow2Add(a: nat, b: nat)
    ensures Pow2(a + b) == Pow2(a) * Pow2(b)
  {
    if a > 0 {
      Pow2Add(a - 1, b);
    }
  }

  lemma Pow2Values()
    ensures Pow2(63) == TWO_63 && Pow2(64) == TWO_64
  {
    assert Pow2(8) == 256;
    Pow2Add(8, 8);
    assert Pow2(16) == 0x1_0000;
    Pow2Add(16, 16);
    assert Pow2(32) == 0x1_0000_0000;
    Pow2Add(32, 32);
    assert Pow2(64) == TWO_64;
    assert Pow2(64) == 2 * Pow2(63);
  }

  /** The low `k` bits of `n`, least significant first. */
  function ToBits(n: nat, k: nat): (bs: seq<bool>)
    ensures |bs| == k
  {
    if k == 0 then [] else [n % 2 == 1] + ToBits(n / 2, k - 1)
  }

  /** The number whose bits, least significant first, are `bs`. */
  function FromBits(bs: seq<bool>): nat {
    if bs == [] then 0 else (if bs[0] then 1 else 0) + 2 * FromBits(bs[1..])
  }

  lemma {:induction false} FromBitsBound(bs: seq<bool>)
    ensures FromBits(bs) < Pow2(|bs|)
  {
    if bs != [] {
      FromBitsBound(bs[1..]);
    }
  }

  /** Reading the low `k` bits back gives the number, when it fits in `k` bits. */
  lemma {:induction false} FromToBits(n: nat, k: nat)
    requires n < Pow2(k)
    ensures FromBits(ToBits(n, k)) == n
  {
    if k > 0 {
      var bs := ToBits(n, k);
      assert bs[1..] == ToBits(n / 2, k - 1);
      FromToBits(n / 2, k - 1);
    }
  }

  /** Writing a bit sequence as a number and taking its bits gives the sequence back. */
  lemma {:induction false} ToFromBits(bs: seq<bool>)
    ensures ToBits(FromBits(bs), |bs|) == bs
  {
    if bs != [] {
      var m := FromBits(bs);
      var rest := FromBits(bs[1..]);
      assert m % 2 == (if bs[0] then 1 else 0) && m / 2 == rest;
      ToFromBits(bs[1..]);
      assert ToBits(m, |bs|) == [bs[0]] + bs[1..];
    }
  }

  function Reversed(bs: seq<bool>): (r: seq<bool>)
    ensures |r| == |bs|
  {
    seq(|bs|, i requires 0 <= i < |bs| => bs[|bs| - 1 - i])
  }

  /** The number whose bits are `bs` reversed fits in |bs| bits and has exactly those bits. */
  lemma ReversedBits(bs: seq<bool>)
    ensures FromBits(Reversed(bs)) < Pow2(|bs|)
    ensures forall i :: 0 <= i < |bs| ==> ToBits(FromBits(Reversed(bs)), |bs|)[i] == bs[|bs| - 1 - i]
  {
    var rev := Reversed(bs);
    FromBitsBound(rev);
    ToFromBits(rev);
    var t := ToBits(FromBits(rev), |bs|);
    assert t == rev;
    forall i | 0 <= i < |bs| ensures t[i] == bs[|bs| - 1 - i] {
      assert rev[i] == bs[|bs| - 1 - i];
    }
  }

  /**
   * `bits.Reverse64`: bit i of the result is bit 63 - i of the argument.
   */
  function Reverse64(x: Uint64): (r: Uint64)
    ensures forall i :: 0 <= i < 64 ==> ToBits(r, 64)[i] == ToBits(x, 64)[63 - i]
  {
    ReversedBits(ToBits(x, 64));
    Pow2Values();
    FromBits(Reversed(ToBits(x, 64)))
  }

  /** Reversal is its own inverse, hence a bijection on the 64-bit space. */
  lemma Reverse64Involution(x: Uint64)
    ensures Reverse64(Reverse64(x)) == x
  {
    var r := Reverse64(x);
    forall i | 0 <= i < 64 ensures ToBits(Reverse64(r), 64)[i] == ToBits(x, 64)[i] {
      assert ToBits(Reverse64(r), 64)[i] == ToBits(r, 64)[63 - i];
    }
    Pow2Values();
    ToBitsInjective(Reverse64(r), x, 64);
  }

  /** Two numbers below 2^k with the same k bits are equal. */
  lemma ToBitsInjective(a: nat, b: nat, k: nat)
    requires a < Pow2(k) && b < Pow2(k)
    requires forall i :: 0 <= i < k ==> ToBits(a, k)[i] == ToBits(b, k)[i]
    ensures a == b
  {
    assert ToBits(a, k) == ToBits(b, k);
    FromToBits(a, k);
    FromToBits(b, k);
  }

  lemma Reverse64Injective(x: Uint64, y: Uint64)
    requires Reverse64(x) == Reverse64(y)
    ensures x == y
  {
    Reverse64Involution(x);
    Reverse64Involution(y);
  }

  lemma {:induction false} ZeroBits(k: nat)
    ensures ToBits(0, k) == seq(k, _ => false)
  {
    if k > 0 {
      ZeroBits(k - 1);
    }
  }

  lemma {:induction false} FromBitsHighBit(m: nat)
    ensures FromBits(seq(m, _ => false) + [true]) == Pow2(m)
  {
    if m > 0 {
      var bs := seq(m, _ => false) + [true];
      assert bs[1..] == seq(m - 1, _ => false) + [true];
      FromBitsHighBit(m - 1);
    }
  }

  lemma {:induction false} FromBitsZero(m: nat)
    ensures FromBits(seq(m, _ => false)) == 0
  {
    if m > 0 {
      assert seq(m, _ => false)[1..] == seq(m - 1, _ => false);
      FromBitsZero(m - 1);
    }
  }

  /** Reversing 0 gives 0. */
  lemma Reverse64Zero()
    ensures Reverse64(0) == 0
  {
    ZeroBits(64);
    assert Reversed(seq(64, _ => false)) == seq(64, _ => false);
    FromBitsZero(64);
  }

  /** Reversing 1 moves bit 0 to bit 63. */
  lemma Reverse64One()
    ensures Reverse64(1) == TWO_63
  {
    ZeroBits(63);
    assert ToBits(1, 64) == [true] + seq(63, _ => false);
    assert Reversed(ToBits(1, 64)) == seq(63, _ => false) + [true];
    FromBitsHighBit(63);
    Pow2Values();
  }

  /** The top one of `k` bits is set exactly when the number reaches 2^(k-1). */
  lemma {:induction false} TopBit(n: nat, k: nat)
    requires 0 < k && n < Pow2(k)
    ensures ToBits(n, k)[k - 1] <==> n >= Pow2(k - 1)
  {
    if k > 1 {
      assert ToBits(n, k)[k - 1] == ToBits(n / 2, k - 1)[k - 2];
      TopBit(n / 2, k - 1);
    }
  }

  /** Go `int64(u)` for a `uint64` u: the same 64 bits read in two's complement. */
  function AsSigned(u: Uint64): (s: Int64)
    ensures (s - u) % TWO_64 == 0
    ensures s < 0 <==> u >= TWO_63
  {
    if u < TWO_63 then u else u - TWO_64
  }

  /** Go `uint64(s)` for an `int64` s. */
  function AsUnsigned(s: Int64): (u: Uint64)
    ensures (u - s) % TWO_64 == 0
    ensures AsSigned(u) == s
  {
    if s >= 0 then s else s + TWO_64
  }
}
