/**
 Bit strings, most significant bit first. A byte is a bit string of length eight.
 */
module Bits {

  type byte = b: seq<bool> | |b| == 8 witness [false, false, false, false, false, false, false, false]

  function Pow2(n: nat): (p: nat)
    ensures p >= 1
  {
    if n == 0 then 1 else 2 * Pow2(n - 1)
  }

  /** The `len` low-order bits of val. */
  function BitsOf(val: nat, len: nat): (bits: seq<bool>)
    ensures |bits| == len
  {
    if len == 0 then [] else BitsOf(val / 2, len - 1) + [val % 2 == 1]
  }

  /** The number a bit string denotes. */
  function NatOf(bits: seq<bool>): nat
  {
    if bits == [] then 0
    else 2 * NatOf(bits[..|bits| - 1]) + (if bits[|bits| - 1] then 1 else 0)
  }

  lemma {:induction false} NatOfBitsOf(val: nat, len: nat)
    requires val < Pow2(len)
    ensures NatOf(BitsOf(val, len)) == val
  {
    if len > 0 {
      NatOfBitsOf(val / 2, len - 1);
      assert BitsOf(val, len)[..len - 1] == BitsOf(val / 2, len - 1);
    }
  }

  lemma {:induction false} BitsOfNatOf(bits: seq<bool>)
    ensures NatOf(bits) < Pow2(|bits|)
    ensures BitsOf(NatOf(bits), |bits|) == bits
  {
    if bits != [] {
      BitsOfNatOf(bits[..|bits| - 1]);
    }
  }

  /** Bitwise exclusive-or of strings of equal length. */
  function Xor(a: seq<bool>, b: seq<bool>): (c: seq<bool>)
    requires |a| == |b|
    ensures |c| == |a|
  {
    seq(|a|, i requires 0 <= i < |a| => a[i] != b[i])
  }

  /** One step of division by the polynomial gen: (z << 1) ^ ((z >>> top) * gen). */
  function ShiftReduce(z: seq<bool>, gen: seq<bool>): (r: seq<bool>)
    requires |z| >= 1 && |gen| == |z| + 1
    ensures |r| == |z|
  {
    Xor(z + [false], if z[0] then gen else Zeros(|gen|))[1..]
  }

  function Zeros(n: nat): (z: seq<bool>)
    ensures |z| == n
  {
    seq(n, _ => false)
  }
}
