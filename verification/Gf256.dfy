/**
 The finite field GF(2^8) with reduction polynomial 0x11D in which the
 Reed-Solomon code of ISO/IEC 18004:2015 works. Addition is exclusive-or;
 multiplication is the bit-serial product of `reedSolomonMultiply`, proved here to
 be commutative, associative and distributive over addition.
 */
module Gf256 {
  import opened Bits
  import opened BitPoly

  const ZERO: byte := [false, false, false, false, false, false, false, false]
  const ONE: byte := [false, false, false, false, false, false, false, true]
  const TWO: byte := [false, false, false, false, false, false, true, false]

  /** 0x11D: x^8 + x^4 + x^3 + x^2 + 1, as a nine-bit string. */
  const REDUCTION: seq<bool> := [true, false, false, false, true, true, true, false, true]

  /** Field addition; every element is its own negative. */
  function Add(a: byte, b: byte): byte
  {
    Xor(a, b)
  }

  /** Multiplication by the field element 0x02: (z << 1) ^ ((z >>> 7) * 0x11D). */
  function Double(z: byte): byte
  {
    ShiftReduce(z, REDUCTION)
  }

  function Select(x: byte, bit: bool): byte
  {
    if bit then x else ZERO
  }

  /** The accumulator after the k most significant bits of y have been consumed. */
  function Rounds(x: byte, y: byte, k: nat): byte
    requires k <= 8
  {
    if k == 0 then ZERO else Add(Double(Rounds(x, y, k - 1)), Select(x, y[k - 1]))
  }

  /** The field product. */
  function Mul(x: byte, y: byte): byte
  {
    Rounds(x, y, 8)
  }

  /** Exponentiation; Pow(TWO, i) are the roots of the generator polynomial. */
  function Pow(x: byte, n: nat): byte
  {
    if n == 0 then ONE else Mul(Pow(x, n - 1), x)
  }

  /** The carry-less product of x and y is p plus a multiple of x^8 + x^4 + x^3 + x^2 + 1. */
  ghost predicate ProductMod11D(x: byte, y: byte, p: byte)
  {
    exists q: seq<bool> :: |q| == 8 && [false] + Times(x, y) == Xor(Zeros(9) + p, Times(BitsOf(0x11d, 9), q))
  }

  /** Russian-peasant multiplication on a nine-bit accumulator. */
  method ReedSolomonMultiply(x: byte, y: byte) returns (product: byte)
    ensures product == Mul(x, y)
    ensures ProductMod11D(x, y, product)
  {
    var z: seq<bool> := Zeros(9);
    for k := 0 to 8
      invariant |z| == 9 && !z[0] && z[1..] == Rounds(x, y, k)
    {
      var top := z[1];
      z := Xor(z[1..] + [false], if top then REDUCTION else Zeros(9));
      z := Xor(z, [false] + (if y[k] then x else ZERO));
      assert z[1..] == Rounds(x, y, k + 1);
    }
    product := z[1..];
    ghost var q := ProductModulo11D(x, y);
  }

  // ------------------------------------------------------------------
  // Sums
  // ------------------------------------------------------------------

  lemma AddComm(a: byte, b: byte)
    ensures Add(a, b) == Add(b, a)
  {}

  lemma AddAssoc(a: byte, b: byte, c: byte)
    ensures Add(Add(a, b), c) == Add(a, Add(b, c))
  {}

  lemma AddZero(a: byte)
    ensures Add(a, ZERO) == a == Add(ZERO, a)
    ensures Add(a, a) == ZERO
  {}

  lemma AddSwap(a: byte, b: byte, c: byte, d: byte)
    ensures Add(Add(a, b), Add(c, d)) == Add(Add(a, c), Add(b, d))
  {}

  lemma DoubleAdd(a: byte, b: byte)
    ensures Double(Add(a, b)) == Add(Double(a), Double(b))
  {}

  lemma DoubleUnits()
    ensures Double(ZERO) == ZERO && Double(ONE) == TWO
  {}

  // ------------------------------------------------------------------
  // Products
  // ------------------------------------------------------------------

  /** Multiplication distributes over addition in its left factor. */
  lemma {:induction false} RoundsAdd(a: byte, b: byte, y: byte, k: nat)
    requires k <= 8
    ensures Rounds(Add(a, b), y, k) == Add(Rounds(a, y, k), Rounds(b, y, k))
  {
    hide Add, Double;
    AddZero(ZERO);
    if k > 0 {
      RoundsAdd(a, b, y, k - 1);
      var p, q := Rounds(a, y, k - 1), Rounds(b, y, k - 1);
      DoubleAdd(p, q);
      AddSwap(Double(p), Double(q), Select(a, y[k - 1]), Select(b, y[k - 1]));
    }
  }

  /** Doubling a factor doubles the product. */
  lemma {:induction false} RoundsDouble(x: byte, y: byte, k: nat)
    requires k <= 8
    ensures Rounds(Double(x), y, k) == Double(Rounds(x, y, k))
  {
    hide Add, Double;
    DoubleUnits();
    if k > 0 {
      RoundsDouble(x, y, k - 1);
      DoubleAdd(Double(Rounds(x, y, k - 1)), Select(x, y[k - 1]));
    }
  }

  lemma {:induction false} RoundsZero(y: byte, k: nat)
    requires k <= 8
    ensures Rounds(ZERO, y, k) == ZERO
  {
    hide Add, Double;
    DoubleUnits();
    AddZero(ZERO);
    if k > 0 {
      RoundsZero(y, k - 1);
    }
  }

  /** Right factors commute: (x·y)·w == (x·w)·y. */
  lemma {:induction false} RoundsCommute(x: byte, y: byte, w: byte, k: nat)
    requires k <= 8
    ensures Mul(Rounds(x, y, k), w) == Rounds(Mul(x, w), y, k)
  {
    hide Add, Double;
    RoundsZero(w, 8);
    if k > 0 {
      RoundsCommute(x, y, w, k - 1);
      var p := Rounds(x, y, k - 1);
      RoundsAdd(Double(p), Select(x, y[k - 1]), w, 8);
      RoundsDouble(p, w, 8);
    }
  }

  /** Multiplying 1 by y shifts in the bits of y. */
  lemma {:induction false} RoundsOne(y: byte, k: nat)
    requires k <= 8
    ensures Rounds(ONE, y, k) == Zeros(8 - k) + y[..k]
  {
    if k > 0 {
      RoundsOne(y, k - 1);
      ShiftInBit(Rounds(ONE, y, k - 1), y, k - 1);
    }
  }

  lemma ShiftInBit(z: byte, y: byte, k: nat)
    requires k < 8 && z == Zeros(8 - k) + y[..k]
    ensures Add(Double(z), Select(ONE, y[k])) == Zeros(7 - k) + y[..k + 1]
  {
    assert !z[0];
    assert Double(z) == z[1..] + [false];
  }

  lemma MulOneLeft(y: byte)
    ensures Mul(ONE, y) == y
  {
    RoundsOne(y, 8);
  }

  lemma MulCommutative(x: byte, y: byte)
    ensures Mul(x, y) == Mul(y, x)
  {
    hide Rounds;
    MulOneLeft(x);
    MulOneLeft(y);
    RoundsCommute(ONE, x, y, 8);
  }

  lemma MulAssociative(x: byte, y: byte, z: byte)
    ensures Mul(Mul(x, y), z) == Mul(x, Mul(y, z))
  {
    hide Rounds;
    MulCommutative(x, y);
    RoundsCommute(y, x, z, 8);
    MulCommutative(Mul(y, z), x);
  }

  lemma MulAddLeft(a: byte, b: byte, y: byte)
    ensures Mul(Add(a, b), y) == Add(Mul(a, y), Mul(b, y))
  {
    hide Rounds;
    RoundsAdd(a, b, y, 8);
  }

  lemma MulAddRight(x: byte, a: byte, b: byte)
    ensures Mul(x, Add(a, b)) == Add(Mul(x, a), Mul(x, b))
  {
    hide Rounds, Add;
    MulCommutative(x, Add(a, b));
    MulCommutative(x, a);
    MulCommutative(x, b);
    MulAddLeft(a, b, x);
  }

  lemma MulUnits(x: byte)
    ensures Mul(x, ONE) == x == Mul(ONE, x)
    ensures Mul(x, ZERO) == ZERO == Mul(ZERO, x)
  {
    MulOneLeft(x);
    MulCommutative(x, ONE);
    RoundsZero(x, 8);
    MulCommutative(x, ZERO);
  }

  lemma MulSwapRight(a: byte, b: byte, c: byte)
    ensures Mul(Mul(a, b), c) == Mul(Mul(a, c), b)
  {
    hide Rounds;
    RoundsCommute(a, b, c, 8);
  }

  /** The alpha of the standard: multiplying by 2 shifts, and adds 0x1D when a bit falls out. */
  lemma MulTwo(x: byte)
    ensures Mul(x, TWO) == Double(x)
    ensures Mul(x, TWO) == if x[0] then Xor(x[1..] + [false], BitsOf(0x1d, 8)) else x[1..] + [false]
  {
    hide Rounds, BitsOf;
    RoundsDouble(ONE, x, 8);
    MulOneLeft(x);
    MulCommutative(TWO, x);
    DoubleUnits();
    OneIs();
  }

  // ------------------------------------------------------------------
  // Which field it is
  // ------------------------------------------------------------------

  lemma ReductionIs()
    ensures REDUCTION == BitsOf(0x11d, 9)
  {
    assert BitsOf(0x11, 5) == [true, false, false, false, true];
    assert BitsOf(0x11d, 9) == BitsOf(0x11, 5) + [true, true, false, true];
  }

  lemma {:induction false} RoundsDivide(x: byte, y: byte, k: nat) returns (q: seq<bool>)
    requires k <= 8
    ensures |q| == k && Divides(Times(x, y[..k]), REDUCTION, q, Rounds(x, y, k))
  {
    hide ShiftReduce, Divides;
    if k == 0 {
      q := [];
      DivideNothing(REDUCTION, ZERO);
      assert Times(x, y[..0]) == ZERO;
    } else {
      var before := RoundsDivide(x, y, k - 1);
      var r := Rounds(x, y, k - 1);
      q := before + [r[0]];
      var p := Times(x, y[..k - 1]) + [false];
      DivideShift(Times(x, y[..k - 1]), REDUCTION, before, r);
      var sel := Select(x, y[k - 1]);
      DivideAdd(p, REDUCTION, q, Double(r), sel);
      assert y[..k] == y[..k - 1] + [y[k - 1]];
      TimesSnoc(x, y[..k - 1], y[k - 1]);
      assert Pad(sel, |p|) == Zeros(k) + if y[k - 1] then x else Zeros(8);
    }
  }

  /** The product is the carry-less product less a multiple of x^8 + x^4 + x^3 + x^2 + 1. */
  lemma ProductModulo11D(x: byte, y: byte) returns (q: seq<bool>)
    ensures |q| == 8
    ensures [false] + Times(x, y) == Xor(Zeros(9) + Mul(x, y), Times(BitsOf(0x11d, 9), q))
  {
    hide Rounds;
    q := RoundsDivide(x, y, 8);
    ReductionIs();
    assert y[..8] == y;
    assert Pad(Mul(x, y), 17) == Zeros(9) + Mul(x, y);
  }

  /** The roots of the generator polynomial are the powers of the polynomial x: 1, and each the next shift. */
  lemma PowersOfTwo(i: nat)
    ensures Pow(TWO, 0) == BitsOf(1, 8)
    ensures var p := Pow(TWO, i);
      Pow(TWO, i + 1) == if p[0] then Xor(p[1..] + [false], BitsOf(0x1d, 8)) else p[1..] + [false]
  {
    hide Rounds, Double;
    MulTwo(Pow(TWO, i));
    OneIs();
  }

  lemma OneIs()
    ensures ONE == BitsOf(1, 8) && BitsOf(0x1d, 8) == [false, false, false, true, true, true, false, true]
  {
    assert BitsOf(0, 4) == [false, false, false, false];
    assert BitsOf(1, 4) == [false, false, false, true];
    assert BitsOf(1, 8) == BitsOf(0, 4) + [false, false, false, true];
    assert BitsOf(0x1d, 8) == BitsOf(1, 4) + [true, true, false, true];
  }
}
