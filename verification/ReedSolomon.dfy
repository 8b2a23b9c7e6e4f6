/**
 Reed-Solomon error correction codewords (section 7.5.2 of ISO/IEC 18004:2015).

 Polynomials over GF(2^8) are sequences of coefficients, highest power first. The
 loops of the QR generator are proved to compute the functions `Divisor` and
 `Remainder`; the lemmas then show that these are the generator polynomial and the
 remainder of a polynomial division, so that data followed by its remainder
 vanishes at 2^0, ..., 2^(degree-1).
 */
module ReedSolomon {
  import opened Wrappers
  import opened Bits
  import opened Gf256

  type Poly = seq<byte>

  /** Horner evaluation at z. */
  function Eval(p: Poly, z: byte): byte
  {
    if p == [] then ZERO else Add(Mul(Eval(p[..|p| - 1], z), z), p[|p| - 1])
  }

  /** (z - 2^0)·(z - 2^1)· ... ·(z - 2^(n-1)); subtraction is addition in this field. */
  function RootProduct(n: nat, z: byte): byte
  {
    if n == 0 then ONE else Mul(RootProduct(n - 1, z), Add(z, Pow(TWO, n - 1)))
  }

  // ------------------------------------------------------------------
  // What the loops compute
  // ------------------------------------------------------------------

  function ZeroPoly(n: nat): Poly
  {
    seq(n, _ => ZERO)
  }

  function At(p: Poly, i: nat): byte
  {
    if i < |p| then p[i] else ZERO
  }

  /** p·(x - root), dropping whatever overflows the length of p. */
  function TimesRoot(p: Poly, root: byte): Poly
  {
    seq(|p|, j requires 0 <= j < |p| => Add(Mul(p[j], root), At(p, j + 1)))
  }

  /** The product of the first i linear factors in `degree` coefficients. */
  function Product(degree: nat, i: nat): (p: Poly)
    requires degree >= 1
    ensures |p| == degree
  {
    if i == 0 then ZeroPoly(degree - 1) + [ONE]
    else TimesRoot(Product(degree, i - 1), Pow(TWO, i - 1))
  }

  /** The generator polynomial without its leading term x^degree. */
  function Divisor(degree: nat): (d: Poly)
    requires degree >= 1
    ensures |d| == degree
  {
    Product(degree, degree)
  }

  function Scale(p: Poly, c: byte): Poly
  {
    seq(|p|, i requires 0 <= i < |p| => Mul(p[i], c))
  }

  function AddPoly(p: Poly, q: Poly): Poly
    requires |p| == |q|
  {
    seq(|p|, i requires 0 <= i < |p| => Add(p[i], q[i]))
  }

  /** One step of the division register. */
  function Feed(register: Poly, divisor: Poly, b: byte): (r: Poly)
    requires |register| == |divisor| >= 1
    ensures |r| == |divisor|
  {
    AddPoly(register[1..] + [ZERO], Scale(divisor, Add(b, register[0])))
  }

  function Remainder(data: Poly, divisor: Poly): (r: Poly)
    requires |divisor| >= 1
    ensures |r| == |divisor|
  {
    if data == [] then ZeroPoly(|divisor|)
    else Feed(Remainder(data[..|data| - 1], divisor), divisor, data[|data| - 1])
  }

  /** The factors the register subtracts, one per data coefficient. */
  ghost function Quotient(data: Poly, divisor: Poly): Poly
    requires |divisor| >= 1
  {
    if data == [] then []
    else
      var front := data[..|data| - 1];
      Quotient(front, divisor) + [Add(data[|data| - 1], Remainder(front, divisor)[0])]
  }

  // ------------------------------------------------------------------
  // The loops
  // ------------------------------------------------------------------

  datatype RangeError = RangeError

  /** The inner loop: multiply the current product by (x - root) in place. */
  method MultiplyByRoot(result: array<byte>, root: byte)
    modifies result
    ensures result[..] == TimesRoot(old(result[..]), root)
  {
    hide Add, Mul, ProductMod11D;
    for j := 0 to result.Length
      invariant forall k :: 0 <= k < j ==> result[k] == Add(Mul(old(result[k]), root), At(old(result[..]), k + 1))
      invariant forall k :: j <= k < result.Length ==> result[k] == old(result[k])
    {
      var product := ReedSolomonMultiply(result[j], root);
      result[j] := product;
      if j + 1 < result.Length {
        result[j] := Add(result[j], result[j + 1]);
      } else {
        AddZero(result[j]);
      }
    }
  }

  method ReedSolomonComputeDivisor(degree: int) returns (r: Result<Poly, RangeError>)
    ensures r.Failure? <==> degree < 1 || degree > 255
    ensures r.Success? ==> r.value == Divisor(degree)
  {
    hide Mul, TimesRoot, ProductMod11D;
    if degree < 1 || degree > 255 {
      return Failure(RangeError);
    }
    var result := new byte[degree](_ => ZERO);
    result[degree - 1] := ONE;
    assert result[..] == Product(degree, 0);

    var root: byte := ONE;
    for i := 0 to degree
      invariant result[..] == Product(degree, i)
      invariant root == Pow(TWO, i)
    {
      MultiplyByRoot(result, root);
      root := ReedSolomonMultiply(root, TWO);
    }
    return Success(result[..]);
  }

  method ReedSolomonComputeRemainder(data: Poly, divisor: Poly) returns (result: Poly)
    requires |divisor| >= 1
    ensures result == Remainder(data, divisor)
  {
    hide Add, Mul, ProductMod11D;
    result := ZeroPoly(|divisor|);
    for k := 0 to |data|
      invariant result == Remainder(data[..k], divisor)
    {
      ghost var register := result;
      var factor := Add(data[k], result[0]);
      result := result[1..];
      result := result + [ZERO];
      ghost var shifted := result;
      for i := 0 to |divisor|
        invariant |result| == |divisor|
        invariant forall m :: 0 <= m < i ==> result[m] == Add(shifted[m], Mul(divisor[m], factor))
        invariant forall m :: i <= m < |divisor| ==> result[m] == shifted[m]
      {
        var product := ReedSolomonMultiply(divisor[i], factor);
        result := result[i := Add(result[i], product)];
      }
      assert result == Feed(register, divisor, data[k]);
      assert data[..k + 1][..k] == data[..k];
    }
    assert data[..|data|] == data;
  }

  // ------------------------------------------------------------------
  // Evaluation
  // ------------------------------------------------------------------

  lemma EvalSnoc(p: Poly, c: byte, z: byte)
    ensures Eval(p + [c], z) == Add(Mul(Eval(p, z), z), c)
  {
    assert (p + [c])[..|p|] == p;
  }

  lemma {:induction false} EvalZeroPoly(n: nat, z: byte)
    ensures Eval(ZeroPoly(n), z) == ZERO
  {
    if n > 0 {
      EvalZeroPoly(n - 1, z);
      assert ZeroPoly(n) == ZeroPoly(n - 1) + [ZERO];
      EvalSnoc(ZeroPoly(n - 1), ZERO, z);
      MulUnits(z);
      AddZero(ZERO);
    }
  }

  lemma {:induction false} EvalAdd(p: Poly, q: Poly, z: byte)
    requires |p| == |q|
    ensures Eval(AddPoly(p, q), z) == Add(Eval(p, z), Eval(q, z))
  {
    hide Add, Mul;
    if p == [] {
      AddZero(ZERO);
    } else {
      var n := |p| - 1;
      EvalAdd(p[..n], q[..n], z);
      assert AddPoly(p, q) == AddPoly(p[..n], q[..n]) + [Add(p[n], q[n])];
      EvalSnoc(AddPoly(p[..n], q[..n]), Add(p[n], q[n]), z);
      MulAddLeft(Eval(p[..n], z), Eval(q[..n], z), z);
      AddSwap(Mul(Eval(p[..n], z), z), Mul(Eval(q[..n], z), z), p[n], q[n]);
    }
  }

  lemma {:induction false} EvalScale(p: Poly, c: byte, z: byte)
    ensures Eval(Scale(p, c), z) == Mul(Eval(p, z), c)
  {
    hide Add, Mul;
    if p == [] {
      MulUnits(c);
    } else {
      var n := |p| - 1;
      EvalScale(p[..n], c, z);
      assert Scale(p, c) == Scale(p[..n], c) + [Mul(p[n], c)];
      EvalSnoc(Scale(p[..n], c), Mul(p[n], c), z);
      MulSwapRight(Eval(p[..n], z), c, z);
      MulAddLeft(Mul(Eval(p[..n], z), z), p[n], c);
    }
  }

  /** Concatenation shifts the left part by the length of the right part. */
  lemma {:induction false} EvalConcat(p: Poly, q: Poly, z: byte)
    ensures Eval(p + q, z) == Add(Mul(Eval(p, z), Pow(z, |q|)), Eval(q, z))
  {
    hide Add, Mul;
    if q == [] {
      assert p + q == p;
      MulUnits(Eval(p, z));
      AddZero(Eval(p, z));
    } else {
      var n := |q| - 1;
      var e, f := Eval(p, z), Eval(q[..n], z);
      EvalConcat(p, q[..n], z);
      assert p + q == (p + q[..n]) + [q[n]];
      EvalSnoc(p + q[..n], q[n], z);
      MulAddLeft(Mul(e, Pow(z, n)), f, z);
      MulAssociative(e, Pow(z, n), z);
      AddAssoc(Mul(e, Pow(z, n + 1)), Mul(f, z), q[n]);
    }
  }

  /** Dropping the leading coefficient of a polynomial and multiplying by x. */
  lemma EvalShift(p: Poly, z: byte)
    requires |p| >= 1
    ensures Eval(p[1..] + [ZERO], z) == Add(Mul(Eval(p, z), z), Mul(p[0], Pow(z, |p|)))
  {
    hide Add, Mul;
    var n := |p| - 1;
    assert p == [p[0]] + p[1..];
    EvalConcat([p[0]], p[1..], z);
    EvalSnoc([], p[0], z);
    MulUnits(z);
    AddZero(p[0]);
    EvalSnoc(p[1..], ZERO, z);
    var lead, rest := Mul(p[0], Pow(z, n)), Eval(p[1..], z);
    AddZero(Mul(rest, z));
    MulAddLeft(lead, rest, z);
    MulAssociative(p[0], Pow(z, n), z);
    // p·z == lead·z + rest·z, and lead·z == p[0]·z^|p| cancels
    var top := Mul(p[0], Pow(z, n + 1));
    AddComm(top, Mul(rest, z));
    AddAssoc(Mul(rest, z), top, top);
    AddZero(top);
  }

  // ------------------------------------------------------------------
  // The generator polynomial
  // ------------------------------------------------------------------

  lemma EvalTimesRoot(p: Poly, root: byte, z: byte)
    requires |p| >= 1
    ensures Eval(TimesRoot(p, root), z) == Add(Mul(Eval(p, z), Add(z, root)), Mul(p[0], Pow(z, |p|)))
  {
    hide Add, Mul;
    var shifted := p[1..] + [ZERO];
    assert TimesRoot(p, root) == AddPoly(Scale(p, root), shifted);
    EvalAdd(Scale(p, root), shifted, z);
    EvalScale(p, root, z);
    EvalShift(p, z);
    var e, top := Eval(p, z), Mul(p[0], Pow(z, |p|));
    AddAssoc(Mul(e, root), Mul(e, z), top);
    AddComm(Mul(e, root), Mul(e, z));
    MulAddRight(e, z, root);
  }

  /** p has degree d, leading coefficient 1, and room for |p| - 1 - d more factors. */
  ghost predicate Monic(p: Poly, d: nat)
  {
    && d < |p|
    && p[|p| - 1 - d] == ONE
    && forall j :: 0 <= j < |p| - 1 - d ==> p[j] == ZERO
  }

  lemma TimesRootMonic(p: Poly, d: nat, root: byte)
    requires Monic(p, d) && d + 1 < |p|
    ensures Monic(TimesRoot(p, root), d + 1)
  {
    hide Add, Mul;
    MulUnits(root);
    AddZero(ZERO);
    AddZero(ONE);
  }

  /** Before the last factor the product is monic and has not overflowed. */
  lemma {:induction false} ProductShape(degree: nat, i: nat)
    requires i < degree
    ensures Monic(Product(degree, i), i)
  {
    hide Add, Mul, TimesRoot;
    if i > 0 {
      ProductShape(degree, i - 1);
      TimesRootMonic(Product(degree, i - 1), i - 1, Pow(TWO, i - 1));
    }
  }

  lemma {:induction false} EvalProduct(degree: nat, i: nat, z: byte)
    requires i < degree
    ensures Eval(Product(degree, i), z) == RootProduct(i, z)
  {
    hide Add, Mul, TimesRoot;
    if i == 0 {
      EvalZeroPoly(degree - 1, z);
      EvalSnoc(ZeroPoly(degree - 1), ONE, z);
      MulUnits(z);
      AddZero(ONE);
    } else {
      EvalProduct(degree, i - 1, z);
      ProductShape(degree, i - 1);
      EvalTimesRoot(Product(degree, i - 1), Pow(TWO, i - 1), z);
      MulUnits(Pow(z, degree));
      AddZero(RootProduct(i, z));
    }
  }

  /** x^degree plus the computed divisor is the product of all linear factors. */
  lemma DivisorIsGenerator(degree: nat, z: byte)
    requires degree >= 1
    ensures Add(Pow(z, degree), Eval(Divisor(degree), z)) == RootProduct(degree, z)
  {
    hide Add, Mul, TimesRoot;
    var top, g := Pow(z, degree), RootProduct(degree, z);
    EvalProduct(degree, degree - 1, z);
    ProductShape(degree, degree - 1);
    EvalTimesRoot(Product(degree, degree - 1), Pow(TWO, degree - 1), z);
    MulUnits(top);
    AddComm(g, top);
    AddAssoc(top, top, g);
    AddZero(top);
    AddZero(g);
  }

  lemma {:induction false} RootProductVanishes(n: nat, i: nat)
    requires i < n
    ensures RootProduct(n, Pow(TWO, i)) == ZERO
  {
    hide Add, Mul;
    var z := Pow(TWO, i);
    if i == n - 1 {
      AddZero(z);
      MulUnits(RootProduct(n - 1, z));
    } else {
      RootProductVanishes(n - 1, i);
      MulUnits(Add(z, Pow(TWO, n - 1)));
    }
  }

  // ------------------------------------------------------------------
  // Division
  // ------------------------------------------------------------------

  /** data·x^n + remainder == quotient·(x^n + divisor), as polynomials. */
  lemma {:induction false} DivisionIdentity(data: Poly, divisor: Poly, z: byte)
    requires |divisor| >= 1
    ensures Add(Mul(Eval(data, z), Pow(z, |divisor|)), Eval(Remainder(data, divisor), z))
         == Mul(Eval(Quotient(data, divisor), z), Add(Pow(z, |divisor|), Eval(divisor, z)))
  {
    hide Add, Mul;
    var top, e := Pow(z, |divisor|), Eval(divisor, z);
    if data == [] {
      EvalZeroPoly(|divisor|, z);
      MulUnits(top);
      MulUnits(Add(top, e));
      AddZero(ZERO);
    } else {
      var n := |data| - 1;
      var front, b := data[..n], data[n];
      DivisionIdentity(front, divisor, z);
      var register := Remainder(front, divisor);
      var d, r, q := Eval(front, z), Eval(register, z), Eval(Quotient(front, divisor), z);
      var f := Add(b, register[0]);
      // the right-hand side
      EvalSnoc(Quotient(front, divisor), f, z);
      MulAddLeft(Mul(q, z), f, Add(top, e));
      MulSwapRight(q, z, Add(top, e));
      MulAddRight(f, top, e);
      // the left-hand side
      assert data == front + [b];
      EvalSnoc(front, b, z);
      MulAddLeft(Mul(d, z), b, top);
      MulSwapRight(d, z, top);
      EvalFeed(register, divisor, b, z);
      MulAddLeft(Mul(d, top), r, z);
      MulAddLeft(b, register[0], top);
      Regroup(Mul(Mul(d, top), z), Mul(b, top), Mul(r, z), Mul(register[0], top), Mul(f, e));
    }
  }

  lemma EvalFeed(register: Poly, divisor: Poly, b: byte, z: byte)
    requires |register| == |divisor| >= 1
    ensures Eval(Feed(register, divisor, b), z)
         == Add(Add(Mul(Eval(register, z), z), Mul(register[0], Pow(z, |divisor|))),
                Mul(Add(b, register[0]), Eval(divisor, z)))
  {
    hide Add, Mul;
    var f := Add(b, register[0]);
    EvalAdd(register[1..] + [ZERO], Scale(divisor, f), z);
    EvalShift(register, z);
    EvalScale(divisor, f, z);
    MulCommutative(Eval(divisor, z), f);
  }

  lemma Regroup(a: byte, b: byte, c: byte, d: byte, e: byte)
    ensures Add(Add(a, b), Add(Add(c, d), e)) == Add(Add(a, c), Add(Add(b, d), e))
  {
    AddAssoc(Add(a, b), Add(c, d), e);
    AddSwap(a, b, c, d);
    AddAssoc(Add(a, c), Add(b, d), e);
  }

  /** Data followed by its remainder is a codeword: it vanishes at every root. */
  lemma Codeword(data: Poly, degree: nat, i: nat)
    requires i < degree
    ensures Eval(data + Remainder(data, Divisor(degree)), Pow(TWO, i)) == ZERO
  {
    hide Add, Mul, Product;
    var z, g := Pow(TWO, i), Divisor(degree);
    EvalConcat(data, Remainder(data, g), z);
    DivisionIdentity(data, g, z);
    DivisorIsGenerator(degree, z);
    RootProductVanishes(degree, i);
    MulUnits(Eval(Quotient(data, g), z));
  }
}
