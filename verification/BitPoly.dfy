/**
 Bit strings as polynomials over GF(2), highest power first: the carry-less product, and
 division with remainder by it. Nothing here reduces anything.
 */
module BitPoly {
  import opened Bits

  /** The product, by shifting and adding; it has room for every power. */
  function Times(a: seq<bool>, b: seq<bool>): (p: seq<bool>)
    ensures |p| == |a| + |b|
  {
    if b == [] then Zeros(|a|)
    else
      var n := |b| - 1;
      Xor(Times(a, b[..n]) + [false], Zeros(|b|) + if b[n] then a else Zeros(|a|))
  }

  /** r with leading zeros. */
  function Pad(r: seq<bool>, len: nat): (p: seq<bool>)
    requires |r| <= len
    ensures |p| == len
  {
    Zeros(len - |r|) + r
  }

  /** p == gen·q + r, with r shorter than gen. */
  ghost predicate Divides(p: seq<bool>, gen: seq<bool>, q: seq<bool>, r: seq<bool>)
  {
    && |gen| == |r| + 1
    && |p| + 1 == |gen| + |q|
    && [false] + p == Xor(Pad(r, |p| + 1), Times(gen, q))
  }

  lemma TimesSnoc(a: seq<bool>, b: seq<bool>, bit: bool)
    ensures Times(a, b + [bit]) == Xor(Times(a, b) + [false], Zeros(|b| + 1) + if bit then a else Zeros(|a|))
  {
    assert (b + [bit])[..|b|] == b;
  }

  lemma DivideNothing(gen: seq<bool>, r: seq<bool>)
    requires |gen| == |r| + 1
    ensures Divides(r, gen, [], r)
  {}

  /** Multiplying by x: the leading bit of the remainder becomes the next bit of the quotient. */
  lemma DivideShift(p: seq<bool>, gen: seq<bool>, q: seq<bool>, r: seq<bool>)
    requires Divides(p, gen, q, r) && r != [] && gen[0]
    ensures Divides(p + [false], gen, q + [r[0]], ShiftReduce(r, gen))
  {
    hide Times;
    TimesSnoc(gen, q, r[0]);
    var t := if r[0] then gen else Zeros(|gen|);
    var next := ShiftReduce(r, gen);
    ReduceOnce(r, gen);
    ShiftedSum([false] + p, Pad(r, |p| + 1), Times(gen, q));
    assert Pad(r, |p| + 1) + [false] == Zeros(|q| + 1) + (r + [false]);
    assert Pad(next, |p| + 2) == Zeros(|q| + 1) + ([false] + next);
    Regrouped(Zeros(|q| + 1), [false] + next, t, Times(gen, q) + [false]);
    assert [false] + (p + [false]) == ([false] + p) + [false];
  }

  lemma ReduceOnce(r: seq<bool>, gen: seq<bool>)
    requires |gen| == |r| + 1 && r != [] && gen[0]
    ensures r + [false] == Xor([false] + ShiftReduce(r, gen), if r[0] then gen else Zeros(|gen|))
  {}

  lemma ShiftedSum(c: seq<bool>, a: seq<bool>, b: seq<bool>)
    requires |a| == |b| && c == Xor(a, b)
    ensures c + [false] == Xor(a + [false], b + [false])
  {}

  lemma Regrouped(z: seq<bool>, a: seq<bool>, t: seq<bool>, u: seq<bool>)
    requires |a| == |t| && |z| + |a| == |u|
    ensures Xor(z + Xor(a, t), u) == Xor(z + a, Xor(u, Zeros(|z|) + t))
  {}

  /** Adding something short changes the remainder only. */
  lemma DivideAdd(p: seq<bool>, gen: seq<bool>, q: seq<bool>, r: seq<bool>, x: seq<bool>)
    requires Divides(p, gen, q, r) && |x| == |r| <= |p|
    ensures Divides(Xor(p, Pad(x, |p|)), gen, q, Xor(r, x))
  {
    hide Times;
    var s, u := Xor(p, Pad(x, |p|)), Times(gen, q);
    forall i | 0 <= i < |p| + 1
      ensures ([false] + s)[i] == Xor(Pad(Xor(r, x), |p| + 1), u)[i]
    {
      assert ([false] + p)[i] == Xor(Pad(r, |p| + 1), u)[i];
    }
  }

  /** A polynomial plus its remainder is a multiple. */
  lemma RemainderCompletes(p: seq<bool>, gen: seq<bool>, q: seq<bool>, r: seq<bool>)
    requires Divides(p, gen, q, r) && |r| <= |p|
    ensures [false] + Xor(p, Pad(r, |p|)) == Times(gen, q)
  {
    hide Times;
    forall i | 0 <= i < |p| + 1
      ensures ([false] + Xor(p, Pad(r, |p|)))[i] == Times(gen, q)[i]
    {
      assert ([false] + p)[i] == Xor(Pad(r, |p| + 1), Times(gen, q))[i];
    }
  }
}
