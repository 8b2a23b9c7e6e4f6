/** Absolute value, minimum and exact division. */
module Numbers {

  function Abs(a: int): nat { if a < 0 then -a else a }

  function Min(a: nat, b: nat): nat { if a <= b then a else b }

  lemma LessFactor(a: int, b: int, t: int)
    requires t > 0 && a * t < b * t
    ensures a < b
  {}

  lemma ExactQuotient(a: nat, b: nat)
    requires b > 0
    ensures a * b / b == a
  {
    var d := a * b / b;
    QuotientBounds(a * b, b);
    assert d * b + b == (d + 1) * b && a * b + b == (a + 1) * b;
    LessFactor(a, d + 1, b);
    LessFactor(d, a + 1, b);
  }

  lemma QuotientBounds(x: nat, b: nat)
    requires b > 0
    ensures x / b * b <= x < x / b * b + b
  {}
}
