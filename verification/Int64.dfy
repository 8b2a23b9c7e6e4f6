/** Machine integers: wrap-around addition and multiplication, truncating division. */
module Int64 {

  const INT64_MAX: int := 0x7fff_ffff_ffff_ffff
  const TWO_64: int := 0x1_0000_0000_0000_0000
  const TWO_32: int := 0x1_0000_0000

  type int64 = x: int | -INT64_MAX - 1 <= x <= INT64_MAX
  type int32 = x: int | -0x8000_0000 <= x <= 0x7fff_ffff
  type uint32 = x: int | 0 <= x < TWO_32

  /** How often x leaves the range. */
  function Turns(x: int): int
  {
    (x + INT64_MAX + 1) / TWO_64
  }

  /** Two's complement wrap-around. */
  function Wrap(x: int): (r: int64)
    ensures -INT64_MAX - 1 <= x <= INT64_MAX ==> r == x
    ensures r == x - Turns(x) * TWO_64
  {
    (x + INT64_MAX + 1) % TWO_64 - INT64_MAX - 1
  }

  /** Wrapping in between does not matter. */
  lemma WrapAdd(a: int, b: int)
    ensures Wrap(Wrap(a) + b) == Wrap(a + b)
    ensures Wrap(a - Wrap(b)) == Wrap(a - b)
  {
    WrapShift(a + b, -Turns(a));
    WrapShift(a - b, Turns(b));
  }

  lemma WrapShift(x: int, k: int)
    ensures Wrap(x + k * TWO_64) == Wrap(x)
  {
    ModShift(x + INT64_MAX + 1, k);
  }

  lemma ModShift(x: int, k: int)
    ensures (x + k * TWO_64) % TWO_64 == x % TWO_64
  {
    var q, r := x / TWO_64, x % TWO_64;
    assert x + k * TWO_64 == (q + k) * TWO_64 + r;
  }

  /** Go's division by a positive divisor: toward zero. */
  function Quotient(a: int, b: int): (q: int)
    requires b > 0
  {
    if a >= 0 then a / b else -((-a) / b)
  }

  /** uint32(x) */
  function ToUint32(x: int): uint32 { x % TWO_32 }
}
