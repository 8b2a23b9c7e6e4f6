/** Numbers in decimal digits. */
module Decimal {

  predicate IsNumeric(text: string)
  {
    forall i :: 0 <= i < |text| ==> '0' <= text[i] <= '9'
  }

  function ParseInt(digits: string): nat
    requires IsNumeric(digits)
  {
    if digits == "" then 0
    else 10 * ParseInt(digits[..|digits| - 1]) + (digits[|digits| - 1] - '0') as nat
  }

  function Pow10(n: nat): nat { if n == 0 then 1 else 10 * Pow10(n - 1) }

  /** The n low-order decimal digits of v. */
  function DigitsOf(v: nat, n: nat): (s: string)
    ensures |s| == n
  {
    if n == 0 then "" else DigitsOf(v / 10, n - 1) + ['0' + (v % 10) as char]
  }

  lemma {:induction false} DigitsOfParseInt(digits: string)
    requires IsNumeric(digits)
    ensures ParseInt(digits) < Pow10(|digits|)
    ensures DigitsOf(ParseInt(digits), |digits|) == digits
  {
    if digits != "" {
      DigitsOfParseInt(digits[..|digits| - 1]);
    }
  }

  /** The digits of a number, without leading zeros. */
  function Digits(n: nat): (s: string)
    ensures IsNumeric(s) && s != ""
    ensures ParseInt(s) == n
  {
    if n < 10 then
      var s := ['0' + n as char];
      assert s[..0] == "";
      s
    else
      var s := Digits(n / 10) + ['0' + (n % 10) as char];
      assert s[..|s| - 1] == Digits(n / 10);
      s
  }

  function ZeroDigits(n: nat): (s: string)
    ensures |s| == n && IsNumeric(s)
  {
    seq(n, _ => '0')
  }

  /** ZeroDigits in front, up to a width. */
  function PadStart(s: string, width: nat): (r: string)
    ensures |r| == if |s| < width then width else |s|
    ensures IsNumeric(s) ==> IsNumeric(r)
  {
    if |s| < width then ZeroDigits(width - |s|) + s else s
  }

  lemma {:induction false} ParseIntConcat(s: string, t: string)
    requires IsNumeric(s) && IsNumeric(t)
    ensures IsNumeric(s + t)
    ensures ParseInt(s + t) == ParseInt(s) * Pow10(|t|) + ParseInt(t)
  {
    if t == "" {
      assert s + t == s;
    } else {
      var n := |t| - 1;
      ParseIntConcat(s, t[..n]);
      assert (s + t)[..|s + t| - 1] == s + t[..n];
      Shift(ParseInt(s), Pow10(n), ParseInt(t[..n]));
    }
  }

  lemma Shift(a: nat, p: nat, b: nat)
    ensures 10 * (a * p + b) == a * (10 * p) + 10 * b
  {}

  lemma {:induction false} ParseIntZeroDigits(n: nat)
    ensures ParseInt(ZeroDigits(n)) == 0
  {
    if n > 0 {
      ParseIntZeroDigits(n - 1);
      assert ZeroDigits(n)[..n - 1] == ZeroDigits(n - 1);
    }
  }

  lemma ParseIntPadStart(s: string, width: nat)
    requires IsNumeric(s)
    ensures ParseInt(PadStart(s, width)) == ParseInt(s)
  {
    if |s| < width {
      ParseIntZeroDigits(width - |s|);
      ParseIntConcat(ZeroDigits(width - |s|), s);
    }
  }
}
