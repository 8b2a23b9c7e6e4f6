/**
 What an amount in text means: the parsers return ten million times the decimal number
 that the text denotes, and the printer writes exactly its seven decimal places.
 */
module AmountMeaning {
  import opened Wrappers
  import opened Decimal
  import opened Int64
  import opened AmountText

  /** An amount as it may be written: a sign, whole digits, a dot and decimal places. */
  function Written(plus: bool, whole: string, dot: bool, frac: string): string
  {
    (if plus then "+" else "") + whole + (if dot then "." + frac else "")
  }

  predicate Parts(whole: string, dot: bool, frac: string)
  {
    whole != "" && IsNumeric(whole) && IsNumeric(frac) && (dot || frac == "")
  }

  /** Shifting the decimal point by seven places. */
  lemma SevenShifted(whole: string, frac: string) returns (v: nat)
    requires IsNumeric(whole) && IsNumeric(frac) && |frac| <= 7
    ensures IsNumeric(whole + frac) && v == StroopsOf(whole, frac)
    ensures v * Pow10(|frac|) == ParseInt(whole + frac) * 10_000_000
  {
    hide ParseInt, ZeroDigits, Pow10;
    var zeros := ZeroDigits(7 - |frac|);
    ParseIntConcat(whole, frac);
    ParseIntConcat(whole + frac, zeros);
    ParseIntZeroDigits(7 - |frac|);
    v := StroopsOf(whole, frac);
    var n := ParseInt(whole + frac);
    PowersMultiply(7 - |frac|, |frac|);
    SevenPlaces();
    Reassociate(n, Pow10(7 - |frac|), Pow10(|frac|));
  }

  lemma Reassociate(n: int, a: int, b: int)
    ensures n * a * b == n * (a * b)
  {}

  lemma {:induction false} PowersMultiply(a: nat, b: nat)
    ensures Pow10(a) * Pow10(b) == Pow10(a + b)
  {
    if a > 0 {
      PowersMultiply(a - 1, b);
      assert Pow10(a) * Pow10(b) == 10 * (Pow10(a - 1) * Pow10(b));
    }
  }

  /** The server's reading of every written amount. */
  lemma ServerReads(plus: bool, whole: string, dot: bool, frac: string) returns (v: nat)
    requires Parts(whole, dot, frac)
    ensures |frac| > 7 ==> AmountToStroops(Written(plus, whole, dot, frac)) == Failure(TooManyPlaces)
    ensures |frac| <= 7 ==>
              && IsNumeric(whole + frac) && v * Pow10(|frac|) == ParseInt(whole + frac) * 10_000_000
              && AmountToStroops(Written(plus, whole, dot, frac)) ==
                 if v > 0x7fff_ffff_ffff_ffff then Failure(Overflow)
                 else if v == 0 then Failure(NotPositive)
                 else Success(v)
  {
    hide ParseInt, SplitAtDot, ZeroDigits, Pow10, StroopsOf;
    var text := Written(plus, whole, dot, frac);
    NoDot(whole);
    assert whole[0] in whole;
    var s := if dot then whole + "." + frac else whole;
    assert text == if plus then "+" + s else s;
    SplitJoined(whole, frac);
    if |frac| <= 7 {
      v := SevenShifted(whole, frac);
    } else {
      v := 0;
    }
  }

  /** The server accepts nothing but written amounts. */
  lemma ServerAccepts(text: string) returns (plus: bool, whole: string, dot: bool, frac: string)
    requires AmountToStroops(text).Success?
    ensures text == Written(plus, whole, dot, frac) && Parts(whole, dot, frac) && |frac| <= 7
  {
    hide ParseInt, SplitAtDot, StroopsOf;
    plus := text[0] == '+';
    var s := if plus then text[1..] else text;
    var (intPart, rest) := SplitAtDot(s);
    whole, dot, frac := intPart, rest.Some?, if rest.Some? then rest.value else "";
    assert text == if plus then "+" + s else s;
  }

  /** The browser's reading: no sign, and at least one place after a dot. */
  lemma BrowserReads(whole: string, frac: string) returns (v: nat)
    requires whole != "" && IsNumeric(whole) && IsNumeric(frac) && |frac| <= 7
    ensures IsNumeric(whole + frac) && v * Pow10(|frac|) == ParseInt(whole + frac) * 10_000_000
    ensures ParseUsdcAmount(Written(false, whole, frac != "", frac)) == if v > 0 then Some(v) else None
  {
    hide ParseInt, ZeroDigits, Pow10, ParseUsdcAmount;
    v := SevenShifted(whole, frac);
    StroopsOfParts(whole, frac);
    var text := if frac == "" then whole else whole + "." + frac;
    assert text == Written(false, whole, frac != "", frac);
    BrowserValue(whole, frac, text);
  }

  /** The browser accepts nothing else, up to surrounding white space. */
  lemma BrowserAccepts(raw: string) returns (whole: string, frac: string)
    requires ParseUsdcAmount(raw).Some?
    ensures Trim(raw) == Written(false, whole, frac != "", frac)
    ensures whole != "" && IsNumeric(whole) && IsNumeric(frac) && |frac| <= 7
  {
    hide ParseInt, SplitAtDot, ZeroDigits, Trim;
    var (w, rest) := SplitAtDot(Trim(raw));
    whole, frac := w, if rest.Some? then rest.value else "";
  }

  /** The printer writes the whole units, a dot and exactly seven places. */
  lemma ServerPrints(stroops: int64) returns (whole: string, frac: string)
    requires stroops >= 0
    ensures StroopsToAmount(stroops) == whole + "." + frac
    ensures IsNumeric(whole) && ParseInt(whole) == stroops / 10_000_000
    ensures whole != "" && (whole[0] == '0' ==> whole == "0")
    ensures |frac| == 7 && IsNumeric(frac) && ParseInt(frac) == stroops % 10_000_000
  {
    hide ParseInt, Digits, ZeroDigits, PadStart;
    var q, r := stroops / 10_000_000, stroops % 10_000_000;
    whole, frac := Digits(q), PadStart(Digits(r), 7);
    FractionWidth(r);
    ParseIntPadStart(Digits(r), 7);
    NoLeadingZero(q);
  }

  lemma {:induction false} NoLeadingZero(n: nat)
    ensures Digits(n)[0] == '0' ==> n == 0 && Digits(n) == "0"
  {
    if n >= 10 {
      NoLeadingZero(n / 10);
    }
  }

  /** A debit prints as its amount with a minus sign. */
  lemma ServerPrintsDebit(stroops: int64)
    requires -INT64_MAX <= stroops < 0
    ensures StroopsToAmount(stroops) == "-" + StroopsToAmount(-stroops)
  {
    hide ParseInt, Digits, PadStart;
  }

  /** The browser writes the whole units, and the places up to the last one that is not zero. */
  lemma BrowserPrints(amount: nat) returns (whole: string, frac: string)
    ensures FormatSmallestUnits(Digits(amount)) == Written(false, whole, frac != "", frac)
    ensures FormatSmallestUnits("-" + Digits(amount)) == "-" + Written(false, whole, frac != "", frac)
    ensures IsNumeric(whole) && ParseInt(whole) == amount / 10_000_000 && whole != ""
    ensures |frac| <= 7 && IsNumeric(frac) && (frac != "" ==> frac[|frac| - 1] != '0')
    ensures IsNumeric(frac + ZeroDigits(7 - |frac|)) && ParseInt(frac + ZeroDigits(7 - |frac|)) == amount % 10_000_000
  {
    hide *;
    var places: string;
    whole, places := Places(amount);
    frac := StripZeros(places);
    Stripped(places);
    NumericPrefix(frac, places);
    var text := Digits(amount);
    FirstIsDigit(text);
    PrintsParts(text, whole, places);
  }

  lemma FirstIsDigit(text: string)
    requires text != "" && IsNumeric(text)
    ensures text[0] != '-'
  {}

  /** The digits before and after the decimal point. */
  lemma Places(amount: nat) returns (whole: string, places: string)
    ensures PadStart(Digits(amount), 8) == whole + places && whole != "" && |places| == 7
    ensures IsNumeric(whole) && IsNumeric(places)
    ensures ParseInt(whole) == amount / 10_000_000 && ParseInt(places) == amount % 10_000_000
  {
    hide ParseInt, Digits, ZeroDigits, Pow10;
    var digits := PadStart(Digits(amount), 8);
    ParseIntPadStart(Digits(amount), 8);
    whole, places := digits[..|digits| - 7], digits[|digits| - 7..];
    assert digits == whole + places && IsNumeric(whole) && IsNumeric(places);
    ParseIntConcat(whole, places);
    SevenPlaces();
    DigitsOfParseInt(places);
    Split(ParseInt(whole), ParseInt(places), amount);
  }

  lemma PrintsParts(text: string, whole: string, places: string)
    requires text != "" && text[0] != '-' && PadStart(text, 8) == whole + places && |places| == 7
    ensures var frac := StripZeros(places);
      && FormatSmallestUnits(text) == Written(false, whole, frac != "", frac)
      && FormatSmallestUnits("-" + text) == "-" + Written(false, whole, frac != "", frac)
  {
    hide *;
    PrintsCredit(text, whole, places);
    PrintsDebit(text);
  }

  lemma PrintsCredit(text: string, whole: string, places: string)
    requires text != "" && text[0] != '-' && PadStart(text, 8) == whole + places && |places| == 7
    ensures var frac := StripZeros(places); FormatSmallestUnits(text) == Written(false, whole, frac != "", frac)
  {
    hide StripZeros, PadStart;
    var digits := whole + places;
    assert digits[..|digits| - 7] == whole && digits[|digits| - 7..] == places;
  }

  lemma PrintsDebit(text: string)
    requires text != "" && text[0] != '-'
    ensures FormatSmallestUnits("-" + text) == "-" + FormatSmallestUnits(text)
  {
    hide StripZeros, PadStart;
    var minus := "-" + text;
    assert minus[1..] == text;
  }

  lemma Split(w: nat, f: nat, n: nat)
    requires n == w * 10_000_000 + f && f < 10_000_000
    ensures w == n / 10_000_000 && f == n % 10_000_000
  {}

  lemma {:induction false} Stripped(s: string)
    ensures StripZeros(s) != "" ==> StripZeros(s)[|StripZeros(s)| - 1] != '0'
  {
    if s != "" && s[|s| - 1] == '0' {
      Stripped(s[..|s| - 1]);
    }
  }
}
