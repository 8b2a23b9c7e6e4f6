/**
 Amounts of money as text and as whole stroops (ten million to a unit), on the server
 and in the browser: printing and parsing are inverse, and the two parsers agree.
 */
module AmountText {
  import opened Wrappers
  import opened Decimal
  import opened Int64

  const DECIMALS: nat := 7
  const STROOPS_PER_UNIT: nat := 10_000_000

  datatype AmountError = Empty | NotPositive | NotDecimal | TooManyPlaces | Overflow

  /** The part before the first dot and, if there is a dot, the part after it. */
  function SplitAtDot(s: string): (r: (string, Option<string>))
    ensures r.1.None? ==> r.0 == s && '.' !in s
    ensures r.1.Some? ==> s == r.0 + "." + r.1.value && '.' !in r.0
  {
    if s == "" then ("", None)
    else if s[0] == '.' then
      assert s == "" + "." + s[1..];
      ("", Some(s[1..]))
    else
      var (head, tail) := SplitAtDot(s[1..]);
      assert tail.Some? ==> s == [s[0]] + head + "." + tail.value;
      ([s[0]] + head, tail)
  }

  lemma {:induction false} SplitJoined(head: string, tail: string)
    requires '.' !in head
    ensures SplitAtDot(head) == (head, None)
    ensures SplitAtDot(head + "." + tail) == (head, Some(tail))
  {
    var s := head + "." + tail;
    if head == "" {
      assert s[0] == '.' && s[1..] == tail;
    } else {
      SplitJoined(head[1..], tail);
      assert s[1..] == head[1..] + "." + tail;
      assert [head[0]] + head[1..] == head;
    }
  }

  lemma NoDot(s: string)
    requires IsNumeric(s)
    ensures '.' !in s && '+' !in s && '-' !in s
  {}

  // ------------------------------------------------------------------
  // Server
  // ------------------------------------------------------------------

  /** Read-only loop over the characters. */
  method IsDigits(s: string) returns (b: bool)
    ensures b <==> IsNumeric(s)
  {
    for i := 0 to |s|
      invariant IsNumeric(s[..i])
    {
      if s[i] < '0' || s[i] > '9' {
        return false;
      }
    }
    assert s[..|s|] == s;
    return true;
  }

  /** Whole and fraction digits to stroops. */
  function StroopsOf(intPart: string, fracPart: string): nat
    requires IsNumeric(intPart) && IsNumeric(fracPart) && |fracPart| <= DECIMALS
  {
    ParseInt(intPart + fracPart + ZeroDigits(DECIMALS - |fracPart|))
  }

  function AmountToStroops(decimalText: string): Result<int64, AmountError>
  {
    if decimalText == "" then Failure(Empty)
    else if decimalText[0] == '-' then Failure(NotPositive)
    else
      var s := if decimalText[0] == '+' then decimalText[1..] else decimalText;
      var (intPart, rest) := SplitAtDot(s);
      var fracPart := if rest.Some? then rest.value else "";
      if intPart == "" || !IsNumeric(intPart) then Failure(NotDecimal)
      else if |fracPart| > DECIMALS then Failure(TooManyPlaces)
      else if fracPart != "" && !IsNumeric(fracPart) then Failure(NotDecimal)
      else
        var stroops := StroopsOf(intPart, fracPart);
        if stroops > INT64_MAX then Failure(Overflow)
        else if stroops <= 0 then Failure(NotPositive)
        else Success(stroops)
  }

  /** %d */
  function Signed(x: int): string
  {
    if x < 0 then "-" + Digits(-x) else Digits(x)
  }

  /** %07d; the sign counts towards the width. */
  function SignedPadded(x: int): string
  {
    if x < 0 then "-" + PadStart(Digits(-x), DECIMALS - 1) else PadStart(Digits(x), DECIMALS)
  }

  /** Negating the least value wraps around to itself. */
  function StroopsToAmount(stroops: int64): string
  {
    var magnitude := if stroops < 0 then Wrap(0 - stroops) else stroops;
    var whole := Quotient(magnitude, STROOPS_PER_UNIT);
    var frac := magnitude - whole * STROOPS_PER_UNIT;
    var s := Signed(whole) + "." + SignedPadded(frac);
    if stroops < 0 then "-" + s else s
  }

  // ------------------------------------------------------------------
  // Browser
  // ------------------------------------------------------------------

  /** The characters that String.prototype.trim removes. */
  predicate IsSpace(c: char)
  {
    || '\t' <= c <= '\r' || c == ' ' || c == '\U{A0}' || c == '\U{1680}' || '\U{2000}' <= c <= '\U{200A}'
    || c == '\U{2028}' || c == '\U{2029}' || c == '\U{202F}' || c == '\U{205F}' || c == '\U{3000}' || c == '\U{FEFF}'
  }

  function TrimStart(s: string): string
  {
    if s != "" && IsSpace(s[0]) then TrimStart(s[1..]) else s
  }

  function TrimEnd(s: string): string
  {
    if s != "" && IsSpace(s[|s| - 1]) then TrimEnd(s[..|s| - 1]) else s
  }

  function Trim(s: string): string { TrimEnd(TrimStart(s)) }

  /** Digits, then optionally a dot and one to seven digits. */
  predicate MatchesDecimal(s: string)
  {
    var (whole, frac) := SplitAtDot(s);
    && whole != "" && IsNumeric(whole)
    && (frac.Some? ==> 1 <= |frac.value| <= DECIMALS && IsNumeric(frac.value))
  }

  function ParseUsdcAmount(raw: string): Option<nat>
  {
    var s := Trim(raw);
    if !MatchesDecimal(s) then None else
      var (whole, rest) := SplitAtDot(s);
      var frac := if rest.Some? then ParseInt(rest.value + ZeroDigits(DECIMALS - |rest.value|)) else 0;
      var stroops := ParseInt(whole) * STROOPS_PER_UNIT + frac;
      if stroops > 0 then Some(stroops) else None
  }

  /** Without trailing zeros. */
  function StripZeros(s: string): (r: string)
    ensures |r| <= |s| && s == r + ZeroDigits(|s| - |r|)
  {
    if s != "" && s[|s| - 1] == '0' then
      var r := StripZeros(s[..|s| - 1]);
      assert s == s[..|s| - 1] + "0";
      assert ZeroDigits(|s| - |r|) == ZeroDigits(|s| - 1 - |r|) + "0";
      r
    else s
  }

  function FormatSmallestUnits(amount: string): string
  {
    var negative := amount != "" && amount[0] == '-';
    var digits := PadStart(if negative then amount[1..] else amount, DECIMALS + 1);
    var whole := digits[..|digits| - DECIMALS];
    var frac := StripZeros(digits[|digits| - DECIMALS..]);
    (if negative then "-" else "") + whole + if frac != "" then "." + frac else ""
  }

  // ------------------------------------------------------------------
  // Round trips
  // ------------------------------------------------------------------

  lemma SevenPlaces()
    ensures Pow10(7) == STROOPS_PER_UNIT
  {
    assert Pow10(4) == 10000;
  }

  lemma StroopsOfParts(intPart: string, fracPart: string)
    requires IsNumeric(intPart) && IsNumeric(fracPart) && |fracPart| <= DECIMALS
    ensures IsNumeric(fracPart + ZeroDigits(DECIMALS - |fracPart|))
    ensures StroopsOf(intPart, fracPart)
         == ParseInt(intPart) * STROOPS_PER_UNIT + ParseInt(fracPart + ZeroDigits(DECIMALS - |fracPart|))
  {
    hide ParseInt, ZeroDigits, Pow10;
    SevenPlaces();
    var padded := fracPart + ZeroDigits(DECIMALS - |fracPart|);
    ParseIntConcat(fracPart, ZeroDigits(DECIMALS - |fracPart|));
    ParseIntConcat(intPart, padded);
    assert intPart + fracPart + ZeroDigits(DECIMALS - |fracPart|) == intPart + padded;
  }

  /** What the server prints it reads back. */
  lemma StroopsRoundTrip(stroops: int64)
    requires stroops > 0
    ensures AmountToStroops(StroopsToAmount(stroops)) == Success(stroops)
  {
    hide ParseInt, Digits, SplitAtDot, ZeroDigits, PadStart, Pow10;
    var whole, frac := stroops / STROOPS_PER_UNIT, stroops % STROOPS_PER_UNIT;
    var w, f := Digits(whole), PadStart(Digits(frac), DECIMALS);
    FractionWidth(frac);
    ParseIntPadStart(Digits(frac), DECIMALS);
    NoDot(w);
    NoDot(f);
    SplitJoined(w, f);
    var text := w + "." + f;
    assert StroopsToAmount(stroops) == text;
    assert text[0] == w[0] && w[0] in w;
    StroopsOfParts(w, f);
    NoZeros(f);
  }

  lemma NoZeros(f: string)
    ensures f + ZeroDigits(0) == f
  {}

  lemma FractionWidth(frac: nat)
    requires frac < STROOPS_PER_UNIT
    ensures |Digits(frac)| <= DECIMALS
  {
    SevenPlaces();
    DigitsWidth(frac, 7);
  }

  lemma {:induction false} DigitsWidth(n: nat, width: nat)
    requires n < Pow10(width) && width >= 1
    ensures |Digits(n)| <= width
  {
    if n >= 10 {
      DigitsWidth(n / 10, width - 1);
    }
  }

  lemma TrimNothing(s: string)
    requires s != "" && !IsSpace(s[0]) && !IsSpace(s[|s| - 1])
    ensures Trim(s) == s
  {}

  lemma JoinedMatches(whole: string, frac: string, text: string)
    requires whole != "" && IsNumeric(whole) && IsNumeric(frac) && |frac| <= DECIMALS
    requires text == if frac == "" then whole else whole + "." + frac
    ensures MatchesDecimal(text)
    ensures SplitAtDot(text) == (whole, if frac == "" then None else Some(frac))
  {
    hide SplitAtDot;
    NoDot(whole);
    SplitJoined(whole, frac);
  }

  /** The browser's value of digits, with a fraction unless it is empty. */
  lemma BrowserValue(whole: string, frac: string, text: string)
    requires whole != "" && IsNumeric(whole) && IsNumeric(frac) && |frac| <= DECIMALS
    requires text == if frac == "" then whole else whole + "." + frac
    ensures IsNumeric(frac + ZeroDigits(DECIMALS - |frac|))
    ensures var v := ParseInt(whole) * STROOPS_PER_UNIT + ParseInt(frac + ZeroDigits(DECIMALS - |frac|));
      ParseUsdcAmount(text) == if v > 0 then Some(v) else None
  {
    hide ParseInt, SplitAtDot, ZeroDigits, Trim, IsSpace, MatchesDecimal;
    JoinedMatches(whole, frac, text);
    PrintedTrimmed(whole, frac, text);
    if frac == "" {
      assert frac + ZeroDigits(DECIMALS) == ZeroDigits(DECIMALS);
      ParseIntZeroDigits(DECIMALS);
    }
  }

  /** What the browser prints it reads back, for amounts of any size. */
  lemma SmallestUnitsRoundTrip(amount: nat)
    requires amount > 0
    ensures ParseUsdcAmount(FormatSmallestUnits(Digits(amount))) == Some(amount)
  {
    hide ParseInt, Digits, ZeroDigits, PadStart, Pow10, StripZeros, ParseUsdcAmount;
    var text := Digits(amount);
    NoDot(text);
    assert text[0] in text;
    var digits := PadStart(text, DECIMALS + 1);
    ParseIntPadStart(text, DECIMALS + 1);
    var whole, places := digits[..|digits| - DECIMALS], digits[|digits| - DECIMALS..];
    var frac := StripZeros(places);
    assert digits == whole + places && IsNumeric(whole) && IsNumeric(places);
    ParseIntConcat(whole, places);
    SevenPlaces();
    NumericPrefix(frac, places);
    BrowserValue(whole, frac, FormatSmallestUnits(text));
  }

  lemma NumericPrefix(frac: string, places: string)
    requires IsNumeric(places) && frac <= places
    ensures IsNumeric(frac)
  {}

  lemma PrintedTrimmed(whole: string, frac: string, printed: string)
    requires whole != "" && IsNumeric(whole) && IsNumeric(frac)
    requires printed == if frac == "" then whole else whole + "." + frac
    ensures Trim(printed) == printed
  {
    TrimNothing(printed);
  }

  // ------------------------------------------------------------------
  // Agreement
  // ------------------------------------------------------------------

  /** The server's value of the same. */
  lemma ServerValue(whole: string, frac: string, text: string)
    requires whole != "" && IsNumeric(whole) && IsNumeric(frac) && |frac| <= DECIMALS
    requires text == if frac == "" then whole else whole + "." + frac
    ensures IsNumeric(frac + ZeroDigits(DECIMALS - |frac|))
    ensures var v := ParseInt(whole) * STROOPS_PER_UNIT + ParseInt(frac + ZeroDigits(DECIMALS - |frac|));
      0 < v <= INT64_MAX ==> AmountToStroops(text) == Success(v)
  {
    hide ParseInt, SplitAtDot, ZeroDigits;
    NoDot(whole);
    assert text[0] == whole[0] && whole[0] in whole;
    SplitJoined(whole, frac);
    StroopsOfParts(whole, frac);
  }

  /** Text without surrounding white space that the browser accepts has the same value on the server. */
  lemma ServerFollowsBrowser(text: string, v: nat)
    requires Trim(text) == text && ParseUsdcAmount(text) == Some(v) && v <= INT64_MAX
    ensures AmountToStroops(text) == Success(v)
  {
    hide ParseInt, ZeroDigits, Trim, SplitAtDot, AmountToStroops;
    var (whole, rest) := SplitAtDot(text);
    var frac := if rest.Some? then rest.value else "";
    BrowserValue(whole, frac, text);
    ServerValue(whole, frac, text);
  }

  /** The server accepts more than the browser: exactly a leading plus sign and a trailing dot. */
  lemma BrowserFollowsServerIff(text: string, v: int64)
    requires AmountToStroops(text) == Success(v)
    ensures ParseUsdcAmount(text) == Some(v) <==> text[0] != '+' && text[|text| - 1] != '.'
  {
    hide ParseInt, ZeroDigits, SplitAtDot, ParseUsdcAmount;
    var s := if text[0] == '+' then text[1..] else text;
    var (intPart, rest) := SplitAtDot(s);
    var frac := if rest.Some? then rest.value else "";
    AcceptedEnds(text, intPart, rest);
    if text[0] == '+' || rest == Some("") {
      NotForBrowser(text);
    } else {
      StroopsOfParts(intPart, frac);
      BrowserValue(intPart, frac, text);
    }
  }

  lemma NotForBrowser(text: string)
    requires text != "" && !IsSpace(text[0]) && !IsSpace(text[|text| - 1])
    requires text[0] == '+' || text[|text| - 1] == '.'
    ensures ParseUsdcAmount(text) == None
  {
    TrimNothing(text);
    if MatchesDecimal(text) {
      MatchingEnds(text);
    }
  }

  lemma MatchingEnds(text: string)
    requires MatchesDecimal(text)
    ensures text != "" && text[0] != '+' && text[|text| - 1] != '.'
  {
    hide SplitAtDot;
    var (whole, frac) := SplitAtDot(text);
    NoDot(whole);
    assert text[0] == whole[0] && whole[0] in whole;
    if frac.Some? {
      NoDot(frac.value);
      assert text[|text| - 1] == frac.value[|frac.value| - 1];
    }
  }

  /** One unit with a leading plus sign, and with a trailing dot: accepted by the server, refused by the browser. */
  lemma OnlyServerAccepts()
    ensures AmountToStroops("+1") == Success(STROOPS_PER_UNIT) && ParseUsdcAmount("+1") == None
    ensures AmountToStroops("1.") == Success(STROOPS_PER_UNIT) && ParseUsdcAmount("1.") == None
  {
    SplitJoined("1", "");
    assert "1" + "." + "" == "1.";
    assert "+1"[1..] == "1";
    OneUnit();
    NotSpaces();
    NotForBrowser("+1");
    NotForBrowser("1.");
    hide ParseUsdcAmount, StroopsOf, SplitAtDot;
    assert AmountToStroops("+1") == Success(STROOPS_PER_UNIT);
    assert AmountToStroops("1.") == Success(STROOPS_PER_UNIT);
  }

  lemma OneUnit()
    ensures StroopsOf("1", "") == STROOPS_PER_UNIT
  {
    StroopsOfParts("1", "");
    assert "" + ZeroDigits(DECIMALS) == ZeroDigits(DECIMALS);
    ParseIntZeroDigits(DECIMALS);
    assert "1"[..0] == "";
  }

  lemma NotSpaces()
    ensures !IsSpace('1') && !IsSpace('+') && !IsSpace('.')
  {}

  /** An accepted text neither starts nor ends with white space, and ends with a dot only if nothing follows it. */
  lemma AcceptedEnds(text: string, intPart: string, rest: Option<string>)
    requires text != "" && intPart != "" && IsNumeric(intPart)
    requires rest.Some? ==> IsNumeric(rest.value)
    requires SplitAtDot(if text[0] == '+' then text[1..] else text) == (intPart, rest)
    ensures !IsSpace(text[0]) && !IsSpace(text[|text| - 1])
    ensures text[|text| - 1] == '.' <==> rest == Some("")
  {
    hide SplitAtDot, IsSpace;
    var s := if text[0] == '+' then text[1..] else text;
    PartsNotSpace(intPart, rest, s);
    assert text[|text| - 1] == s[|s| - 1];
    assert text[0] == '+' || text[0] == s[0];
    assert !IsSpace('+') by { PlusNotSpace(); }
  }

  lemma PlusNotSpace()
    ensures !IsSpace('+') && !IsSpace('.') && forall c: char :: '0' <= c <= '9' ==> !IsSpace(c)
  {}

  lemma PartsNotSpace(intPart: string, rest: Option<string>, s: string)
    requires intPart != "" && IsNumeric(intPart) && (rest.Some? ==> IsNumeric(rest.value))
    requires s == if rest.Some? then intPart + "." + rest.value else intPart
    ensures !IsSpace(s[0]) && !IsSpace(s[|s| - 1])
    ensures s[|s| - 1] == '.' <==> rest == Some("")
  {
    hide IsSpace;
    PlusNotSpace();
    NoDot(intPart);
    if rest.Some? && rest.value != "" {
      NoDot(rest.value);
      assert s[|s| - 1] == rest.value[|rest.value| - 1];
    }
  }

  /** All amounts of a list together; none if one is malformed. */
  function SumUsdcAmounts(amounts: seq<string>): Option<nat>
  {
    if amounts == [] then Some(0)
    else
      var acc, v := SumUsdcAmounts(amounts[..|amounts| - 1]), ParseUsdcAmount(amounts[|amounts| - 1]);
      if acc.None? || v.None? then None else Some(acc.value + v.value)
  }
}
