/**
 Data segments (section 7.4 of ISO/IEC 18004:2015): numeric, alphanumeric, byte and
 ECI payloads are packed into bits behind a mode indicator and a character count.
 A parser of such bit streams returns every payload that was packed.
 */
module Segments {
  import opened Wrappers
  import opened Bits
  import opened Decimal
  import opened Numbers
  import opened Utf8

  datatype Mode = NUMERIC | ALPHANUMERIC | BYTE | ECI {

    function ModeBits(): nat
    {
      match this
      case NUMERIC => 1
      case ALPHANUMERIC => 2
      case BYTE => 4
      case ECI => 7
    }

    /** The width of the character count field. */
    function NumCharCountBits(ver: int): (n: nat)
      ensures n <= 16
    {
      var group := (ver + 7) / 17;
      match this
      case NUMERIC => if group == 0 then 10 else if group == 1 then 12 else 14
      case ALPHANUMERIC => if group == 0 then 9 else if group == 1 then 11 else 13
      case BYTE => if group == 0 then 8 else 16
      case ECI => 0
    }
  }

  datatype Segment = Segment(mode: Mode, numChars: nat, bitData: seq<bool>)

  datatype SegmentError = NonNumeric | Unencodable | EciOutOfRange

  /** What a segment says. */
  datatype Payload = Digits(digits: string) | Text(text: string) | Bytes(bytes: seq<byte>) | Designator(value: nat)

  // ------------------------------------------------------------------
  // Characters
  // ------------------------------------------------------------------

  const ALPHANUMERIC_CHARSET: string := "0123456789ABCDEFGHIJKLMNOPQRSTUVWXYZ $%*+-./:"

  predicate InCharset(c: char) { c in ALPHANUMERIC_CHARSET }

  predicate IsAlphanumeric(text: string)
  {
    forall i :: 0 <= i < |text| ==> InCharset(text[i])
  }

  function IndexIn(s: string, c: char): (k: nat)
    requires c in s
    ensures k < |s| && s[k] == c
  {
    if s[0] == c then 0 else 1 + IndexIn(s[1..], c)
  }

  /** The value of an alphanumeric character. */
  function IndexOf(c: char): (k: nat)
    requires InCharset(c)
    ensures k < 45 && ALPHANUMERIC_CHARSET[k] == c
  {
    IndexIn(ALPHANUMERIC_CHARSET, c)
  }

  // ------------------------------------------------------------------
  // Payload bits
  // ------------------------------------------------------------------

  function NumericBits(digits: string): seq<bool>
    requires IsNumeric(digits)
  {
    if digits == "" then [] else
      var n := Min(|digits|, 3);
      BitsOf(ParseInt(digits[..n]), n * 3 + 1) + NumericBits(digits[n..])
  }

  function AlphanumericBits(text: string): seq<bool>
    requires IsAlphanumeric(text)
  {
    if text == "" then []
    else if |text| == 1 then BitsOf(IndexOf(text[0]), 6)
    else BitsOf(IndexOf(text[0]) * 45 + IndexOf(text[1]), 11) + AlphanumericBits(text[2..])
  }

  function ByteBits(data: seq<byte>): seq<bool>
  {
    if data == [] then [] else data[0] + ByteBits(data[1..])
  }

  function EciBits(value: nat): seq<bool>
    requires value < 1000000
  {
    if value < 128 then BitsOf(value, 8)
    else if value < 16384 then BitsOf(2, 2) + BitsOf(value, 14)
    else BitsOf(6, 3) + BitsOf(value, 21)
  }

  ghost predicate Encodable(p: Payload)
  {
    match p
    case Digits(s) => IsNumeric(s)
    case Text(s) => IsAlphanumeric(s)
    case Bytes(_) => true
    case Designator(v) => v < 1000000
  }

  ghost function SegmentOf(p: Payload): Segment
    requires Encodable(p)
  {
    match p
    case Digits(s) => Segment(NUMERIC, |s|, NumericBits(s))
    case Text(s) => Segment(ALPHANUMERIC, |s|, AlphanumericBits(s))
    case Bytes(b) => Segment(BYTE, |b|, ByteBits(b))
    case Designator(v) => Segment(ECI, 0, EciBits(v))
  }

  /** Header and data of one segment. */
  function SegmentBits(seg: Segment, ver: int): seq<bool>
  {
    BitsOf(seg.mode.ModeBits(), 4) + BitsOf(seg.numChars, seg.mode.NumCharCountBits(ver)) + seg.bitData
  }

  function SegmentsBits(segs: seq<Segment>, ver: int): seq<bool>
  {
    if segs == [] then []
    else SegmentsBits(segs[..|segs| - 1], ver) + SegmentBits(segs[|segs| - 1], ver)
  }

  // ------------------------------------------------------------------
  // Factories
  // ------------------------------------------------------------------

  /** val >>> i */
  function ShiftRight(val: nat, i: nat): nat
  {
    if i == 0 then val else ShiftRight(val / 2, i - 1)
  }

  /** Appends the low-order bits of a value to a bit buffer. */
  method AppendBits(val: nat, len: nat, bb: seq<bool>) returns (r: seq<bool>)
    requires len <= 31 && val < Pow2(len)
    ensures r == bb + BitsOf(val, len)
  {
    hide BitsOf, ShiftRight;
    r := bb;
    ghost var bits := BitsOf(val, len);
    var i := len - 1;
    while i >= 0
      invariant -1 <= i < len
      invariant r == bb + bits[..len - 1 - i]
    {
      BitOf(val, len, i);
      r := r + [ShiftRight(val, i) % 2 == 1];
      i := i - 1;
    }
  }

  lemma {:induction false} BitOf(val: nat, len: nat, i: nat)
    requires i < len
    ensures BitsOf(val, len)[len - 1 - i] == (ShiftRight(val, i) % 2 == 1)
  {
    if i > 0 {
      BitOf(val / 2, len - 1, i - 1);
    }
  }

  /** The field widths in use. */
  lemma Widths()
    ensures Pow2(2) == 4 && Pow2(3) == 8 && Pow2(4) == 16 && Pow2(6) == 64 && Pow2(7) == 128
    ensures Pow2(8) == 256 && Pow2(10) == 1024 && Pow2(11) == 2048 && Pow2(14) == 16384 && Pow2(21) == 2097152
  {
    assert Pow2(7) == 128;
    assert Pow2(14) == 16384;
  }

  method MakeBytes(data: seq<byte>) returns (seg: Segment)
    ensures seg == SegmentOf(Bytes(data))
  {
    var bb := PackBytes(data);
    return Segment(BYTE, |data|, bb);
  }

  method PackBytes(data: seq<byte>) returns (bb: seq<bool>)
    ensures bb == ByteBits(data)
  {
    hide BitsOf, NatOf, Pow2, ByteBits;
    Widths();
    BytesStart(data);
    bb := [];
    for i := 0 to |data|
      invariant bb + ByteBits(data[i..]) == ByteBits(data)
    {
      BitsOfNatOf(data[i]);
      BytesStep(data, i);
      Regroup(bb, data[i], ByteBits(data[i + 1..]));
      bb := AppendBits(NatOf(data[i]), 8, bb);
    }
  }

  lemma BytesStart(data: seq<byte>)
    ensures data[0..] == data && ByteBits(data[|data|..]) == []
  {}

  lemma BytesStep(data: seq<byte>, i: nat)
    requires i < |data|
    ensures ByteBits(data[i..]) == data[i] + ByteBits(data[i + 1..])
  {
    assert data[i..][1..] == data[i + 1..];
  }

  method MakeNumeric(digits: string) returns (r: Result<Segment, SegmentError>)
    ensures r == if IsNumeric(digits) then Success(SegmentOf(Digits(digits))) else Failure(NonNumeric)
  {
    if !IsNumeric(digits) {
      return Failure(NonNumeric);
    }
    var bb := PackDigits(digits);
    return Success(Segment(NUMERIC, |digits|, bb));
  }

  /** Consumes up to three digits per iteration. */
  method PackDigits(digits: string) returns (bb: seq<bool>)
    requires IsNumeric(digits)
    ensures bb == NumericBits(digits)
  {
    hide BitsOf, Pow2, ParseInt, NumericBits;
    bb := [];
    NumericStart(digits);
    var i := 0;
    while i < |digits|
      invariant i <= |digits|
      invariant bb + NumericBits(digits[i..]) == NumericBits(digits)
    {
      var n := Min(|digits| - i, 3);
      var group := digits[i..i + n];
      GroupFits(group);
      NumericStep(digits, i);
      Regroup(bb, BitsOf(ParseInt(group), n * 3 + 1), NumericBits(digits[i + n..]));
      bb := AppendBits(ParseInt(group), n * 3 + 1, bb);
      i := i + n;
    }
  }

  lemma Regroup(a: seq<bool>, b: seq<bool>, c: seq<bool>)
    ensures a + (b + c) == (a + b) + c
  {}

  lemma NumericStart(digits: string)
    requires IsNumeric(digits)
    ensures digits[0..] == digits && NumericBits(digits[|digits|..]) == []
  {}

  lemma NumericStep(digits: string, i: nat)
    requires IsNumeric(digits) && i < |digits|
    ensures var n := Min(|digits| - i, 3);
      NumericBits(digits[i..]) == BitsOf(ParseInt(digits[i..i + n]), n * 3 + 1) + NumericBits(digits[i + n..])
  {
    hide BitsOf, ParseInt;
    var n := Min(|digits| - i, 3);
    assert digits[i..][..n] == digits[i..i + n] && digits[i..][n..] == digits[i + n..];
  }

  lemma AlphanumericStart(text: string)
    requires IsAlphanumeric(text)
    ensures text[0..] == text && AlphanumericBits(text[|text|..]) == []
  {}

  lemma AlphanumericStep(text: string, i: nat)
    requires IsAlphanumeric(text) && i < |text|
    ensures AlphanumericBits(text[i..]) ==
              if i + 1 == |text| then BitsOf(IndexOf(text[i]), 6)
              else BitsOf(IndexOf(text[i]) * 45 + IndexOf(text[i + 1]), 11) + AlphanumericBits(text[i + 2..])
  {
    hide BitsOf, IndexOf;
    if i + 1 < |text| {
      assert text[i..][2..] == text[i + 2..];
    }
  }

  /** A group of up to three digits fits its field. */
  lemma GroupFits(group: string)
    requires 1 <= |group| <= 3 && IsNumeric(group)
    ensures ParseInt(group) < Pow2(|group| * 3 + 1)
  {
    DigitsOfParseInt(group);
    assert Pow10(1) == 10 && Pow10(2) == 100 && Pow10(3) == 1000;
    Widths();
  }

  method MakeAlphanumeric(text: string) returns (r: Result<Segment, SegmentError>)
    ensures r == if IsAlphanumeric(text) then Success(SegmentOf(Text(text))) else Failure(Unencodable)
  {
    if !IsAlphanumeric(text) {
      return Failure(Unencodable);
    }
    var bb := PackText(text);
    return Success(Segment(ALPHANUMERIC, |text|, bb));
  }

  /** Groups of two characters, and one remaining character if the length is odd. */
  method PackText(text: string) returns (bb: seq<bool>)
    requires IsAlphanumeric(text)
    ensures bb == AlphanumericBits(text)
  {
    hide IndexOf, BitsOf, Pow2, AlphanumericBits;
    Widths();
    AlphanumericStart(text);
    bb := [];
    var i := 0;
    while i + 2 <= |text|
      invariant i <= |text|
      invariant bb + AlphanumericBits(text[i..]) == AlphanumericBits(text)
    {
      var temp := IndexOf(text[i]) * 45;
      temp := temp + IndexOf(text[i + 1]);
      AlphanumericStep(text, i);
      Regroup(bb, BitsOf(temp, 11), AlphanumericBits(text[i + 2..]));
      bb := AppendBits(temp, 11, bb);
      i := i + 2;
    }
    if i < |text| {
      AlphanumericStep(text, i);
      bb := AppendBits(IndexOf(text[i]), 6, bb);
    }
  }

  method MakeEci(assignVal: int) returns (r: Result<Segment, SegmentError>)
    ensures r == if 0 <= assignVal < 1000000 then Success(SegmentOf(Designator(assignVal))) else Failure(EciOutOfRange)
  {
    hide BitsOf, Pow2;
    Widths();
    var bb: seq<bool> := [];
    if assignVal < 0 {
      return Failure(EciOutOfRange);
    } else if assignVal < 128 {
      bb := AppendBits(assignVal, 8, bb);
    } else if assignVal < 16384 {
      bb := AppendBits(2, 2, bb);
      bb := AppendBits(assignVal, 14, bb);
    } else if assignVal < 1000000 {
      bb := AppendBits(6, 3, bb);
      bb := AppendBits(assignVal, 21, bb);
    } else {
      return Failure(EciOutOfRange);
    }
    assert bb == EciBits(assignVal);
    return Success(Segment(ECI, 0, bb));
  }

  /** What a text is packed as: numeric if possible, else alphanumeric if possible, else its UTF-8 bytes. */
  function PayloadsOf(text: string): seq<Payload>
  {
    if text == "" then []
    else if IsNumeric(text) then [Digits(text)]
    else if IsAlphanumeric(text) then [Text(text)]
    else [Bytes(Utf8Bytes(text))]
  }

  method MakeSegments(text: string) returns (segs: seq<Segment>)
    ensures AllEncodable(PayloadsOf(text)) && segs == SegmentsOf(PayloadsOf(text))
  {
    hide SegmentOf, Utf8Bytes;
    if text == "" {
      return [];
    } else if IsNumeric(text) {
      var seg := MakeNumeric(text);
      return [seg.value];
    } else if IsAlphanumeric(text) {
      var seg := MakeAlphanumeric(text);
      return [seg.value];
    } else {
      var bytes := ToUtf8ByteArray(text);
      var seg := MakeBytes(bytes);
      return [seg];
    }
  }

  /** The text that a list of payloads says, if it says one. */
  function TextOf(ps: seq<Payload>): Option<string>
  {
    if ps == [] then Some("")
    else if |ps| > 1 then None
    else
      match ps[0]
      case Digits(s) => Some(s)
      case Text(s) => Some(s)
      case Bytes(b) => DecodeBytes(b)
      case Designator(_) => None
  }

  /** However a text is packed, its payloads say the text. */
  lemma PayloadsSayText(text: string)
    ensures TextOf(PayloadsOf(text)) == Some(text)
  {
    hide DecodeBytes, Utf8Bytes;
    Utf8ReadsBack(text);
  }

  /** The bits all segments need at a version, or None if a count does not fit its field. */
  method GetTotalBits(segs: seq<Segment>, version: int) returns (result: Option<nat>)
    ensures result.Some? <==> CountsFit(segs, version)
    ensures result.Some? ==> result.value == |SegmentsBits(segs, version)|
  {
    hide BitsOf, Pow2, Mode.NumCharCountBits;
    var total := 0;
    for i := 0 to |segs|
      invariant CountsFit(segs[..i], version)
      invariant total == |SegmentsBits(segs[..i], version)|
    {
      var seg := segs[i];
      var ccbits := seg.mode.NumCharCountBits(version);
      if seg.numChars >= Pow2(ccbits) {
        return None;
      }
      assert segs[..i + 1][..i] == segs[..i];
      total := total + 4 + ccbits + |seg.bitData|;
    }
    assert segs[..|segs|] == segs;
    return Some(total);
  }

  /** Every character count fits its field. */
  ghost predicate CountsFit(segs: seq<Segment>, ver: int)
  {
    forall i :: 0 <= i < |segs| ==> segs[i].numChars < Pow2(segs[i].mode.NumCharCountBits(ver))
  }

  // ------------------------------------------------------------------
  // Parsing, by the tables of the standard alone
  // ------------------------------------------------------------------

  /** The width of the character count field (table 3). */
  function CountWidth(mode: Mode, ver: int): nat
  {
    match mode
    case NUMERIC => if ver <= 9 then 10 else if ver <= 26 then 12 else 14
    case ALPHANUMERIC => if ver <= 9 then 9 else if ver <= 26 then 11 else 13
    case BYTE => if ver <= 9 then 8 else 16
    case ECI => 0
  }

  /** The character of a value (table 5). */
  function CharAt(k: nat): char
  {
    if k < 10 then "0123456789"[k]
    else if k < 36 then "ABCDEFGHIJKLMNOPQRSTUVWXYZ"[k - 10]
    else if k < 45 then " $%*+-./:"[k - 36]
    else '?'
  }

  /** One, two or three digits. */
  function DigitGroup(v: nat, n: nat): string
  {
    if n == 1 then [CharAt(v)]
    else if n == 2 then [CharAt(v / 10), CharAt(v % 10)]
    else [CharAt(v / 100), CharAt(v / 10 % 10), CharAt(v % 10)]
  }

  /** `count` digits from the front of a bit string, and the rest. */
  function ReadDigits(count: nat, bits: seq<bool>): Option<(string, seq<bool>)>
    decreases count
  {
    if count == 0 then Some(("", bits)) else
      var n := Min(count, 3);
      if |bits| < n * 3 + 1 then None else
        match ReadDigits(count - n, bits[n * 3 + 1..])
        case None => None
        case Some((s, rest)) => Some((DigitGroup(NatOf(bits[..n * 3 + 1]), n) + s, rest))
  }

  function ReadText(count: nat, bits: seq<bool>): Option<(string, seq<bool>)>
    decreases count
  {
    if count == 0 then Some(("", bits))
    else if count == 1 then
      if |bits| < 6 then None else Some(([CharAt(NatOf(bits[..6]))], bits[6..]))
    else if |bits| < 11 then None
    else
      var v := NatOf(bits[..11]);
      match ReadText(count - 2, bits[11..])
      case None => None
      case Some((s, rest)) => Some(([CharAt(v / 45), CharAt(v % 45)] + s, rest))
  }

  function ReadBytes(count: nat, bits: seq<bool>): Option<(seq<byte>, seq<bool>)>
    decreases count
  {
    if count == 0 then Some(([], bits))
    else if |bits| < 8 then None
    else
      match ReadBytes(count - 1, bits[8..])
      case None => None
      case Some((s, rest)) => Some(([bits[..8]] + s, rest))
  }

  function ReadDesignator(bits: seq<bool>): Option<(nat, seq<bool>)>
  {
    if |bits| >= 8 && !bits[0] then Some((NatOf(bits[..8]), bits[8..]))
    else if |bits| >= 16 && !bits[1] then Some((NatOf(bits[2..16]), bits[16..]))
    else if |bits| >= 24 && !bits[2] then Some((NatOf(bits[3..24]), bits[24..]))
    else None
  }

  function ReadPayload(mode: Mode, count: nat, bits: seq<bool>): Option<(Payload, seq<bool>)>
  {
    match mode
    case NUMERIC => (match ReadDigits(count, bits) case None => None case Some((s, r)) => Some((Digits(s), r)))
    case ALPHANUMERIC => (match ReadText(count, bits) case None => None case Some((s, r)) => Some((Text(s), r)))
    case BYTE => (match ReadBytes(count, bits) case None => None case Some((s, r)) => Some((Bytes(s), r)))
    case ECI => (match ReadDesignator(bits) case None => None case Some((v, r)) => Some((Designator(v), r)))
  }

  function ModeOf(modeBits: nat): Option<Mode>
  {
    match modeBits
    case 1 => Some(NUMERIC)
    case 2 => Some(ALPHANUMERIC)
    case 4 => Some(BYTE)
    case 7 => Some(ECI)
    case _ => None
  }

  /** One segment from the front of a bit string, and the rest. */
  function ReadSegment(bits: seq<bool>, ver: int): Option<(Payload, seq<bool>)>
  {
    if |bits| < 4 then None else
      match ModeOf(NatOf(bits[..4]))
      case None => None
      case Some(mode) =>
        var cc := 4 + CountWidth(mode, ver);
        if |bits| < cc then None else ReadPayload(mode, NatOf(bits[4..cc]), bits[cc..])
  }

  /** A terminator: four zero bits, or too few bits left for a mode indicator. */
  predicate AtEnd(bits: seq<bool>)
  {
    |bits| < 4 || bits[..4] == Zeros(4)
  }

  function Parse(bits: seq<bool>, ver: int): Option<seq<Payload>>
    decreases |bits|
  {
    if AtEnd(bits) then Some([]) else
      match ReadSegment(bits, ver)
      case None => None
      case Some((p, rest)) =>
        if |rest| >= |bits| then None else
          match Parse(rest, ver)
          case None => None
          case Some(ps) => Some([p] + ps)
  }

  // ------------------------------------------------------------------
  // Round trip
  // ------------------------------------------------------------------

  /** The generator's widths are those of the standard. */
  lemma WidthsAgree(mode: Mode, ver: int)
    requires 1 <= ver <= 40
    ensures mode.NumCharCountBits(ver) == CountWidth(mode, ver)
  {}

  lemma DigitsAgree(group: string)
    requires 1 <= |group| <= 3 && IsNumeric(group)
    ensures DigitGroup(ParseInt(group), |group|) == group
  {
    hide CharAt;
    if |group| == 1 {
      assert group[..0] == "";
      DigitIs(group[0]);
    } else if |group| == 2 {
      assert group[..1][..0] == "";
      SplitTen((group[0] - '0') as nat, (group[1] - '0') as nat);
      DigitIs(group[0]);
      DigitIs(group[1]);
    } else {
      ThreeDigits(group);
    }
  }

  lemma ThreeDigits(group: string)
    requires |group| == 3 && IsNumeric(group)
    ensures DigitGroup(ParseInt(group), 3) == group
  {
    hide CharAt;
    var a, b, c := (group[0] - '0') as nat, (group[1] - '0') as nat, (group[2] - '0') as nat;
    assert group[..2][..1] == group[..1] && group[..1][..0] == "";
    assert ParseInt(group[..1]) == a;
    assert ParseInt(group[..2]) == 10 * a + b;
    assert ParseInt(group) == 10 * (10 * a + b) + c;
    SplitTen(a, b);
    SplitTen(10 * a + b, c);
    assert (100 * a + 10 * b + c) / 100 == a;
    DigitIs(group[0]);
    DigitIs(group[1]);
    DigitIs(group[2]);
  }

  lemma SplitTen(x: nat, c: nat)
    requires c < 10
    ensures (10 * x + c) / 10 == x && (10 * x + c) % 10 == c
  {}

  lemma DigitIs(c: char)
    requires '0' <= c <= '9'
    ensures CharAt((c - '0') as nat) == c
  {
    var k := (c - '0') as nat;
    assert k == 0 || k == 1 || k == 2 || k == 3 || k == 4 || k == 5 || k == 6 || k == 7 || k == 8 || k == 9;
  }

  lemma SplitAt(a: seq<bool>, b: seq<bool>, n: nat)
    requires n == |a|
    ensures (a + b)[..n] == a && (a + b)[n..] == b
  {}

  lemma {:induction false} DigitsReadBack(digits: string, rest: seq<bool>)
    requires IsNumeric(digits)
    ensures ReadDigits(|digits|, NumericBits(digits) + rest) == Some((digits, rest))
    decreases |digits|
  {
    hide BitsOf, NatOf, Pow2, ParseInt, DigitGroup;
    if digits == "" {
      assert NumericBits(digits) + rest == rest;
    } else {
      var n := Min(|digits|, 3);
      var group, field := digits[..n], BitsOf(ParseInt(digits[..n]), n * 3 + 1);
      var tail := NumericBits(digits[n..]) + rest;
      assert NumericBits(digits) + rest == field + tail;
      SplitAt(field, tail, n * 3 + 1);
      GroupFits(group);
      NatOfBitsOf(ParseInt(group), n * 3 + 1);
      DigitsAgree(group);
      DigitsReadBack(digits[n..], rest);
      assert group + digits[n..] == digits;
    }
  }

  lemma CharAtIndex(a: char)
    requires InCharset(a)
    ensures CharAt(IndexOf(a)) == a && IndexOf(a) < 45
  {
    hide IndexOf;
    CharsetAgrees(IndexOf(a));
  }

  /** The character set of the generator is the table of the standard. */
  lemma CharsetAgrees(k: nat)
    requires k < 45
    ensures |ALPHANUMERIC_CHARSET| == 45 && ALPHANUMERIC_CHARSET[k] == CharAt(k)
  {
    if k < 15 {
      assert k == 0 || k == 1 || k == 2 || k == 3 || k == 4 || k == 5 || k == 6 || k == 7 || k == 8 || k == 9 || k == 10
             || k == 11 || k == 12 || k == 13 || k == 14;
    } else if k < 30 {
      assert k == 15 || k == 16 || k == 17 || k == 18 || k == 19 || k == 20 || k == 21 || k == 22 || k == 23 || k == 24
             || k == 25 || k == 26 || k == 27 || k == 28 || k == 29;
    } else {
      assert k == 30 || k == 31 || k == 32 || k == 33 || k == 34 || k == 35 || k == 36 || k == 37 || k == 38 || k == 39
             || k == 40 || k == 41 || k == 42 || k == 43 || k == 44;
    }
  }

  lemma SplitPair(x: nat, y: nat)
    requires y < 45
    ensures (x * 45 + y) / 45 == x && (x * 45 + y) % 45 == y
  {}

  lemma PairReadsBack(a: char, b: char)
    requires InCharset(a) && InCharset(b)
    ensures CharAt(NatOf(BitsOf(IndexOf(a), 6))) == a
    ensures var v := NatOf(BitsOf(IndexOf(a) * 45 + IndexOf(b), 11));
      CharAt(v / 45) == a && CharAt(v % 45) == b
  {
    hide IndexOf, BitsOf, NatOf, Pow2, CharAt;
    CharAtIndex(a);
    CharAtIndex(b);
    Widths();
    SplitPair(IndexOf(a), IndexOf(b));
    NatOfBitsOf(IndexOf(a), 6);
    NatOfBitsOf(IndexOf(a) * 45 + IndexOf(b), 11);
  }

  lemma {:induction false} TextReadsBack(text: string, rest: seq<bool>)
    requires IsAlphanumeric(text)
    ensures ReadText(|text|, AlphanumericBits(text) + rest) == Some((text, rest))
    decreases |text|
  {
    hide IndexOf, BitsOf, NatOf, CharAt, InCharset;
    if text == "" {
      assert AlphanumericBits(text) + rest == rest;
    } else if |text| == 1 {
      SplitAt(AlphanumericBits(text), rest, 6);
      PairReadsBack(text[0], text[0]);
      assert [text[0]] == text;
    } else {
      var field := BitsOf(IndexOf(text[0]) * 45 + IndexOf(text[1]), 11);
      var tail := AlphanumericBits(text[2..]) + rest;
      assert AlphanumericBits(text) + rest == field + tail;
      SplitAt(field, tail, 11);
      PairReadsBack(text[0], text[1]);
      TextReadsBack(text[2..], rest);
      assert [text[0], text[1]] + text[2..] == text;
    }
  }

  lemma {:induction false} BytesReadBack(data: seq<byte>, rest: seq<bool>)
    ensures ReadBytes(|data|, ByteBits(data) + rest) == Some((data, rest))
    decreases |data|
  {
    if data == [] {
      assert ByteBits(data) + rest == rest;
    } else {
      BytesReadBack(data[1..], rest);
      FirstByteReadsBack(data[0], data[1..], ByteBits(data[1..]) + rest, rest);
      assert [data[0]] + data[1..] == data;
      Regroup(data[0], ByteBits(data[1..]), rest);
    }
  }

  lemma FirstByteReadsBack(first: byte, more: seq<byte>, tail: seq<bool>, rest: seq<bool>)
    requires ReadBytes(|more|, tail) == Some((more, rest))
    ensures ReadBytes(|more| + 1, first + tail) == Some(([first] + more, rest))
  {
    SplitAt(first, tail, 8);
  }

  /** A value that fits one bit less starts with a zero bit. */
  lemma {:induction false} LeadingZero(val: nat, len: nat)
    requires val < Pow2(len)
    ensures BitsOf(val, len + 1)[0] == false
  {
    if len > 0 {
      LeadingZero(val / 2, len - 1);
    }
  }

  lemma EciPrefixes()
    ensures BitsOf(2, 2) == [true, false] && BitsOf(6, 3) == [true, true, false]
  {
    assert BitsOf(1, 1) == [true] && BitsOf(3, 2) == [true, true];
  }

  lemma DesignatorReadsBack(value: nat, rest: seq<bool>)
    requires value < 1000000
    ensures ReadDesignator(EciBits(value) + rest) == Some((value, rest))
  {
    hide BitsOf, NatOf, Pow2;
    Widths();
    var bits := EciBits(value) + rest;
    SplitAt(EciBits(value), rest, |EciBits(value)|);
    if value < 128 {
      LeadingZero(value, 7);
      NatOfBitsOf(value, 8);
    } else if value < 16384 {
      EciPrefixes();
      assert bits[2..16] == BitsOf(value, 14);
      NatOfBitsOf(value, 14);
    } else {
      EciPrefixes();
      assert bits[3..24] == BitsOf(value, 21);
      NatOfBitsOf(value, 21);
    }
  }

  lemma PayloadReadsBack(p: Payload, rest: seq<bool>)
    requires Encodable(p)
    ensures var seg := SegmentOf(p);
      ReadPayload(seg.mode, seg.numChars, seg.bitData + rest) == Some((p, rest))
  {
    match p
    case Digits(s) => DigitsReadBack(s, rest);
    case Text(s) => TextReadsBack(s, rest);
    case Bytes(b) => BytesReadBack(b, rest);
    case Designator(v) => DesignatorReadsBack(v, rest);
  }

  lemma ModeFieldReadsBack(mode: Mode)
    ensures var field := BitsOf(mode.ModeBits(), 4);
      field != Zeros(4) && ModeOf(NatOf(field)) == Some(mode)
  {
    hide BitsOf, Pow2;
    Widths();
    NatOfBitsOf(mode.ModeBits(), 4);
    NatOfZeros(4);
  }

  lemma {:induction false} NatOfZeros(n: nat)
    ensures NatOf(Zeros(n)) == 0
  {
    if n > 0 {
      NatOfZeros(n - 1);
      assert Zeros(n)[..n - 1] == Zeros(n - 1);
    }
  }

  lemma SegmentReadsBack(p: Payload, ver: int, rest: seq<bool>)
    requires 1 <= ver <= 40 && Encodable(p) && CountsFit([SegmentOf(p)], ver)
    ensures var bits := SegmentBits(SegmentOf(p), ver) + rest;
      !AtEnd(bits) && ReadSegment(bits, ver) == Some((p, rest))
  {
    hide ReadPayload, SegmentOf, Mode.NumCharCountBits, CountWidth, BitsOf, NatOf, Pow2;
    var seg := SegmentOf(p);
    assert seg.numChars < Pow2(seg.mode.NumCharCountBits(ver)) by { assert [seg][0] == seg; }
    var mode := BitsOf(seg.mode.ModeBits(), 4);
    var count := BitsOf(seg.numChars, seg.mode.NumCharCountBits(ver));
    var bits := SegmentBits(seg, ver) + rest;
    assert bits == mode + (count + (seg.bitData + rest));
    ModeFieldReadsBack(seg.mode);
    WidthsAgree(seg.mode, ver);
    SplitAt(mode, count + (seg.bitData + rest), 4);
    assert bits[4..4 + |count|] == count && bits[4 + |count|..] == seg.bitData + rest;
    NatOfBitsOf(seg.numChars, |count|);
    PayloadReadsBack(p, rest);
  }

  ghost predicate AllEncodable(ps: seq<Payload>)
  {
    forall i :: 0 <= i < |ps| ==> Encodable(ps[i])
  }

  ghost function SegmentsOf(ps: seq<Payload>): (segs: seq<Segment>)
    requires AllEncodable(ps)
    ensures |segs| == |ps|
  {
    seq(|ps|, i requires 0 <= i < |ps| => SegmentOf(ps[i]))
  }

  lemma {:induction false} SegmentsBitsFirst(segs: seq<Segment>, ver: int)
    requires segs != []
    ensures SegmentsBits(segs, ver) == SegmentBits(segs[0], ver) + SegmentsBits(segs[1..], ver)
  {
    hide SegmentBits;
    if |segs| == 1 {
      assert segs[..0] == [] && segs[1..] == [];
    } else {
      var front := segs[..|segs| - 1];
      SegmentsBitsFirst(front, ver);
      assert front[1..] == segs[1..][..|segs| - 2];
      assert segs[1..][|segs| - 2] == segs[|segs| - 1];
    }
  }

  /** Parsing returns every payload, whatever follows the terminator. */
  lemma {:induction false} ParseReadsBack(ps: seq<Payload>, ver: int, tail: seq<bool>)
    requires 1 <= ver <= 40 && AllEncodable(ps) && CountsFit(SegmentsOf(ps), ver) && AtEnd(tail)
    ensures Parse(SegmentsBits(SegmentsOf(ps), ver) + tail, ver) == Some(ps)
    decreases |ps|
  {
    hide ReadSegment, SegmentBits, Encodable, SegmentOf, AtEnd, Mode.NumCharCountBits;
    var segs := SegmentsOf(ps);
    if ps == [] {
      assert SegmentsBits(segs, ver) + tail == tail;
    } else {
      assert segs[1..] == SegmentsOf(ps[1..]);
      ParseReadsBack(ps[1..], ver, tail);
      var rest := SegmentsBits(segs[1..], ver) + tail;
      SegmentsBitsFirst(segs, ver);
      assert SegmentsBits(segs, ver) + tail == SegmentBits(segs[0], ver) + rest;
      SegmentReadsBack(ps[0], ver, rest);
      SegmentNotEmpty(segs[0], ver);
      assert [ps[0]] + ps[1..] == ps;
    }
  }

  lemma SegmentNotEmpty(seg: Segment, ver: int)
    ensures |SegmentBits(seg, ver)| >= 4
  {}
}
