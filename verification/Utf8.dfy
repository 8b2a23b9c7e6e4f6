/**
 The bytes of a text: the generator lets encodeURI escape it and reads the escapes back.
 The result is the UTF-8 encoding (section 3 of RFC 3629), and a decoder returns the text.
 */
module Utf8 {
  import opened Wrappers
  import opened Bits

  type octet = n: nat | n < 256

  /** One Unicode scalar value. */
  function ScalarOctets(c: char): (s: seq<octet>)
    ensures |s| >= 1
  {
    var n := c as nat;
    if n < 0x80 then [n]
    else if n < 0x800 then [0xc0 + n / 0x40, 0x80 + n % 0x40]
    else if n < 0x10000 then [0xe0 + n / 0x1000, 0x80 + n / 0x40 % 0x40, 0x80 + n % 0x40]
    else [0xf0 + n / 0x40000, 0x80 + n / 0x1000 % 0x40, 0x80 + n / 0x40 % 0x40, 0x80 + n % 0x40]
  }

  function Octets(text: string): seq<octet>
  {
    if text == "" then [] else Octets(text[..|text| - 1]) + ScalarOctets(text[|text| - 1])
  }

  function OctetBytes(octets: seq<octet>): (b: seq<byte>)
    ensures |b| == |octets|
  {
    seq(|octets|, i requires 0 <= i < |octets| => BitsOf(octets[i], 8))
  }

  function Utf8Bytes(text: string): seq<byte>
  {
    OctetBytes(Octets(text))
  }

  // ------------------------------------------------------------------
  // encodeURI
  // ------------------------------------------------------------------

  /** The characters that encodeURI leaves alone. */
  predicate Unescaped(c: char)
  {
    || 'A' <= c <= 'Z' || 'a' <= c <= 'z' || '0' <= c <= '9'
    || c in [';', ',', '/', '?', ':', '@', '&', '=', '+', '$', '-', '_', '.', '!', '~', '*', '\'', '(', ')', '#']
  }

  function HexDigit(n: nat): char
    requires n < 16
  {
    if n < 10 then '0' + n as char else 'A' + (n - 10) as char
  }

  function HexValue(c: char): nat
  {
    if '0' <= c <= '9' then (c - '0') as nat else if 'A' <= c <= 'F' then (c - 'A') as nat + 10 else 0
  }

  function Percent(o: octet): string
  {
    ['%', HexDigit(o / 16), HexDigit(o % 16)]
  }

  function PercentAll(octets: seq<octet>): string
  {
    if octets == [] then "" else PercentAll(octets[..|octets| - 1]) + Percent(octets[|octets| - 1])
  }

  /** Every character that must be escaped becomes its octets in percent notation. */
  function EncodeUri(text: string): string
  {
    if text == "" then ""
    else
      var c := text[|text| - 1];
      EncodeUri(text[..|text| - 1]) + if Unescaped(c) then [c] else PercentAll(ScalarOctets(c))
  }

  /** The same octet by octet: only single octets stay as they are. */
  function Escape(o: octet): string
  {
    if o < 0x80 && Unescaped(o as char) then [o as char] else Percent(o)
  }

  function EscapeAll(octets: seq<octet>): string
  {
    if octets == [] then "" else EscapeAll(octets[..|octets| - 1]) + Escape(octets[|octets| - 1])
  }

  lemma {:induction false} EscapeConcat(a: seq<octet>, b: seq<octet>)
    ensures EscapeAll(a + b) == EscapeAll(a) + EscapeAll(b)
  {
    if b == [] {
      assert a + b == a;
    } else {
      assert (a + b)[..|a + b| - 1] == a + b[..|b| - 1];
      EscapeConcat(a, b[..|b| - 1]);
    }
  }

  lemma {:induction false} PercentIsEscape(octets: seq<octet>)
    requires forall i :: 0 <= i < |octets| ==> octets[i] >= 0x80
    ensures PercentAll(octets) == EscapeAll(octets)
  {
    if octets != [] {
      PercentIsEscape(octets[..|octets| - 1]);
    }
  }

  lemma EscapeScalar(c: char)
    ensures EscapeAll(ScalarOctets(c)) == if Unescaped(c) then [c] else PercentAll(ScalarOctets(c))
  {
    hide Unescaped, Percent;
    var s := ScalarOctets(c);
    if c as nat < 0x80 {
      assert s[..0] == [];
    } else {
      PercentIsEscape(s);
      OnlyAscii(c);
    }
  }

  lemma OnlyAscii(c: char)
    ensures Unescaped(c) ==> c as nat < 0x80
  {}

  lemma {:induction false} EncodeUriIsEscape(text: string)
    ensures EncodeUri(text) == EscapeAll(Octets(text))
  {
    hide ScalarOctets, Unescaped;
    if text != "" {
      var front, c := text[..|text| - 1], text[|text| - 1];
      EncodeUriIsEscape(front);
      EscapeConcat(Octets(front), ScalarOctets(c));
      EscapeScalar(c);
    }
  }

  // ------------------------------------------------------------------
  // The loop
  // ------------------------------------------------------------------

  /** What the escaped text holds at the place of the n-th octet. */
  lemma EscapeAt(octets: seq<octet>, n: nat, s: string)
    requires n < |octets| && s == EscapeAll(octets)
    ensures var i := |EscapeAll(octets[..n])|;
      && i + |Escape(octets[n])| <= |s| && s[i..i + |Escape(octets[n])|] == Escape(octets[n])
      && |EscapeAll(octets[..n + 1])| == i + |Escape(octets[n])|
  {
    hide Escape;
    assert octets[..n + 1][..n] == octets[..n];
    assert octets == octets[..n + 1] + octets[n + 1..];
    EscapeConcat(octets[..n + 1], octets[n + 1..]);
  }

  lemma EscapeReadsBack(o: octet)
    ensures var e := Escape(o);
      && (e[0] != '%' ==> |e| == 1 && e[0] as nat == o)
      && (e[0] == '%' ==> |e| == 3 && HexValue(e[1]) * 16 + HexValue(e[2]) == o)
  {}

  /** charCodeAt for a plain character, parseInt of two hex digits after a percent sign. */
  method ToUtf8ByteArray(text: string) returns (result: seq<byte>)
    ensures result == Utf8Bytes(text)
  {
    hide Escape, Octets, EncodeUri, HexValue, EscapeAll;
    var str := EncodeUri(text);
    ghost var octets := Octets(text);
    EncodeUriIsEscape(text);
    NothingEscaped(octets);
    result := [];
    ghost var n := 0;
    var i := 0;
    while i < |str|
      invariant n <= |octets| && i == |EscapeAll(octets[..n])| <= |str|
      invariant result == OctetBytes(octets[..n])
    {
      MoreOctets(octets, n);
      EscapeAt(octets, n, str);
      EscapeReadsBack(octets[n]);
      ghost var e := Escape(octets[n]);
      assert str[i] == e[0];
      if str[i] != '%' {
        result := result + [BitsOf(str[i] as nat, 8)];
        i := i + 1;
      } else {
        assert str[i + 1] == e[1] && str[i + 2] == e[2];
        result := result + [BitsOf(HexValue(str[i + 1]) * 16 + HexValue(str[i + 2]), 8)];
        i := i + 3;
      }
      n := n + 1;
    }
    AllEscaped(octets, n);
  }

  lemma NothingEscaped(octets: seq<octet>)
    ensures EscapeAll(octets[..0]) == "" && OctetBytes(octets[..0]) == []
  {}

  lemma MoreOctets(octets: seq<octet>, n: nat)
    requires n <= |octets| && |EscapeAll(octets[..n])| < |EscapeAll(octets)|
    ensures n < |octets|
  {
    assert octets[..|octets|] == octets;
  }

  /** No octet has an empty escape. */
  lemma AllEscaped(octets: seq<octet>, n: nat)
    requires n <= |octets| && |EscapeAll(octets[..n])| == |EscapeAll(octets)|
    ensures octets[..n] == octets
  {
    if n < |octets| {
      EscapeAt(octets, n, EscapeAll(octets));
    }
  }

  // ------------------------------------------------------------------
  // Decoding
  // ------------------------------------------------------------------

  predicate Continues(o: octet) { 0x80 <= o < 0xc0 }

  predicate Scalar(n: nat) { n < 0xd800 || 0xe000 <= n < 0x110000 }

  /** The length of the sequence that an octet starts; 0 if it starts none. */
  function LengthOf(lead: octet): nat
  {
    if lead < 0x80 then 1
    else if 0xc0 <= lead < 0xe0 then 2
    else if 0xe0 <= lead < 0xf0 then 3
    else if 0xf0 <= lead < 0xf8 then 4
    else 0
  }

  /** The payload of an octet above its marker. */
  function Low(o: octet, marker: nat): nat
    requires o >= marker
  {
    o as int - marker
  }

  function Tail(o: octet): nat
    requires Continues(o)
  {
    o as int - 0x80
  }

  function ValueOf(s: seq<octet>): nat
    requires |s| >= 1 && |s| == LengthOf(s[0]) && forall i :: 1 <= i < |s| ==> Continues(s[i])
  {
    match |s|
    case 1 => s[0]
    case 2 => Low(s[0], 0xc0) * 0x40 + Tail(s[1])
    case 3 => Low(s[0], 0xe0) * 0x1000 + Tail(s[1]) * 0x40 + Tail(s[2])
    case _ => Low(s[0], 0xf0) * 0x40000 + Tail(s[1]) * 0x1000 + Tail(s[2]) * 0x40 + Tail(s[3])
  }

  /** The text an octet string encodes; overlong forms are refused. */
  function Decode(s: seq<octet>): Option<string>
  {
    if s == [] then Some("")
    else
      var n := LengthOf(s[0]);
      if n == 0 || |s| < n || !(forall i :: 1 <= i < n ==> Continues(s[i])) then None
      else
        var v := ValueOf(s[..n]);
        if !Scalar(v) || ScalarOctets(v as char) != s[..n] then None
        else
          match Decode(s[n..])
          case None => None
          case Some(rest) => Some([v as char] + rest)
  }

  lemma ScalarReadsBack(c: char)
    ensures var s := ScalarOctets(c);
      && |s| == LengthOf(s[0]) && (forall i :: 1 <= i < |s| ==> Continues(s[i]))
      && ValueOf(s) == c as nat && Scalar(c as nat)
  {
    var n := c as nat;
    assert n == n / 0x40 * 0x40 + n % 0x40;
    assert n / 0x1000 == n / 0x40 / 0x40 && n / 0x40000 == n / 0x1000 / 0x40;
  }

  lemma {:induction false} OctetsFirst(text: string)
    requires text != ""
    ensures Octets(text) == ScalarOctets(text[0]) + Octets(text[1..])
  {
    hide ScalarOctets;
    if |text| == 1 {
      assert text[..0] == "" && text[1..] == "";
    } else {
      var n := |text| - 1;
      OctetsFirst(text[..n]);
      assert text[..n][1..] == text[1..][..n - 1];
    }
  }

  lemma {:induction false} OctetsDecode(text: string)
    ensures Decode(Octets(text)) == Some(text)
    decreases |text|
  {
    hide ScalarOctets, ValueOf, LengthOf;
    if text != "" {
      OctetsFirst(text);
      ScalarReadsBack(text[0]);
      OctetsDecode(text[1..]);
      var s := Octets(text);
      assert s[..|ScalarOctets(text[0])|] == ScalarOctets(text[0]);
      assert s[|ScalarOctets(text[0])|..] == Octets(text[1..]);
      assert [text[0]] + text[1..] == text;
    }
  }

  function ByteOctets(bytes: seq<byte>): (s: seq<octet>)
    ensures |s| == |bytes|
  {
    seq(|bytes|, i requires 0 <= i < |bytes| => ByteOctet(bytes[i]))
  }

  function ByteOctet(b: byte): octet
  {
    BitsOfNatOf(b);
    EightBits();
    NatOf(b)
  }

  lemma EightBits()
    ensures Pow2(8) == 256
  {
    assert Pow2(4) == 16;
  }

  function DecodeBytes(bytes: seq<byte>): Option<string>
  {
    Decode(ByteOctets(bytes))
  }

  /** The bytes of a text decode to the text. */
  lemma Utf8ReadsBack(text: string)
    ensures DecodeBytes(Utf8Bytes(text)) == Some(text)
  {
    hide Decode, Octets, BitsOf, NatOf;
    var octets := Octets(text);
    forall i | 0 <= i < |octets|
      ensures ByteOctet(OctetBytes(octets)[i]) == octets[i]
    {
      EightBits();
      NatOfBitsOf(octets[i], 8);
    }
    assert ByteOctets(OctetBytes(octets)) == octets;
    OctetsDecode(text);
  }
}
