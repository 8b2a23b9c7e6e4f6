/**
 From segments to a symbol: choice of version and error correction level, terminator
 and padding, packing into codewords. What a symbol encodes is read back from its
 modules alone.
 */
module QrEncode {
  import opened Wrappers
  import opened Bits
  import opened Numbers
  import opened Zigzag
  import opened QrTables
  import opened FunctionPatterns
  import opened Interleave
  import opened QrSymbol
  import opened QrReader
  import opened Segments
  import opened QrCode

  datatype EncodeError = InvalidValue | DataTooLong

  // ------------------------------------------------------------------
  // Specification
  // ------------------------------------------------------------------

  function DataCapacity(version: int, ecl: Ecc): (bits: nat)
    requires VersionInRange(version)
    ensures bits % 8 == 0
  {
    DataCodewordsFillBlocks(version, ecl);
    NumDataCodewords(version, ecl) * 8
  }

  ghost predicate Fits(segs: seq<Segment>, version: int, ecl: Ecc)
    requires VersionInRange(version)
  {
    CountsFit(segs, version) && |SegmentsBits(segs, version)| <= DataCapacity(version, ecl)
  }

  function Ordinal(ecl: Ecc): nat
  {
    match ecl
    case LOW => 0
    case MEDIUM => 1
    case QUARTILE => 2
    case HIGH => 3
  }

  /** Alternately 0xEC and 0x11. */
  function PadBytes(n: nat): (bits: seq<bool>)
    ensures |bits| == 8 * n
  {
    if n == 0 then [] else PadBytes(n - 1) + BitsOf(if n % 2 == 1 then 0xec else 0x11, 8)
  }

  /** The bits followed by a terminator, zeros up to a byte boundary and pad bytes. */
  function Padded(bits: seq<bool>, capacity: nat): (r: seq<bool>)
    requires |bits| <= capacity && capacity % 8 == 0
    ensures |r| == capacity
  {
    var terminated := bits + Zeros(Min(4, capacity - |bits|));
    var aligned := terminated + Zeros((8 - |terminated| % 8) % 8);
    aligned + PadBytes((capacity - |aligned|) / 8)
  }

  /** After the bits come zeros up to the first byte boundary that leaves room for a terminator. */
  lemma PaddingZeros(bits: seq<bool>, capacity: nat, k: nat)
    requires |bits| <= k < capacity && capacity % 8 == 0 && k < 8 * ((|bits| + 4 + 7) / 8)
    ensures bits <= Padded(bits, capacity) && !Padded(bits, capacity)[k]
  {
    hide PadBytes, Padded;
    if 8 * ((|bits| + 4 + 7) / 8) <= capacity {
      PaddedAligned(bits, capacity);
    } else {
      PaddedFull(bits, capacity);
    }
  }

  /** The k-th byte after that boundary is EC or 11, in turn. */
  lemma PaddingBytes(bits: seq<bool>, capacity: nat, k: nat, at: nat)
    requires capacity % 8 == 0 && at == 8 * ((|bits| + 4 + 7) / 8) + 8 * k && at + 8 <= capacity
    ensures Padded(bits, capacity)[at..at + 8] ==
              if k % 2 == 0 then [true, true, true, false, true, true, false, false]
              else [false, false, false, true, false, false, false, true]
  {
    hide PadBytes, Padded;
    var start := 8 * ((|bits| + 4 + 7) / 8);
    PaddedAligned(bits, capacity);
    var front, pads := bits + Zeros(start - |bits|), PadBytes((capacity - start) / 8);
    PadBytesAt((capacity - start) / 8, k);
    SliceAfter(front, pads, 8 * k);
  }

  lemma SliceAfter(a: seq<bool>, b: seq<bool>, i: nat)
    requires i + 8 <= |b|
    ensures (a + b)[|a| + i..|a| + i + 8] == b[i..i + 8]
  {}

  lemma PaddedAligned(bits: seq<bool>, capacity: nat)
    requires capacity % 8 == 0 && 8 * ((|bits| + 4 + 7) / 8) <= capacity
    ensures var start := 8 * ((|bits| + 4 + 7) / 8);
      Padded(bits, capacity) == bits + Zeros(start - |bits|) + PadBytes((capacity - start) / 8)
  {
    hide PadBytes, Zeros;
    var gap := 8 * ((|bits| + 4 + 7) / 8) - |bits| - 4;
    GapIs(|bits| + 4);
    ZerosJoin(bits, 4, gap);
  }

  lemma GapIs(n: nat)
    ensures (8 - n % 8) % 8 == 8 * ((n + 7) / 8) - n
  {}

  lemma ZerosJoin(bits: seq<bool>, m: nat, n: nat)
    ensures bits + Zeros(m) + Zeros(n) == bits + Zeros(m + n)
  {}

  lemma PaddedFull(bits: seq<bool>, capacity: nat)
    requires |bits| <= capacity && capacity % 8 == 0 && 8 * ((|bits| + 4 + 7) / 8) > capacity
    ensures Padded(bits, capacity) == bits + Zeros(capacity - |bits|)
  {
    var t := Min(4, capacity - |bits|);
    ZerosJoin(bits, t, capacity - |bits| - t);
    assert PadBytes(0) == [];
  }

  lemma {:induction false} PadBytesAt(n: nat, k: nat)
    requires k < n
    ensures PadBytes(n)[8 * k..8 * k + 8] ==
              if k % 2 == 0 then [true, true, true, false, true, true, false, false]
              else [false, false, false, true, false, false, false, true]
  {
    hide BitsOf;
    PadPair();
    if k < n - 1 {
      PadBytesAt(n - 1, k);
      assert PadBytes(n)[8 * k..8 * k + 8] == PadBytes(n - 1)[8 * k..8 * k + 8];
    }
  }

  lemma PadPair()
    ensures BitsOf(0xec, 8) == [true, true, true, false, true, true, false, false]
    ensures BitsOf(0x11, 8) == [false, false, false, true, false, false, false, true]
  {
    FirstPad();
    assert BitsOf(1, 4) == [false, false, false, true];
    assert BitsOf(0x11, 8) == BitsOf(1, 4) + [false, false, false, true];
  }

  lemma FirstPad()
    ensures BitsOf(0xec, 8) == [true, true, true, false, true, true, false, false]
  {
    assert BitsOf(0xe, 4) == [true, true, true, false];
    assert BitsOf(0xec, 8) == BitsOf(0xe, 4) + [true, true, false, false];
  }

  /** What the padding starts with ends a parse. */
  lemma PaddingEndsParse(bits: seq<bool>, capacity: nat)
    requires |bits| <= capacity && capacity % 8 == 0
    ensures bits <= Padded(bits, capacity) && AtEnd(Padded(bits, capacity)[|bits|..])
  {
    var tail := Padded(bits, capacity)[|bits|..];
    if capacity - |bits| >= 4 {
      assert tail[..4] == Zeros(4);
    }
  }

  /** The lowest version in range that holds the segments at level ecl. */
  ghost predicate IsLeastVersion(segs: seq<Segment>, ecl: Ecc, minVersion: int, maxVersion: int, version: int)
  {
    && minVersion <= version <= maxVersion
    && VersionInRange(version) && Fits(segs, version, ecl)
    && forall v :: minVersion <= v < version && VersionInRange(v) ==> !Fits(segs, v, ecl)
  }

  /** The requested level, or when boosting the highest one the version holds. */
  ghost predicate IsLevelFor(segs: seq<Segment>, version: int, requested: Ecc, boost: bool, ecl: Ecc)
    requires VersionInRange(version)
  {
    && Fits(segs, version, ecl)
    && Ordinal(ecl) >= Ordinal(requested)
    && (!boost ==> ecl == requested)
    && (boost ==> forall e :: Ordinal(e) > Ordinal(ecl) ==> !Fits(segs, version, e))
  }

  /** `data` are the codewords of the segments, filled up to the capacity. */
  ghost predicate AreCodewordsOf(data: seq<byte>, segs: seq<Segment>, version: int, ecl: Ecc)
    requires VersionInRange(version)
  {
    && Fits(segs, version, ecl)
    && StreamBits(data) == Padded(SegmentsBits(segs, version), DataCapacity(version, ecl))
  }

  /** g is a symbol for the segments. */
  ghost predicate Encodes(g: Grid, version: int, ecl: Ecc, segs: seq<Segment>, msk: int, mask: int)
    requires VersionInRange(version) && MaskInRange(mask)
  {
    exists data: seq<byte> :: AreCodewordsOf(data, segs, version, ecl) && IsSymbolFor(g, version, ecl, data, msk, mask)
  }

  // ------------------------------------------------------------------
  // Encoding
  // ------------------------------------------------------------------

  method FindVersion(segs: seq<Segment>, ecl: Ecc, minVersion: int, maxVersion: int)
    returns (r: Option<int>, dataUsedBits: nat)
    requires 1 <= minVersion <= maxVersion <= 40
    ensures r.None? <==> forall v :: minVersion <= v <= maxVersion ==> !Fits(segs, v, ecl)
    ensures r.Some? ==> IsLeastVersion(segs, ecl, minVersion, maxVersion, r.value)
    ensures r.Some? ==> dataUsedBits == |SegmentsBits(segs, r.value)|
  {
    hide NumDataCodewords, CountsFit, SegmentsBits;
    var version := minVersion;
    while true
      invariant minVersion <= version <= maxVersion
      invariant forall v :: minVersion <= v < version ==> !Fits(segs, v, ecl)
      decreases maxVersion - version
    {
      var dataCapacityBits := DataCapacity(version, ecl);
      var usedBits := GetTotalBits(segs, version);
      if usedBits.Some? && usedBits.value <= dataCapacityBits {
        assert Fits(segs, version, ecl);
        return Some(version), usedBits.value;
      }
      if version >= maxVersion {
        return None, 0;
      }
      version := version + 1;
    }
  }

  method BoostLevel(ghost segs: seq<Segment>, version: int, dataUsedBits: nat, requested: Ecc, boostEcl: bool)
    returns (ecl: Ecc)
    requires VersionInRange(version) && Fits(segs, version, requested)
    requires dataUsedBits == |SegmentsBits(segs, version)|
    ensures IsLevelFor(segs, version, requested, boostEcl, ecl)
  {
    hide DataCapacity, CountsFit, SegmentsBits;
    ecl := requested;
    var levels := [MEDIUM, QUARTILE, HIGH];
    for i := 0 to |levels|
      invariant Fits(segs, version, ecl)
      invariant ecl == requested || Ordinal(ecl) <= i
      invariant Ordinal(ecl) >= Ordinal(requested) || Ordinal(requested) > i
      invariant !boostEcl ==> ecl == requested
      invariant boostEcl ==> forall e :: Ordinal(ecl) < Ordinal(e) <= i ==> !Fits(segs, version, e)
    {
      var newEcl := levels[i];
      if boostEcl && dataUsedBits <= DataCapacity(version, newEcl) {
        ecl := newEcl;
      }
    }
  }

  /** The bit string of all segments, with its terminator and padding. */
  method BuildBits(segs: seq<Segment>, version: int, ecl: Ecc) returns (bb: seq<bool>)
    requires VersionInRange(version) && Fits(segs, version, ecl)
    ensures bb == Padded(SegmentsBits(segs, version), DataCapacity(version, ecl))
  {
    hide DataCapacity, Padded, SegmentsBits;
    bb := ConcatenateSegments(segs, version);
    bb := PadTo(bb, DataCapacity(version, ecl));
  }

  method ConcatenateSegments(segs: seq<Segment>, version: int) returns (bb: seq<bool>)
    requires CountsFit(segs, version)
    ensures bb == SegmentsBits(segs, version)
  {
    hide BitsOf, Mode.NumCharCountBits, Pow2;
    Widths();
    bb := [];
    for i := 0 to |segs|
      invariant bb == SegmentsBits(segs[..i], version)
    {
      var seg := segs[i];
      var before := bb;
      bb := AppendBits(seg.mode.ModeBits(), 4, bb);
      bb := AppendBits(seg.numChars, seg.mode.NumCharCountBits(version), bb);
      for k := 0 to |seg.bitData|
        invariant bb == before + BitsOf(seg.mode.ModeBits(), 4)
                        + BitsOf(seg.numChars, seg.mode.NumCharCountBits(version)) + seg.bitData[..k]
      {
        bb := bb + [seg.bitData[k]];
      }
      assert bb == before + SegmentBits(seg, version);
      assert segs[..i + 1][..i] == segs[..i];
    }
    assert segs[..|segs|] == segs;
  }

  lemma {:induction false} BitsOfZero(len: nat)
    ensures BitsOf(0, len) == Zeros(len)
  {
    if len > 0 {
      BitsOfZero(len - 1);
    }
  }

  /** Terminator, byte boundary, pad bytes. */
  method PadTo(bits: seq<bool>, dataCapacityBits: nat) returns (bb: seq<bool>)
    requires |bits| <= dataCapacityBits && dataCapacityBits % 8 == 0
    ensures bb == Padded(bits, dataCapacityBits)
  {
    hide BitsOf, Pow2, PadBytes, Zeros;
    var terminator := Min(4, dataCapacityBits - |bits|);
    bb := AppendBits(0, terminator, bits);
    BitsOfZero(terminator);
    var alignment := (8 - |bb| % 8) % 8;
    bb := AppendBits(0, alignment, bb);
    BitsOfZero(alignment);
    bb := FillWithPadBytes(bb, dataCapacityBits);
  }

  method FillWithPadBytes(aligned: seq<bool>, dataCapacityBits: nat) returns (bb: seq<bool>)
    requires |aligned| <= dataCapacityBits && |aligned| % 8 == 0 && dataCapacityBits % 8 == 0
    ensures bb == aligned + PadBytes((dataCapacityBits - |aligned|) / 8)
  {
    hide BitsOf, Pow2;
    Widths();
    bb := aligned;
    var padByte := 0xec;
    ghost var n := 0;
    while |bb| < dataCapacityBits
      invariant |bb| <= dataCapacityBits && |bb| % 8 == 0
      invariant bb == aligned + PadBytes(n)
      invariant padByte == if n % 2 == 0 then 0xec else 0x11
      decreases dataCapacityBits - |bb|
    {
      bb := AppendBits(padByte, 8, bb);
      padByte := if padByte == 0xec then 0x11 else 0xec;
      n := n + 1;
    }
  }

  /** Packs bits into bytes in big endian. */
  method Pack(bb: seq<bool>) returns (dataCodewords: seq<byte>)
    requires |bb| % 8 == 0
    ensures StreamBits(dataCodewords) == bb
  {
    dataCodewords := [];
    while |dataCodewords| * 8 < |bb|
      invariant |dataCodewords| * 8 <= |bb|
      invariant forall k :: 0 <= k < |dataCodewords| ==> dataCodewords[k] == Zeros(8)
    {
      dataCodewords := dataCodewords + [Zeros(8)];
    }
    for i := 0 to |bb|
      invariant |dataCodewords| * 8 == |bb|
      invariant forall k :: 0 <= k < |bb| ==> dataCodewords[k / 8][k % 8] == (k < i && bb[k])
    {
      var byte := dataCodewords[i / 8];
      dataCodewords := dataCodewords[i / 8 := byte[i % 8 := byte[i % 8] || bb[i]]];
    }
  }

  method EncodeSegments(segs: seq<Segment>, ecl: Ecc, minVersion: int, maxVersion: int, mask: int, boostEcl: bool)
    returns (r: Result<QrCode, EncodeError>)
    ensures r.Failure? && r.error.InvalidValue? <==> !(1 <= minVersion <= maxVersion <= 40) || mask < -1 || mask > 7
    ensures r.Failure? && r.error.DataTooLong? <==>
              1 <= minVersion <= maxVersion <= 40 && -1 <= mask <= 7
              && forall v :: minVersion <= v <= maxVersion ==> !Fits(segs, v, ecl)
    ensures r.Success? ==>
              var qr := r.value;
              && fresh(qr) && fresh(qr.modules) && MaskInRange(qr.mask)
              && IsLeastVersion(segs, ecl, minVersion, maxVersion, qr.version)
              && IsLevelFor(segs, qr.version, ecl, boostEcl, qr.errorCorrectionLevel)
              && Encodes(Rows(qr.modules), qr.version, qr.errorCorrectionLevel, segs, mask, qr.mask)
  {
    if !(1 <= minVersion <= maxVersion <= 40) || mask < -1 || mask > 7 {
      return Failure(InvalidValue);
    }
    hide Fits, IsSymbolFor, Padded, SegmentsBits, NumDataCodewords;
    var version, dataUsedBits := FindVersion(segs, ecl, minVersion, maxVersion);
    if version.None? {
      return Failure(DataTooLong);
    }
    var level := BoostLevel(segs, version.value, dataUsedBits, ecl, boostEcl);
    var bb := BuildBits(segs, version.value, level);
    var dataCodewords := Pack(bb);
    var qr := QrCode.Create(version.value, level, dataCodewords, mask);
    assert AreCodewordsOf(dataCodewords, segs, version.value, level);
    return Success(qr.value);
  }

  // ------------------------------------------------------------------
  // Reading back
  // ------------------------------------------------------------------

  /** Everything a symbol says, from its modules alone. */
  ghost function ReadPayloads(g: Grid): Option<seq<Payload>>
  {
    match Read(g)
    case None => None
    case Some(readout) => Parse(StreamBits(readout.data), readout.version)
  }

  /** Whatever is encoded is read back, segment by segment. */
  lemma EncodedReadsBack(g: Grid, version: int, ecl: Ecc, ps: seq<Payload>, msk: int, mask: int)
    requires VersionInRange(version) && MaskInRange(mask) && AllEncodable(ps)
    requires Encodes(g, version, ecl, SegmentsOf(ps), msk, mask)
    ensures ReadPayloads(g) == Some(ps)
  {
    hide IsSymbolFor, Read, Parse, Padded, DataCapacity, SegmentsBits, CountsFit, AtEnd, StreamBits;
    var segs := SegmentsOf(ps);
    var data :| AreCodewordsOf(data, segs, version, ecl) && IsSymbolFor(g, version, ecl, data, msk, mask);
    SymbolReadsBack(g, version, ecl, data, msk, mask);
    var bits := SegmentsBits(segs, version);
    PaddingEndsParse(bits, DataCapacity(version, ecl));
    var tail := Padded(bits, DataCapacity(version, ecl))[|bits|..];
    assert bits + tail == StreamBits(data);
    ParseReadsBack(ps, version, tail);
  }

  /** The text of a symbol, from its modules alone. */
  ghost function ReadSymbolText(g: Grid): Option<string>
  {
    match ReadPayloads(g)
    case None => None
    case Some(ps) => TextOf(ps)
  }

  /** Fails exactly if no version holds the text; the symbol reads back as that text. */
  method EncodeText(text: string, ecl: Ecc) returns (r: Result<QrCode, EncodeError>)
    ensures AllEncodable(PayloadsOf(text))
    ensures r.Failure? <==> forall v :: 1 <= v <= 40 ==> !Fits(SegmentsOf(PayloadsOf(text)), v, ecl)
    ensures r.Success? ==>
              var qr := r.value;
              && fresh(qr) && fresh(qr.modules) && MaskInRange(qr.mask)
              && ReadSymbolText(Rows(qr.modules)) == Some(text)
              && IsLeastVersion(SegmentsOf(PayloadsOf(text)), ecl, 1, 40, qr.version)
              && IsLevelFor(SegmentsOf(PayloadsOf(text)), qr.version, ecl, true, qr.errorCorrectionLevel)
  {
    hide Fits, ReadPayloads, IsLevelFor, SegmentOf, TextOf, PayloadsOf;
    var segs := MakeSegments(text);
    r := EncodeSegments(segs, ecl, 1, 40, -1, true);
    if r.Success? {
      var qr := r.value;
      EncodedReadsBack(Rows(qr.modules), qr.version, qr.errorCorrectionLevel, PayloadsOf(text), -1, qr.mask);
      PayloadsSayText(text);
    }
  }
}
