/**
 Versions, error correction levels and capacities of QR symbols
 (ISO/IEC 18004:2015, tables 1 and 9).
 */
module QrTables {
  import opened Interleave

  const MIN_VERSION: int := 1
  const MAX_VERSION: int := 40

  datatype Ecc = LOW | MEDIUM | QUARTILE | HIGH {

    /** The two bits that encode the level in the format information. */
    function FormatBits(): nat
    {
      match this
      case LOW => 1
      case MEDIUM => 0
      case QUARTILE => 3
      case HIGH => 2
    }
  }

  predicate VersionInRange(version: int)
  {
    MIN_VERSION <= version <= MAX_VERSION
  }

  /** Modules left for data once all function modules are drawn. */
  function NumRawDataModules(ver: int): int
    requires VersionInRange(ver)
  {
    var n := ver / 7 + 2;
    (16 * ver + 128) * ver + 64
    - (if ver >= 2 then (25 * n - 10) * n - 55 + (if ver >= 7 then 36 else 0) else 0)
  }

  /** Number of error correction blocks. */
  function NumBlocks(ver: int, ecl: Ecc): int
    requires VersionInRange(ver)
  {
    match ecl
    case LOW => (match ver
      case 1 => 1 case 2 => 1 case 3 => 1 case 4 => 1 case 5 => 1 case 6 => 2 case 7 => 2 case 8 => 2
      case 9 => 2 case 10 => 4 case 11 => 4 case 12 => 4 case 13 => 4 case 14 => 4 case 15 => 6 case 16 => 6
      case 17 => 6 case 18 => 6 case 19 => 7 case 20 => 8 case 21 => 8 case 22 => 9 case 23 => 9 case 24 => 10
      case 25 => 12 case 26 => 12 case 27 => 12 case 28 => 13 case 29 => 14 case 30 => 15 case 31 => 16 case 32 => 17
      case 33 => 18 case 34 => 19 case 35 => 19 case 36 => 20 case 37 => 21 case 38 => 22 case 39 => 24 case _ => 25)
    case MEDIUM => (match ver
      case 1 => 1 case 2 => 1 case 3 => 1 case 4 => 2 case 5 => 2 case 6 => 4 case 7 => 4 case 8 => 4
      case 9 => 5 case 10 => 5 case 11 => 5 case 12 => 8 case 13 => 9 case 14 => 9 case 15 => 10 case 16 => 10
      case 17 => 11 case 18 => 13 case 19 => 14 case 20 => 16 case 21 => 17 case 22 => 17 case 23 => 18 case 24 => 20
      case 25 => 21 case 26 => 23 case 27 => 25 case 28 => 26 case 29 => 28 case 30 => 29 case 31 => 31 case 32 => 33
      case 33 => 35 case 34 => 37 case 35 => 38 case 36 => 40 case 37 => 43 case 38 => 45 case 39 => 47 case _ => 49)
    case QUARTILE => (match ver
      case 1 => 1 case 2 => 1 case 3 => 2 case 4 => 2 case 5 => 4 case 6 => 4 case 7 => 6 case 8 => 6
      case 9 => 8 case 10 => 8 case 11 => 8 case 12 => 10 case 13 => 12 case 14 => 16 case 15 => 12 case 16 => 17
      case 17 => 16 case 18 => 18 case 19 => 21 case 20 => 20 case 21 => 23 case 22 => 23 case 23 => 25 case 24 => 27
      case 25 => 29 case 26 => 34 case 27 => 34 case 28 => 35 case 29 => 38 case 30 => 40 case 31 => 43 case 32 => 45
      case 33 => 48 case 34 => 51 case 35 => 53 case 36 => 56 case 37 => 59 case 38 => 62 case 39 => 65 case _ => 68)
    case HIGH => (match ver
      case 1 => 1 case 2 => 1 case 3 => 2 case 4 => 4 case 5 => 4 case 6 => 4 case 7 => 5 case 8 => 6
      case 9 => 8 case 10 => 8 case 11 => 11 case 12 => 11 case 13 => 16 case 14 => 16 case 15 => 18 case 16 => 16
      case 17 => 19 case 18 => 21 case 19 => 25 case 20 => 25 case 21 => 25 case 22 => 34 case 23 => 30 case 24 => 32
      case 25 => 35 case 26 => 37 case 27 => 40 case 28 => 42 case 29 => 45 case 30 => 48 case 31 => 51 case 32 => 54
      case 33 => 57 case 34 => 60 case 35 => 63 case 36 => 66 case 37 => 70 case 38 => 74 case 39 => 77 case _ => 81)
  }

  /** Error correction codewords per block. */
  function EccLen(ver: int, ecl: Ecc): int
    requires VersionInRange(ver)
  {
    match ecl
    case LOW => (match ver
      case 1 => 7 case 2 => 10 case 3 => 15 case 4 => 20 case 5 => 26 case 6 => 18 case 7 => 20 case 8 => 24
      case 9 => 30 case 10 => 18 case 11 => 20 case 12 => 24 case 13 => 26 case 14 => 30 case 15 => 22 case 16 => 24
      case 17 => 28 case 18 => 30 case 19 => 28 case 20 => 28 case 21 => 28 case 22 => 28 case 23 => 30 case 24 => 30
      case 25 => 26 case 26 => 28 case 27 => 30 case 28 => 30 case 29 => 30 case 30 => 30 case 31 => 30 case 32 => 30
      case 33 => 30 case 34 => 30 case 35 => 30 case 36 => 30 case 37 => 30 case 38 => 30 case 39 => 30 case _ => 30)
    case MEDIUM => (match ver
      case 1 => 10 case 2 => 16 case 3 => 26 case 4 => 18 case 5 => 24 case 6 => 16 case 7 => 18 case 8 => 22
      case 9 => 22 case 10 => 26 case 11 => 30 case 12 => 22 case 13 => 22 case 14 => 24 case 15 => 24 case 16 => 28
      case 17 => 28 case 18 => 26 case 19 => 26 case 20 => 26 case 21 => 26 case 22 => 28 case 23 => 28 case 24 => 28
      case 25 => 28 case 26 => 28 case 27 => 28 case 28 => 28 case 29 => 28 case 30 => 28 case 31 => 28 case 32 => 28
      case 33 => 28 case 34 => 28 case 35 => 28 case 36 => 28 case 37 => 28 case 38 => 28 case 39 => 28 case _ => 28)
    case QUARTILE => (match ver
      case 1 => 13 case 2 => 22 case 3 => 18 case 4 => 26 case 5 => 18 case 6 => 24 case 7 => 18 case 8 => 22
      case 9 => 20 case 10 => 24 case 11 => 28 case 12 => 26 case 13 => 24 case 14 => 20 case 15 => 30 case 16 => 24
      case 17 => 28 case 18 => 28 case 19 => 26 case 20 => 30 case 21 => 28 case 22 => 30 case 23 => 30 case 24 => 30
      case 25 => 30 case 26 => 28 case 27 => 30 case 28 => 30 case 29 => 30 case 30 => 30 case 31 => 30 case 32 => 30
      case 33 => 30 case 34 => 30 case 35 => 30 case 36 => 30 case 37 => 30 case 38 => 30 case 39 => 30 case _ => 30)
    case HIGH => (match ver
      case 1 => 17 case 2 => 28 case 3 => 22 case 4 => 16 case 5 => 22 case 6 => 28 case 7 => 26 case 8 => 26
      case 9 => 24 case 10 => 28 case 11 => 24 case 12 => 28 case 13 => 22 case 14 => 24 case 15 => 24 case 16 => 30
      case 17 => 28 case 18 => 28 case 19 => 26 case 20 => 28 case 21 => 30 case 22 => 24 case 23 => 30 case 24 => 30
      case 25 => 30 case 26 => 30 case 27 => 30 case 28 => 30 case 29 => 30 case 30 => 30 case 31 => 30 case 32 => 30
      case 33 => 30 case 34 => 30 case 35 => 30 case 36 => 30 case 37 => 30 case 38 => 30 case 39 => 30 case _ => 30)
  }

  function RawCodewords(ver: int): int
    requires VersionInRange(ver)
  {
    NumRawDataModules(ver) / 8
  }

  predicate Consistent(ver: int, ecl: Ecc)
    requires VersionInRange(ver)
  {
    && 1 <= NumBlocks(ver, ecl)
    && 1 <= EccLen(ver, ecl) <= 255
    && NumBlocks(ver, ecl) * EccLen(ver, ecl) <= RawCodewords(ver)
  }

  /** The codeword capacities, version by version. */
  function RawTable(v: int): int
  {
    match v
    case 1 => 26 case 2 => 44 case 3 => 70 case 4 => 100 case 5 => 134
    case 6 => 172 case 7 => 196 case 8 => 242 case 9 => 292 case 10 => 346
    case 11 => 404 case 12 => 466 case 13 => 532 case 14 => 581 case 15 => 655
    case 16 => 733 case 17 => 815 case 18 => 901 case 19 => 991 case 20 => 1085
    case 21 => 1156 case 22 => 1258 case 23 => 1364 case 24 => 1474 case 25 => 1588
    case 26 => 1706 case 27 => 1828 case 28 => 1921 case 29 => 2051 case 30 => 2185
    case 31 => 2323 case 32 => 2465 case 33 => 2611 case 34 => 2761 case 35 => 2876
    case 36 => 3034 case 37 => 3196 case 38 => 3362 case 39 => 3532 case _ => 3706
  }

  lemma RawCodewordsTo20(v: int)
    requires 1 <= v <= 20
    ensures RawCodewords(v) == RawTable(v)
  {
    assert
         v == 1 || v == 2 || v == 3 || v == 4 || v == 5 || v == 6 || v == 7 || v == 8 || v == 9 || v == 10
      || v == 11 || v == 12 || v == 13 || v == 14 || v == 15 || v == 16 || v == 17 || v == 18 || v == 19 || v == 20;
  }

  lemma RawCodewordsTo40(v: int)
    requires 21 <= v <= 40
    ensures RawCodewords(v) == RawTable(v)
  {
    assert
         v == 21 || v == 22 || v == 23 || v == 24 || v == 25 || v == 26 || v == 27 || v == 28 || v == 29 || v == 30
      || v == 31 || v == 32 || v == 33 || v == 34 || v == 35 || v == 36 || v == 37 || v == 38 || v == 39 || v == 40;
  }

  lemma Versions(v: int)
    requires VersionInRange(v)
    ensures
         v == 1 || v == 2 || v == 3 || v == 4 || v == 5 || v == 6 || v == 7 || v == 8 || v == 9 || v == 10
      || v == 11 || v == 12 || v == 13 || v == 14 || v == 15 || v == 16 || v == 17 || v == 18 || v == 19 || v == 20
      || v == 21 || v == 22 || v == 23 || v == 24 || v == 25 || v == 26 || v == 27 || v == 28 || v == 29 || v == 30
      || v == 31 || v == 32 || v == 33 || v == 34 || v == 35 || v == 36 || v == 37 || v == 38 || v == 39 || v == 40
    ensures RawCodewords(v) == RawTable(v)
  {
    if v <= 20 { RawCodewordsTo20(v); } else { RawCodewordsTo40(v); }
  }

  lemma ConsistentLow(v: int)
    requires VersionInRange(v)
    ensures Consistent(v, LOW)
  {
    hide RawCodewords;
    Versions(v);
  }

  lemma ConsistentMedium(v: int)
    requires VersionInRange(v)
    ensures Consistent(v, MEDIUM)
  {
    hide RawCodewords;
    Versions(v);
  }

  lemma ConsistentQuartile(v: int)
    requires VersionInRange(v)
    ensures Consistent(v, QUARTILE)
  {
    hide RawCodewords;
    Versions(v);
  }

  lemma ConsistentHigh(v: int)
    requires VersionInRange(v)
    ensures Consistent(v, HIGH)
  {
    hide RawCodewords;
    Versions(v);
  }

  /** The tables describe possible block layouts for every version and level. */
  lemma TablesConsistent(v: int, ecl: Ecc)
    requires VersionInRange(v)
    ensures Consistent(v, ecl)
  {
    hide Consistent;
    match ecl
    case LOW => ConsistentLow(v);
    case MEDIUM => ConsistentMedium(v);
    case QUARTILE => ConsistentQuartile(v);
    case HIGH => ConsistentHigh(v);
  }

  lemma LayoutPossible(v: int, ecl: Ecc)
    requires VersionInRange(v)
    ensures NumBlocks(v, ecl) >= 1 && EccLen(v, ecl) >= 1 && RawCodewords(v) >= 0
    ensures Params(NumBlocks(v, ecl), EccLen(v, ecl), RawCodewords(v)).Valid()
  {
    hide NumBlocks, EccLen, RawCodewords;
    TablesConsistent(v, ecl);
    assert NumBlocks(v, ecl) * EccLen(v, ecl) >= 0;
  }

  /** The block layout of a version and level. */
  function BlockParams(ver: int, ecl: Ecc): (p: Params)
    requires VersionInRange(ver)
    ensures p.Valid()
  {
    LayoutPossible(ver, ecl);
    Params(NumBlocks(ver, ecl), EccLen(ver, ecl), RawCodewords(ver))
  }

  function NumDataCodewords(ver: int, ecl: Ecc): int
    requires VersionInRange(ver)
  {
    RawCodewords(ver) - EccLen(ver, ecl) * NumBlocks(ver, ecl)
  }

  lemma DataCodewordsFillBlocks(ver: int, ecl: Ecc)
    requires VersionInRange(ver)
    ensures NumDataCodewords(ver, ecl) == BlockParams(ver, ecl).DataCount()
  {
    hide NumBlocks, EccLen, RawCodewords;
    LayoutPossible(ver, ecl);
  }
}
