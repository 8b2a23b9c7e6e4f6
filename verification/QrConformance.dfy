/**
 The generator's patterns, tables and orders are those of QrStandard.
 */
module QrConformance {
  import opened Bits
  import opened Numbers
  import opened BitPoly
  import opened Zigzag
  import opened QrTables
  import opened Interleave
  import opened FunctionPatterns
  import opened QrSymbol
  import opened Capacity
  import S = QrStandard

  // ------------------------------------------------------------------
  // Masks
  // ------------------------------------------------------------------

  /** The generator inverts exactly the modules of the standard's conditions. */
  lemma MaskAgrees(mask: int, x: nat, y: nat)
    ensures Invert(mask, x, y) == S.MaskCondition(mask, y, x)
  {
    SixfoldCases(x * y);
    assert x * y == y * x;
  }

  lemma SixfoldCases(p: nat)
    ensures p % 2 + p % 3 == 0 <==> p % 6 == 0
    ensures (p % 2 + p % 3) % 2 == 0 <==> p % 6 < 3
  {
    var q, r := p / 6, p % 6;
    Residues(2 * q, 3 * q, r, p);
    assert r == 0 || r == 1 || r == 2 || r == 3 || r == 4 || r == 5;
  }

  lemma Residues(a: nat, b: nat, r: nat, p: nat)
    requires p == 2 * b + r && p == 3 * a + r
    ensures p % 2 == r % 2 && p % 3 == r % 3
  {
    DivisionUnique(p, 2, b + r / 2, r % 2);
    DivisionUnique(p, 3, a + r / 3, r % 3);
  }

  // ------------------------------------------------------------------
  // The order of the data modules
  // ------------------------------------------------------------------

  /** The column counter before the n-th column. */
  function Counter(size: int, n: int): int
  {
    if size - 1 - 2 * n >= 6 then size - 1 - 2 * n else size - 2 - 2 * n
  }

  lemma {:induction false} ColumnsMatch(size: nat, n: nat)
    requires size >= 21 && size % 4 == 1 && 2 * n + 1 <= size
    ensures ScanFrom(size, Counter(size, n)) == S.ColumnsFrom(size, n)
    decreases size - 2 * n
  {
    if 2 * n + 1 < size {
      var right := Counter(size, n);
      var r := if right == 6 then 5 else right;
      forall k | 0 <= k < 2 * size
        ensures PairCell(size, r, k) == S.ColumnCell(size, n, k)
      {
        Direction(size, n, r);
      }
      assert Pair(size, r) == seq(2 * size, k => S.ColumnCell(size, n, k));
      assert Counter(size, n + 1) == r - 2;
      ColumnsMatch(size, n + 1);
    }
  }

  /** Columns go up and down in turn. */
  lemma Direction(size: int, n: int, r: int)
    requires size % 4 == 1 && n >= 0 && r >= 0 && (r == size - 1 - 2 * n || r == size - 2 - 2 * n)
    ensures (r + 1) / 2 % 2 == 0 <==> n % 2 == 0
  {
    var m := size / 4;
    assert (r + 1) / 2 == 2 * m - n;
  }

  lemma ScanAgrees(version: int)
    requires VersionInRange(version)
    ensures Scan(Size(version)) == S.ColumnsFrom(Size(version), 0)
  {
    ColumnsMatch(Size(version), 0);
  }

  // ------------------------------------------------------------------
  // Tables
  // ------------------------------------------------------------------

  ghost predicate RowAgrees(v: int, ecl: Ecc)
    requires VersionInRange(v)
  {
    && S.Table9(v).total == RawTable(v)
    && S.Blocks(v, ecl) == NumBlocks(v, ecl)
    && S.DataCodewords(v, ecl) == RawTable(v) - EccLen(v, ecl) * NumBlocks(v, ecl)
  }

  lemma LowRows(v: int)
    requires VersionInRange(v)
    ensures RowAgrees(v, LOW)
  {
    hide RawCodewords;
    Versions(v);
  }

  lemma MediumRows(v: int)
    requires VersionInRange(v)
    ensures RowAgrees(v, MEDIUM)
  {
    hide RawCodewords;
    Versions(v);
  }

  lemma QuartileRows(v: int)
    requires VersionInRange(v)
    ensures RowAgrees(v, QUARTILE)
  {
    hide RawCodewords;
    Versions(v);
  }

  lemma HighRows(v: int)
    requires VersionInRange(v)
    ensures RowAgrees(v, HIGH)
  {
    hide RawCodewords;
    Versions(v);
  }

  /** The generator's two tables and its formula give the capacities of tables 7 and 9. */
  lemma TablesAgree(v: int, ecl: Ecc)
    requires VersionInRange(v)
    ensures S.Table9(v).total == RawCodewords(v)
    ensures S.Blocks(v, ecl) == NumBlocks(v, ecl) == BlockParams(v, ecl).numBlocks >= 1
    ensures S.DataCodewords(v, ecl) == NumDataCodewords(v, ecl)
    ensures BlockParams(v, ecl).rawCodewords == S.Table9(v).total >= S.DataCodewords(v, ecl)
    ensures BlockParams(v, ecl).eccLen == (S.Table9(v).total - S.DataCodewords(v, ecl)) / S.Blocks(v, ecl)
  {
    Rows(v, ecl);
    hide RawTable, NumBlocks, EccLen, RawCodewords, S.Table9, S.Blocks, S.DataCodewords;
    LayoutPossible(v, ecl);
    ExactQuotient(EccLen(v, ecl), NumBlocks(v, ecl));
  }

  lemma Rows(v: int, ecl: Ecc)
    requires VersionInRange(v)
    ensures RowAgrees(v, ecl) && RawCodewords(v) == RawTable(v)
  {
    hide RowAgrees, RawTable, RawCodewords;
    Versions(v);
    match ecl
    case LOW => LowRows(v);
    case MEDIUM => MediumRows(v);
    case QUARTILE => QuartileRows(v);
    case HIGH => HighRows(v);
  }

  // ------------------------------------------------------------------
  // Blocks
  // ------------------------------------------------------------------

  /** The generator's parameters describe this layout. */
  ghost predicate SameLayout(p: Params, l: S.Layout)
    requires p.Valid()
  {
    l == S.Layout(p.numBlocks, p.DataCount(), p.rawCodewords)
  }

  lemma SameLengths(p: Params, l: S.Layout)
    requires p.Valid() && SameLayout(p, l)
    ensures l.n >= 1 && l.EccLen() == p.eccLen
    ensures l.data / l.n == p.ShortData() && l.data % l.n == l.n - p.NumShort()
    ensures l.data == l.data / l.n * l.n + l.data % l.n
  {
    p.ShortLenCoversEcc();
    WithoutEcc(p.numBlocks, p.eccLen, p.rawCodewords);
  }

  lemma WithoutEcc(n: nat, e: nat, raw: nat)
    requires n >= 1 && e <= raw / n
    ensures n * e <= raw && n * e / n == e
    ensures (raw - n * e) / n == raw / n - e && (raw - n * e) % n == raw % n
    ensures raw - n * e == (raw / n - e) * n + raw % n
  {
    var q, r := raw / n, raw % n;
    assert raw == q * n + r;
    TimesLess(q, e, n);
    DivisionUnique(n * e, n, e, 0);
    DivisionUnique(raw - n * e, n, q - e, r);
  }

  lemma TimesLess(q: nat, e: nat, n: nat)
    requires e <= q
    ensures (q - e) * n == q * n - n * e >= 0
  {}

  lemma DivisionUnique(x: nat, n: nat, q: nat, r: nat)
    requires x == q * n + r && r < n
    ensures x / n == q && x % n == r
  {
    var q', r' := x / n, x % n;
    assert x == q' * n + r';
    assert q * n + n == (q + 1) * n && q' * n + n == (q' + 1) * n;
    LessFactor(q, q' + 1, n);
    LessFactor(q', q + 1, n);
  }

  /** Every codeword of the table is where the standard puts it. */
  lemma PositionAgrees(p: Params, l: S.Layout, i: nat, j: nat)
    requires p.Valid() && SameLayout(p, l) && j < p.numBlocks
    ensures i < p.DataLen(j) ==> p.Position(i, j) == l.DataAt(i, j)
    ensures i < p.eccLen ==> p.Position(p.ShortData() + 1 + i, j) == l.EccAt(i, j)
  {
    SameLengths(p, l);
    hide Params.RowStart, Params.Valid, Params.DataCount, Params.NumShort, Params.ShortData;
    var s := p.ShortData();
    RowStartClosed(p, i);
    RowStartClosed(p, s + 1 + i);
    SumTimes(s, i, p.numBlocks, s + 1 + i);
  }

  lemma SumTimes(a: int, b: int, n: int, c: int)
    requires c == a + 1 + b
    ensures c * n == a * n + n + b * n
  {}

  lemma ReadBlockAt(p: Params, stream: seq<byte>, i: nat, j: nat)
    requires p.Valid() && |stream| == p.rawCodewords && j < p.numBlocks
    ensures i < p.DataLen(j) ==> ReadBlock(p, stream, j)[i] == S.CodewordAt(stream, p.Position(i, j))
    ensures i < p.eccLen ==> ReadEcc(p, stream, j)[i] == S.CodewordAt(stream, p.Position(p.ShortData() + 1 + i, j))
  {
    hide Params.RowStart;
    p.ShortLenCoversEcc();
    if i < p.DataLen(j) {
      PositionInRow(p, i, j);
    }
    if i < p.eccLen {
      PositionInRow(p, p.ShortData() + 1 + i, j);
    }
  }

  /** De-interleaving by the standard's places finds the same blocks. */
  lemma BlocksAgree(p: Params, l: S.Layout, stream: seq<byte>, j: nat)
    requires p.Valid() && SameLayout(p, l) && |stream| == p.rawCodewords && j < p.numBlocks
    ensures l.n >= 1 && S.BlockOf(stream, l, j) == ReadBlock(p, stream, j)
    ensures S.EccOf(stream, l, j) == ReadEcc(p, stream, j)
  {
    SameLengths(p, l);
    hide Params.Position, Params.NumShort, Params.ShortData, ReadBlock, ReadEcc, S.CodewordAt,
         S.Layout.DataAt, S.Layout.EccAt, S.Layout.EccLen, Params.Valid;
    assert l.DataLen(j) == p.DataLen(j);
    forall i | 0 <= i < p.DataLen(j)
      ensures S.BlockOf(stream, l, j)[i] == ReadBlock(p, stream, j)[i]
    {
      ReadBlockAt(p, stream, i, j);
      PositionAgrees(p, l, i, j);
    }
    forall i | 0 <= i < p.eccLen
      ensures S.EccOf(stream, l, j)[i] == ReadEcc(p, stream, j)[i]
    {
      ReadBlockAt(p, stream, i, j);
      PositionAgrees(p, l, i, j);
    }
  }

  lemma {:induction false} DataAgrees(p: Params, l: S.Layout, stream: seq<byte>, m: nat)
    requires p.Valid() && SameLayout(p, l) && |stream| == p.rawCodewords && m <= p.numBlocks
    ensures l.n >= 1 && S.DataOf(stream, l, m) == ReadBlocks(p, stream, m)
  {
    hide S.BlockOf, ReadBlock;
    if m > 0 {
      DataAgrees(p, l, stream, m - 1);
      BlocksAgree(p, l, stream, m - 1);
    }
  }

  /** The computed alignment coordinates are those of table E.1. */
  lemma CentersAgree(v: int)
    requires VersionInRange(v)
    ensures AlignPositions(v) == S.Centers(v)
  {
    hide S.Centers, AlignStep, Centers;
    if v == 1 {
      NoCenters();
    } else {
      var n, step := NumAlign(v), AlignStep(v);
      var pos, table := AlignPositions(v), S.Centers(v);
      TableShape(v);
      forall i | 0 < i < n
        ensures pos[i] == table[i]
      {
        CenterAt(Size(v), step, n - 1, i - 1);
        SpacedAt(v, i);
      }
    }
  }

  lemma NoCenters()
    ensures S.Centers(1) == []
  {}

  /** Table E.1 is equally spaced from the right. */
  ghost predicate Spaced(v: int)
    requires v >= 2
  {
    var table := S.Centers(v);
    && |table| == NumAlign(v) && table[0] == 6
    && table[|table| - 1] == v * 4 + 10
    && forall i :: 2 <= i < |table| ==> table[i] - table[i - 1] == AlignStep(v)
  }

  lemma {:induction false} SpacedAt(v: int, i: nat)
    requires v >= 2 && Spaced(v) && 0 < i < NumAlign(v)
    ensures S.Centers(v)[i] == v * 4 + 10 - (NumAlign(v) - 1 - i) * AlignStep(v)
    decreases NumAlign(v) - i
  {
    hide S.Centers, AlignStep;
    if i + 1 < NumAlign(v) {
      SpacedAt(v, i + 1);
      var k := i + 1;
      assert S.Centers(v)[k] - S.Centers(v)[k - 1] == AlignStep(v);
      assert (NumAlign(v) - 1 - i) * AlignStep(v) == (NumAlign(v) - 1 - k) * AlignStep(v) + AlignStep(v);
    }
  }

  lemma TableShape(v: int)
    requires 2 <= v <= 40
    ensures Spaced(v)
  {
    hide Spaced;
    if v <= 7 {
      Shape2To7(v);
    } else if v <= 13 {
      Shape8To13(v);
    } else if v <= 20 {
      Shape14To20(v);
    } else if v <= 27 {
      Shape21To27(v);
    } else if v <= 34 {
      Shape28To34(v);
    } else {
      Shape35To40(v);
    }
  }

  /** The step is the quotient h, doubled. */
  lemma StepIs(v: int, n: int, h: int)
    requires 2 <= n <= 8 && v / 7 + 2 == n && h * (4 * n - 4) <= 8 * v + 3 * n + 5 < h * (4 * n - 4) + 4 * n - 4
    ensures NumAlign(v) == n && v >= 0 && AlignStep(v) == 2 * h
  {
    var x, b := 8 * v + 3 * n + 5, 4 * n - 4;
    DivisionUnique(x, b, h, x - h * b);
  }

  lemma Shape2To7(v: int)
    requires 2 <= v <= 7
    ensures Spaced(v)
  {
    hide AlignStep, NumAlign;
    match v
    case 2 => StepIs(2, 2, 6);
    case 3 => StepIs(3, 2, 8);
    case 4 => StepIs(4, 2, 10);
    case 5 => StepIs(5, 2, 12);
    case 6 => StepIs(6, 2, 14);
    case _ => StepIs(7, 3, 8);
  }

  lemma Shape8To13(v: int)
    requires 8 <= v <= 13
    ensures Spaced(v)
  {
    hide AlignStep, NumAlign;
    match v
    case 8 => StepIs(8, 3, 9);
    case 9 => StepIs(9, 3, 10);
    case 10 => StepIs(10, 3, 11);
    case 11 => StepIs(11, 3, 12);
    case 12 => StepIs(12, 3, 13);
    case _ => StepIs(13, 3, 14);
  }

  lemma Shape14To20(v: int)
    requires 14 <= v <= 20
    ensures Spaced(v)
  {
    hide AlignStep, NumAlign;
    match v
    case 14 => StepIs(14, 4, 10);
    case 15 => StepIs(15, 4, 11);
    case 16 => StepIs(16, 4, 12);
    case 17 => StepIs(17, 4, 12);
    case 18 => StepIs(18, 4, 13);
    case 19 => StepIs(19, 4, 14);
    case _ => StepIs(20, 4, 14);
  }

  lemma Shape21To27(v: int)
    requires 21 <= v <= 27
    ensures Spaced(v)
  {
    hide AlignStep, NumAlign;
    match v
    case 21 => StepIs(21, 5, 11);
    case 22 => StepIs(22, 5, 12);
    case 23 => StepIs(23, 5, 12);
    case 24 => StepIs(24, 5, 13);
    case 25 => StepIs(25, 5, 13);
    case 26 => StepIs(26, 5, 14);
    case _ => StepIs(27, 5, 14);
  }

  lemma Shape28To34(v: int)
    requires 28 <= v <= 34
    ensures Spaced(v)
  {
    hide AlignStep, NumAlign;
    match v
    case 28 => StepIs(28, 6, 12);
    case 29 => StepIs(29, 6, 12);
    case 30 => StepIs(30, 6, 13);
    case 31 => StepIs(31, 6, 13);
    case 32 => StepIs(32, 6, 13);
    case 33 => StepIs(33, 6, 14);
    case _ => StepIs(34, 6, 14);
  }

  lemma Shape35To40(v: int)
    requires 35 <= v <= 40
    ensures Spaced(v)
  {
    hide AlignStep, NumAlign;
    match v
    case 35 => StepIs(35, 7, 12);
    case 36 => StepIs(36, 7, 13);
    case 37 => StepIs(37, 7, 13);
    case 38 => StepIs(38, 7, 13);
    case 39 => StepIs(39, 7, 14);
    case _ => StepIs(40, 7, 14);
  }

  // ------------------------------------------------------------------
  // Function modules
  // ------------------------------------------------------------------

  lemma AlignmentAgrees(pos: seq<int>, x: int, y: int)
    ensures IsAlignment(pos, x, y) <==>
              exists i, j :: S.HasAlignment(pos, i, j) && pos[i] - 2 <= x <= pos[i] + 2 && pos[j] - 2 <= y <= pos[j] + 2
  {
    if IsAlignment(pos, x, y) {
      var i, j :| 0 <= i < |pos| && 0 <= j < |pos| && AlignmentAt(pos, i, j, x, y);
      assert S.HasAlignment(pos, i, j);
    }
    if i, j :| S.HasAlignment(pos, i, j) && pos[i] - 2 <= x <= pos[i] + 2 && pos[j] - 2 <= y <= pos[j] + 2 {
      assert AlignmentAt(pos, i, j, x, y);
    }
  }

  lemma CornersAgree(size: int, x: int, y: int)
    requires size >= 21 && 0 <= x < size && 0 <= y < size
    ensures IsFinder(size, x, y) || IsFormat(size, x, y) || IsTiming(x, y) <==>
              (x <= 8 && y <= 8) || (x >= size - 8 && y <= 8) || (x <= 8 && y >= size - 8) || x == 6 || y == 6
  {
    if x <= 7 && y <= 7 {
      assert InFinder(3, 3, x, y);
    } else if x >= size - 8 && y <= 7 {
      assert InFinder(size - 4, 3, x, y);
    } else if x <= 7 && y >= size - 8 {
      assert InFinder(3, size - 4, x, y);
    }
  }

  /** The generator leaves exactly the unreserved modules for data. */
  lemma ReservedAgrees(version: int, x: int, y: int)
    requires VersionInRange(version) && 0 <= x < Size(version) && 0 <= y < Size(version)
    ensures IsFunctionModule(version, x, y) <==> S.Reserved(version, x, y)
  {
    hide IsAlignment, IsFinder, IsFormat, IsTiming, AlignPositions, S.Centers;
    CentersAgree(version);
    AlignmentAgrees(AlignPositions(version), x, y);
    CornersAgree(Size(version), x, y);
  }
}
