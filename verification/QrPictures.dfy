/**
 A finished symbol shows the pictures, and carries the format and version words, of
 QrStandard.
 */
module QrPictures {
  import opened Bits
  import opened BitPoly
  import opened Zigzag
  import opened QrTables
  import opened Interleave
  import opened FunctionPatterns
  import opened QrSymbol
  import opened Capacity
  import opened QrConformance
  import S = QrStandard

  // ------------------------------------------------------------------
  // Function modules of a finished symbol
  // ------------------------------------------------------------------

  /** g has all its function modules as declared for this mask. */
  ghost predicate Patterned(g: Grid, version: int, ecl: Ecc, mask: int)
    requires VersionInRange(version) && MaskInRange(mask)
  {
    && Square(g, Size(version))
    && forall x, y :: 0 <= x < Size(version) && 0 <= y < Size(version) && IsFunctionModule(version, x, y) ==>
         g[y][x] == FunctionDark(version, ecl, mask, x, y)
  }

  lemma FinishedPatterned(plain: Grid, version: int, ecl: Ecc, data: seq<byte>, stream: seq<byte>, mask: int)
    requires VersionInRange(version) && MaskInRange(mask) && Square(plain, Size(version))
    requires Carries(plain, version, ecl, data, stream)
    ensures Patterned(Finish(plain, version, ecl, mask), version, ecl, mask)
  {
    hide StreamFor, Scan, StreamBits, Drawn, IsFunctionModule, FunctionDark;
    var size, g := Size(version), Finish(plain, version, ecl, mask);
    ScanStaysInside(size);
    DrawnKeepsFunctionModules(Scan(size), FunctionGrid(version), Blank(version, ecl), StreamBits(stream), plain);
    forall x, y | 0 <= x < size && 0 <= y < size && IsFunctionModule(version, x, y)
      ensures g[y][x] == FunctionDark(version, ecl, mask, x, y)
    {
      OnlyFormatDepends(version, ecl, mask, x, y);
    }
  }

  /** Only format modules depend on the mask. */
  lemma OnlyFormatDepends(version: int, ecl: Ecc, mask: int, x: int, y: int)
    requires VersionInRange(version) && MaskInRange(mask)
    ensures IsFormat(Size(version), x, y) ==>
              FunctionDark(version, ecl, mask, x, y) == FormatDark(Size(version), FormatBits(ecl, mask), x, y)
    ensures !IsFormat(Size(version), x, y) ==>
              FunctionDark(version, ecl, mask, x, y) == FunctionDark(version, ecl, 0, x, y)
  {
    hide FormatBits, AlignmentDark, FinderColor;
  }

  // ------------------------------------------------------------------
  // Where alignment patterns are not
  // ------------------------------------------------------------------

  lemma AlignmentAway(version: int, x: int, y: int)
    requires VersionInRange(version) && IsAlignment(AlignPositions(version), x, y)
    ensures var size := Size(version);
      (4 <= x <= 8 && 9 <= y <= size - 10) || (9 <= x <= size - 10 && 4 <= y <= 8)
      || (9 <= x <= size - 5 && 9 <= y <= size - 5)
    ensures var size := Size(version);
      version >= 7 ==> (4 <= x <= 8 && y <= size - 21) || (x <= size - 21 && 4 <= y <= 8) || (9 <= x && 9 <= y)
  {
    hide AlignPositions;
    var size, pos := Size(version), AlignPositions(version);
    AlignPositionsSpaced(version);
    FirstCenter(version);
    if version >= 7 { PositionsClear(version); }
    var i: nat, j: nat :| i < |pos| && j < |pos| && AlignmentAt(pos, i, j, x, y);
    FirstRow(pos, size, i);
    FirstRow(pos, size, j);
  }

  lemma AlignmentNotInformation(version: int, x: int, y: int)
    requires VersionInRange(version) && IsAlignment(AlignPositions(version), x, y)
    ensures !IsVersion(version, x, y) && !IsFormat(Size(version), x, y)
  {
    hide IsAlignment, AlignPositions;
    AlignmentAway(version, x, y);
  }

  // ------------------------------------------------------------------
  // Finder patterns
  // ------------------------------------------------------------------

  lemma EightCases(c: int)
    requires 0 <= c < 8
    ensures c == 0 || c == 1 || c == 2 || c == 3 || c == 4 || c == 5 || c == 6 || c == 7
  {}

  lemma TopLeftIs(r: int, c: int)
    requires 0 <= r < 8 && 0 <= c < 8
    ensures |S.TOP_LEFT[r]| == 8 && (S.TOP_LEFT[r][c] == '#') == FinderDark(3, 3, c, r)
  {
    EightCases(r);
    EightCases(c);
  }

  lemma TopRightIs(r: int, c: int)
    requires 0 <= r < 8 && 0 <= c < 8
    ensures |S.TOP_RIGHT[r]| == 8 && (S.TOP_RIGHT[r][c] == '#') == FinderDark(4, 3, c, r)
  {
    EightCases(r);
    EightCases(c);
  }

  lemma BottomLeftIs(r: int, c: int)
    requires 0 <= r < 8 && 0 <= c < 8
    ensures |S.BOTTOM_LEFT[r]| == 8 && (S.BOTTOM_LEFT[r][c] == '#') == FinderDark(3, 4, c, r)
  {
    EightCases(r);
    EightCases(c);
  }

  /** In the three corners the finder pattern is drawn over everything else. */
  lemma CornerColor(version: int, ecl: Ecc, mask: int, x: int, y: int)
    requires VersionInRange(version) && MaskInRange(mask) && 0 <= x < Size(version) && 0 <= y < Size(version)
    requires var size := Size(version);
      (x <= 7 && y <= 7) || (x >= size - 8 && y <= 7) || (x <= 7 && y >= size - 8)
    ensures IsFunctionModule(version, x, y)
    ensures var size := Size(version);
      FunctionDark(version, ecl, mask, x, y) ==
      if x <= 7 && y <= 7 then FinderDark(3, 3, x, y)
      else if x >= size - 8 then FinderDark(size - 4, 3, x, y)
      else FinderDark(3, size - 4, x, y)
  {
    hide IsAlignment, AlignPositions, FinderDark, FormatBits, AlignmentDark, VersionBits;
    if IsAlignment(AlignPositions(version), x, y) {
      AlignmentAway(version, x, y);
    }
    assert !IsFormat(Size(version), x, y) && !IsVersion(version, x, y);
  }

  lemma CornersShown(g: Grid, version: int, ecl: Ecc, mask: int)
    requires VersionInRange(version) && MaskInRange(mask) && Patterned(g, version, ecl, mask)
    ensures var size := Size(version);
      S.Shows(g, 0, 0, S.TOP_LEFT) && S.Shows(g, size - 8, 0, S.TOP_RIGHT) && S.Shows(g, 0, size - 8, S.BOTTOM_LEFT)
  {
    hide S.Shows;
    var size := Size(version);
    ThreeEights();
    CornerShown(g, version, ecl, mask, 0, 0, S.TOP_LEFT);
    CornerShown(g, version, ecl, mask, size - 8, 0, S.TOP_RIGHT);
    CornerShown(g, version, ecl, mask, 0, size - 8, S.BOTTOM_LEFT);
  }

  lemma CornerShown(g: Grid, version: int, ecl: Ecc, mask: int, x: int, y: int, picture: S.Picture)
    requires VersionInRange(version) && MaskInRange(mask) && Patterned(g, version, ecl, mask)
    requires |picture| == 8 && forall r :: 0 <= r < 8 ==> |picture[r]| == 8
    requires
      || (picture == S.TOP_LEFT && x == 0 && y == 0)
      || (picture == S.TOP_RIGHT && x == Size(version) - 8 && y == 0)
      || (picture == S.BOTTOM_LEFT && x == 0 && y == Size(version) - 8)
    ensures S.Shows(g, x, y, picture)
  {
    hide FunctionDark, IsFunctionModule, FinderDark;
    var size := Size(version);
    forall r, c | 0 <= r < 8 && 0 <= c < 8
      ensures S.Dark(g, x + c, y + r) == (picture[r][c] == '#')
    {
      CornerColor(version, ecl, mask, x + c, y + r);
      if x == 0 && y == 0 {
        TopLeftIs(r, c);
      } else if y == 0 {
        TopRightIs(r, c);
        FinderMoves(size - 4, 3, x + c, r, 4, 3, c, r);
      } else {
        BottomLeftIs(r, c);
        FinderMoves(3, size - 4, c, y + r, 3, 4, c, r);
      }
    }
  }

  lemma ThreeEights()
    ensures |S.TOP_LEFT| == 8 && |S.TOP_RIGHT| == 8 && |S.BOTTOM_LEFT| == 8
    ensures forall r :: 0 <= r < 8 ==> |S.TOP_LEFT[r]| == 8 && |S.TOP_RIGHT[r]| == 8 && |S.BOTTOM_LEFT[r]| == 8
  {
    forall r | 0 <= r < 8
      ensures |S.TOP_LEFT[r]| == 8 && |S.TOP_RIGHT[r]| == 8 && |S.BOTTOM_LEFT[r]| == 8
    {
      EightCases(r);
    }
  }

  lemma FinderMoves(cx: int, cy: int, x: int, y: int, cx': int, cy': int, x': int, y': int)
    requires x - cx == x' - cx' && y - cy == y' - cy'
    ensures FinderDark(cx, cy, x, y) == FinderDark(cx', cy', x', y')
  {}

  // ------------------------------------------------------------------
  // Alignment and timing patterns
  // ------------------------------------------------------------------

  lemma AlignmentIs(r: int, c: int)
    requires 0 <= r < 5 && 0 <= c < 5
    ensures |S.ALIGNMENT[r]| == 5 && (S.ALIGNMENT[r][c] == '#') == (Dist(c - 2, r - 2) != 1)
  {
    assert r == 0 || r == 1 || r == 2 || r == 3 || r == 4;
    assert c == 0 || c == 1 || c == 2 || c == 3 || c == 4;
  }

  lemma AlignmentColor(version: int, ecl: Ecc, mask: int, i: nat, j: nat, x: int, y: int)
    requires VersionInRange(version) && MaskInRange(mask)
    requires AlignmentAt(AlignPositions(version), i, j, x, y)
    ensures 0 <= x < Size(version) && 0 <= y < Size(version) && IsFunctionModule(version, x, y)
    ensures var pos := AlignPositions(version);
      FunctionDark(version, ecl, mask, x, y) == (Dist(x - pos[i], y - pos[j]) != 1)
  {
    hide AlignPositions, FormatBits, VersionBits, Dist;
    var pos := AlignPositions(version);
    AlignPositionsSpaced(version);
    AlignedStep(pos, Size(version), i, j, x, y);
    assert IsAlignment(pos, x, y);
    AlignmentNotInformation(version, x, y);
    AlignmentAway(version, x, y);
  }

  lemma AlignmentsShown(g: Grid, version: int, ecl: Ecc, mask: int, i: int, j: int)
    requires VersionInRange(version) && MaskInRange(mask) && Patterned(g, version, ecl, mask)
    requires S.HasAlignment(S.Centers(version), i, j)
    ensures var centers := S.Centers(version); S.Shows(g, centers[i] - 2, centers[j] - 2, S.ALIGNMENT)
  {
    hide FunctionDark, IsFunctionModule, AlignPositions, S.Centers;
    CentersAgree(version);
    var pos := AlignPositions(version);
    forall r, c | 0 <= r < 5 && 0 <= c < 5
      ensures |S.ALIGNMENT[r]| == 5 && S.Dark(g, pos[i] - 2 + c, pos[j] - 2 + r) == (S.ALIGNMENT[r][c] == '#')
    {
      AlignmentIs(r, c);
      assert AlignmentAt(pos, i, j, pos[i] - 2 + c, pos[j] - 2 + r);
      AlignmentColor(version, ecl, mask, i, j, pos[i] - 2 + c, pos[j] - 2 + r);
    }
    FiveFives();
  }

  lemma FiveFives()
    ensures |S.ALIGNMENT| == 5 && forall r :: 0 <= r < 5 ==> |S.ALIGNMENT[r]| == 5
  {
    forall r | 0 <= r < 5
      ensures |S.ALIGNMENT[r]| == 5
    {
      AlignmentIs(r, 0);
    }
  }

  lemma CentersEven(version: int, i: nat)
    requires VersionInRange(version) && i < |AlignPositions(version)|
    ensures AlignPositions(version)[i] % 2 == 0
  {
    hide AlignStep, Centers;
    if i > 0 {
      var step, m := AlignStep(version), NumAlign(version) - 1;
      CenterAt(Size(version), step, m, i - 1);
      StepEven(version);
      EvenMultiple(m - i, step);
    }
  }

  lemma StepEven(version: int)
    requires version >= 0
    ensures AlignStep(version) % 2 == 0
  {}

  lemma EvenMultiple(a: nat, b: int)
    requires b % 2 == 0
    ensures a * b % 2 == 0
  {
    var h := b / 2;
    assert a * b == 2 * (a * h);
  }

  /** Alignment patterns that cross the timing patterns keep them. */
  lemma TimingColor(version: int, ecl: Ecc, mask: int, k: int)
    requires VersionInRange(version) && MaskInRange(mask) && 8 <= k < Size(version) - 8
    ensures IsFunctionModule(version, k, 6) && FunctionDark(version, ecl, mask, k, 6) == (k % 2 == 0)
    ensures IsFunctionModule(version, 6, k) && FunctionDark(version, ecl, mask, 6, k) == (k % 2 == 0)
  {
    hide AlignPositions, IsAlignment, FunctionDark, IsFunctionModule;
    var pos := AlignPositions(version);
    if IsAlignment(pos, k, 6) {
      AlignedTiming(version, ecl, mask, k, 6);
    } else {
      OpenTiming(version, ecl, mask, k, 6);
    }
    if IsAlignment(pos, 6, k) {
      AlignedTiming(version, ecl, mask, 6, k);
    } else {
      OpenTiming(version, ecl, mask, 6, k);
    }
  }

  lemma OpenTiming(version: int, ecl: Ecc, mask: int, x: int, y: int)
    requires VersionInRange(version) && MaskInRange(mask) && !IsAlignment(AlignPositions(version), x, y)
    requires (8 <= x < Size(version) - 8 && y == 6) || (8 <= y < Size(version) - 8 && x == 6)
    ensures IsFunctionModule(version, x, y) && FunctionDark(version, ecl, mask, x, y) == ((x + y) % 2 == 0)
  {
    hide AlignPositions, FormatBits, VersionBits, IsAlignment, AlignmentDark;
  }

  lemma AlignedTiming(version: int, ecl: Ecc, mask: int, x: int, y: int)
    requires VersionInRange(version) && MaskInRange(mask) && IsAlignment(AlignPositions(version), x, y)
    requires x == 6 || y == 6
    ensures IsFunctionModule(version, x, y) && FunctionDark(version, ecl, mask, x, y) == ((x + y) % 2 == 0)
  {
    hide AlignPositions, FunctionDark, IsFunctionModule;
    var pos := AlignPositions(version);
    AlignPositionsSpaced(version);
    FirstCenter(version);
    var i, j :| 0 <= i < |pos| && 0 <= j < |pos| && AlignmentAt(pos, i, j, x, y);
    CrossesTiming(pos, Size(version), i, j, x, y);
    AlignmentColor(version, ecl, mask, i, j, x, y);
    CentersEven(version, i);
    CentersEven(version, j);
  }

  lemma CrossesTiming(pos: seq<int>, size: int, i: nat, j: nat, x: int, y: int)
    requires WellSpaced(pos, size) && AlignmentAt(pos, i, j, x, y) && pos[0] == 6
    ensures y == 6 ==> pos[j] == 6
    ensures x == 6 ==> pos[i] == 6
  {
    FirstRow(pos, size, i);
    FirstRow(pos, size, j);
  }

  /** A finished symbol is framed by the fixed patterns of the standard. */
  lemma FrameShown(g: Grid, version: int, ecl: Ecc, mask: int)
    requires VersionInRange(version) && MaskInRange(mask) && Patterned(g, version, ecl, mask)
    ensures S.Framed(g, version)
  {
    hide FunctionDark, IsFunctionModule, S.Shows, S.Centers;
    var size := Size(version);
    CornersShown(g, version, ecl, mask);
    forall k | 8 <= k < size - 8
      ensures S.Dark(g, k, 6) == (k % 2 == 0) && S.Dark(g, 6, k) == (k % 2 == 0)
    {
      TimingColor(version, ecl, mask, k);
    }
    forall i, j | S.HasAlignment(S.Centers(version), i, j)
      ensures S.Shows(g, S.Centers(version)[i] - 2, S.Centers(version)[j] - 2, S.ALIGNMENT)
    {
      AlignmentsShown(g, version, ecl, mask, i, j);
    }
    DarkModule(version, ecl, mask);
  }

  lemma DarkModule(version: int, ecl: Ecc, mask: int)
    requires VersionInRange(version) && MaskInRange(mask)
    ensures var size := Size(version);
      IsFunctionModule(version, 8, size - 8) && FunctionDark(version, ecl, mask, 8, size - 8)
  {
    hide IsAlignment, FormatBits;
  }

  // ------------------------------------------------------------------
  // Format and version words
  // ------------------------------------------------------------------

  lemma FifteenCases(i: int)
    requires 0 <= i < 15
    ensures i == 0 || i == 1 || i == 2 || i == 3 || i == 4 || i == 5 || i == 6 || i == 7 || i == 8 || i == 9 || i == 10
            || i == 11 || i == 12 || i == 13 || i == 14
  {}

  lemma FormatPlaces(size: int, i: int)
    requires size >= 21 && 0 <= i < 15
    ensures var c := S.FormatCells(size)[i]; Inside(c, size) && FormatIndex(size, c.x, c.y) == 14 - i
    ensures var c := S.FormatCellsAgain(size)[i]; Inside(c, size) && FormatIndex(size, c.x, c.y) == 14 - i
  {
    FifteenCases(i);
  }

  lemma FormatColor(version: int, ecl: Ecc, mask: int, x: int, y: int)
    requires VersionInRange(version) && MaskInRange(mask) && FormatIndex(Size(version), x, y) >= 0
    ensures IsFunctionModule(version, x, y)
    ensures FunctionDark(version, ecl, mask, x, y) == GetBit(FormatBits(ecl, mask), FormatIndex(Size(version), x, y))
  {
    hide IsAlignment, FormatBits, AlignmentDark, FinderColor;
  }

  /** Both copies of the format information are the format bits. */
  lemma FormatShown(g: Grid, version: int, ecl: Ecc, mask: int)
    requires VersionInRange(version) && MaskInRange(mask) && Patterned(g, version, ecl, mask)
    ensures S.At(g, S.FormatCells(Size(version))) == FormatBits(ecl, mask)
    ensures S.At(g, S.FormatCellsAgain(Size(version))) == FormatBits(ecl, mask)
  {
    hide FunctionDark, IsFunctionModule, FormatBits, FormatIndex, S.FormatCells, S.FormatCellsAgain;
    var size, bits := Size(version), FormatBits(ecl, mask);
    forall i | 0 <= i < 15
      ensures S.At(g, S.FormatCells(size))[i] == bits[i]
      ensures S.At(g, S.FormatCellsAgain(size))[i] == bits[i]
    {
      FormatPlaces(size, i);
      var c, d := S.FormatCells(size)[i], S.FormatCellsAgain(size)[i];
      FormatColor(version, ecl, mask, c.x, c.y);
      FormatColor(version, ecl, mask, d.x, d.y);
    }
  }

  lemma VersionPlaces(size: int, i: int)
    requires size >= 45 && 0 <= i < 18
    ensures var c := S.VersionCells(size)[i];
      && Inside(c, size) && VersionIndex(size, c.x, c.y) == 17 - i && VersionIndex(size, c.y, c.x) == 17 - i
  {
    if i < 15 {
      FifteenCases(i);
    } else {
      assert i == 15 || i == 16 || i == 17;
    }
  }

  /** Both copies of the version information are the version bits. */
  lemma VersionShown(g: Grid, version: int, ecl: Ecc, mask: int)
    requires VersionInRange(version) && MaskInRange(mask) && Patterned(g, version, ecl, mask) && version >= 7
    ensures S.At(g, S.VersionCells(Size(version))) == VersionBits(version)
    ensures S.At(g, S.Mirrored(S.VersionCells(Size(version)))) == VersionBits(version)
  {
    hide VersionBits, VersionIndex, S.VersionCells, IsAlignment, IsFormat;
    var size, bits := Size(version), VersionBits(version);
    forall i | 0 <= i < 18
      ensures S.At(g, S.VersionCells(size))[i] == bits[i]
      ensures S.At(g, S.Mirrored(S.VersionCells(size)))[i] == bits[i]
    {
      VersionPlaces(size, i);
      var c := S.VersionCells(size)[i];
      assert IsVersion(version, c.x, c.y) && IsVersion(version, c.y, c.x);
      assert IsFunctionModule(version, c.x, c.y) && IsFunctionModule(version, c.y, c.x);
    }
  }

  /** The format bits are a word of the standard for the level and mask. */
  lemma FormatWordValid(ecl: Ecc, mask: int)
    requires MaskInRange(mask)
    ensures S.IsFormatWord(FormatBits(ecl, mask), ecl.FormatBits() * 8 + mask)
  {
    hide BitsOf, Times, FormatBits;
    var q := FormatWord(ecl, mask);
  }

  lemma VersionWordValid(version: int)
    requires VersionInRange(version)
    ensures S.IsVersionWord(VersionBits(version), version)
  {
    hide BitsOf, Times, VersionBits;
    var q := VersionWord(version);
  }
}
