/**
 Every version has room for its codewords: a list names each function module outside the
 vertical timing column exactly once, and its length leaves exactly `NumRawDataModules`
 modules of the scan free.
 */
module Capacity {
  import opened Zigzag
  import opened QrTables
  import opened FunctionPatterns
  import opened QrSymbol

  // ------------------------------------------------------------------
  // Counting
  // ------------------------------------------------------------------

  /** Marked cells of a path. */
  ghost function Marked(path: seq<Cell>, fn: Grid): set<Cell>
    requires Square(fn, |fn|) && PathInside(path, |fn|)
  {
    set c | c in path && fn[c.y][c.x]
  }

  lemma MarkedLast(path: seq<Cell>, fn: Grid)
    requires Square(fn, |fn|) && PathInside(path, |fn|) && Distinct(path) && path != []
    ensures var n := |path| - 1;
      var c := path[n];
      && c !in Marked(path[..n], fn)
      && Marked(path, fn) == if fn[c.y][c.x] then Marked(path[..n], fn) + {c} else Marked(path[..n], fn)
  {
    var n := |path| - 1;
    assert path == path[..n] + [path[n]];
    assert path[n] !in path[..n];
  }

  lemma {:induction false} MarkedCount(path: seq<Cell>, fn: Grid)
    requires Square(fn, |fn|) && PathInside(path, |fn|) && Distinct(path)
    ensures |Marked(path, fn)| + FreeCount(path, fn) == |path|
  {
    hide Marked;
    if path == [] {
      NoneMarked(fn);
    } else {
      MarkedCount(path[..|path| - 1], fn);
      MarkedLast(path, fn);
    }
  }

  lemma NoneMarked(fn: Grid)
    requires Square(fn, |fn|)
    ensures Marked([], fn) == {}
  {}

  ghost function Elements(cover: seq<Cell>): set<Cell> { set c | c in cover }

  lemma {:induction false} ElementsCount(cover: seq<Cell>)
    requires Distinct(cover)
    ensures |Elements(cover)| == |cover|
  {
    if cover != [] {
      var n := |cover| - 1;
      ElementsCount(cover[..n]);
      assert cover == cover[..n] + [cover[n]];
      assert Elements(cover) == Elements(cover[..n]) + {cover[n]};
      assert cover[n] !in cover[..n];
    }
  }

  /** If a list names the marked cells of a path once each, the others are free. */
  lemma FreeBesideCover(path: seq<Cell>, fn: Grid, cover: seq<Cell>)
    requires Square(fn, |fn|) && PathInside(path, |fn|) && Distinct(path) && Distinct(cover)
    requires forall c :: c in path && fn[c.y][c.x] <==> c in cover
    ensures FreeCount(path, fn) == |path| - |cover|
  {
    MarkedCount(path, fn);
    ElementsCount(cover);
    assert Marked(path, fn) == Elements(cover);
  }

  lemma {:induction false} ScanFromLength(size: nat, right: int)
    requires OnTrack(right)
    ensures |ScanFrom(size, right)| == size * if right >= 6 then right else right + 1
    decreases right
  {
    if right >= 1 {
      var r := if right == 6 then 5 else right;
      ScanFromLength(size, r - 2);
      var m := if r - 2 >= 6 then r - 2 else r - 1;
      assert 2 * size + size * m == size * (m + 2);
    }
  }

  // ------------------------------------------------------------------
  // The cover
  // ------------------------------------------------------------------

  /** Cells of a rectangle, row by row. */
  function Rect(x: int, y: int, w: nat, h: nat): (s: seq<Cell>)
    ensures |s| == w * h
    ensures forall c: Cell :: c in s <==> x <= c.x < x + w && y <= c.y < y + h
  {
    if h == 0 then [] else
      var last := seq(w, i => Cell(x + i, y + h - 1));
      assert forall c: Cell :: x <= c.x < x + w && c.y == y + h - 1 ==> c == last[c.x - x];
      Rect(x, y, w, h - 1) + last
  }

  /** The cells of alignment pattern (i, j) that lie outside the timing row and column. */
  function AlignCells(pos: seq<int>, i: nat, j: nat): seq<Cell>
    requires i < |pos| && j < |pos|
  {
    if OnFinderCorner(i, j, |pos|) then []
    else if i == 0 then Rect(4, pos[j] - 2, 2, 5) + Rect(7, pos[j] - 2, 2, 5)
    else if j == 0 then Rect(pos[i] - 2, 4, 5, 2) + Rect(pos[i] - 2, 7, 5, 2)
    else Rect(pos[i] - 2, pos[j] - 2, 5, 5)
  }

  function AlignCellsOfColumn(pos: seq<int>, i: nat, j: nat): seq<Cell>
    requires i < |pos| && j <= |pos|
  {
    if j == 0 then [] else AlignCellsOfColumn(pos, i, j - 1) + AlignCells(pos, i, j - 1)
  }

  function AlignCellsOfColumns(pos: seq<int>, i: nat): seq<Cell>
    requires i <= |pos|
  {
    if i == 0 then [] else AlignCellsOfColumns(pos, i - 1) + AlignCellsOfColumn(pos, i - 1, |pos|)
  }

  lemma {:induction false} ColumnCovers(pos: seq<int>, i: nat, j: nat, k: nat, c: Cell)
    requires i < |pos| && j < k <= |pos| && c in AlignCells(pos, i, j)
    ensures c in AlignCellsOfColumn(pos, i, k)
  {
    hide AlignCells;
    if j < k - 1 {
      ColumnCovers(pos, i, j, k - 1, c);
    }
  }

  lemma {:induction false} ColumnsCover(pos: seq<int>, i: nat, j: nat, k: nat, c: Cell)
    requires i < k <= |pos| && j < |pos| && c in AlignCells(pos, i, j)
    ensures c in AlignCellsOfColumns(pos, k)
  {
    hide AlignCells, AlignCellsOfColumn;
    if i < k - 1 {
      ColumnsCover(pos, i, j, k - 1, c);
    } else {
      ColumnCovers(pos, i, j, |pos|, c);
    }
  }

  lemma {:induction false} ColumnLength(pos: seq<int>, i: nat, j: nat)
    requires |pos| >= 2 && i < |pos| && j <= |pos|
    ensures |AlignCellsOfColumn(pos, i, j)| ==
              if j == 0 then 0
              else if i == 0 then 20 * (if j == |pos| then j - 2 else j - 1)
              else 25 * (j - 1) + if i == |pos| - 1 then 0 else 20
  {
    if j > 0 {
      ColumnLength(pos, i, j - 1);
    }
  }

  lemma {:induction false} ColumnsLength(pos: seq<int>, i: nat, full: nat)
    requires |pos| >= 2 && i <= |pos| && full == 25 * (|pos| - 1) + 20
    ensures |AlignCellsOfColumns(pos, i)| ==
              if i == 0 then 0 else 20 * (|pos| - 2) + (i - 1) * full - if i == |pos| then 20 else 0
  {
    if i > 0 {
      ColumnsLength(pos, i - 1, full);
      ColumnLength(pos, i - 1, |pos|);
      if i > 1 {
        assert (i - 1) * full == (i - 2) * full + full;
      }
    }
  }

  /** Finder patterns with separators and format information, outside column 6. */
  function CornerCells(size: int): (s: seq<Cell>)
    ensures |s| == 208
  {
    Rect(0, 0, 6, 9) + Rect(7, 0, 2, 9) + Rect(size - 8, 0, 8, 9) + Rect(0, size - 8, 6, 8) + Rect(7, size - 8, 2, 8)
  }

  function VersionCells(version: int, size: int): (s: seq<Cell>)
    ensures |s| == if version >= 7 then 36 else 0
  {
    if version >= 7 then Rect(size - 11, 0, 3, 6) + Rect(0, size - 11, 6, 3) else []
  }

  function Cover(version: int): seq<Cell>
    requires VersionInRange(version)
  {
    var size, pos := Size(version), AlignPositions(version);
    CornerCells(size) + Rect(9, 6, size - 17, 1) + VersionCells(version, size) + AlignCellsOfColumns(pos, |pos|)
  }

  // ------------------------------------------------------------------
  // The cover contains all function modules of the scan
  // ------------------------------------------------------------------

  ghost predicate OnScan(size: int, x: int, y: int)
  {
    0 <= x < size && 0 <= y < size && x != 6
  }

  lemma CornersCovered(size: int, x: int, y: int)
    requires size >= 21 && OnScan(size, x, y)
    ensures IsFinder(size, x, y) || IsFormat(size, x, y) ==> Cell(x, y) in CornerCells(size)
  {
    hide Rect;
    if InFinder(3, 3, x, y) {
      assert x <= 8 && y <= 8;
    } else if InFinder(size - 4, 3, x, y) {
      assert x >= size - 8 && y <= 8;
    } else if InFinder(3, size - 4, x, y) {
      assert x <= 8 && y >= size - 8;
    }
  }

  lemma TimingCovered(size: int, x: int, y: int)
    requires size >= 21 && OnScan(size, x, y) && IsTiming(x, y)
    ensures Cell(x, y) in CornerCells(size) || Cell(x, y) in Rect(9, 6, size - 17, 1)
  {}

  lemma VersionCovered(version: int, x: int, y: int)
    requires VersionInRange(version) && IsVersion(version, x, y)
    ensures Cell(x, y) in VersionCells(version, Size(version))
  {}

  lemma AlignmentCovered(pos: seq<int>, size: int, i: nat, j: nat, x: int, y: int)
    requires size >= 21 && WellSpaced(pos, size) && OnScan(size, x, y) && AlignmentAt(pos, i, j, x, y)
    requires pos[0] == 6
    ensures Cell(x, y) in AlignCells(pos, i, j) || Cell(x, y) in Rect(9, 6, size - 17, 1)
  {
    if i > 0 && j == 0 {
      assert pos[0] + 5 <= pos[i] && pos[i] + 5 <= pos[|pos| - 1];
    }
  }

  lemma FunctionModulesCovered(version: int, x: int, y: int)
    requires VersionInRange(version)
    requires OnScan(Size(version), x, y) && IsFunctionModule(version, x, y)
    ensures Cell(x, y) in Cover(version)
  {
    hide IsVersion, IsFinder, IsFormat, IsTiming, VersionCells, CornerCells, Rect;
    var size, pos := Size(version), AlignPositions(version);
    CornersCovered(size, x, y);
    if IsVersion(version, x, y) {
      VersionCovered(version, x, y);
    } else if IsTiming(x, y) {
      TimingCovered(size, x, y);
    } else if IsAlignment(pos, x, y) {
      AlignPositionsSpaced(version);
      var i: nat, j: nat :| i < |pos| && j < |pos| && AlignmentAt(pos, i, j, x, y);
      AlignmentCovered(pos, size, i, j, x, y);
      if Cell(x, y) in AlignCells(pos, i, j) {
        ColumnsCover(pos, i, j, |pos|, Cell(x, y));
      }
    }
  }

  // ------------------------------------------------------------------
  // The cover names nothing else, and nothing twice
  // ------------------------------------------------------------------

  /** No cell is in both lists. */
  ghost predicate Disjoint(a: seq<Cell>, b: seq<Cell>)
  {
    forall c :: c in a ==> c !in b
  }

  lemma DistinctConcat(a: seq<Cell>, b: seq<Cell>)
    requires Distinct(a) && Distinct(b) && Disjoint(a, b)
    ensures Distinct(a + b)
  {
    forall i, j | 0 <= i < j < |a + b|
      ensures (a + b)[i] != (a + b)[j]
    {
      if i < |a| <= j {
        assert a[i] in a && b[j - |a|] in b;
      }
    }
  }

  lemma {:induction false} RectDistinct(x: int, y: int, w: nat, h: nat)
    ensures Distinct(Rect(x, y, w, h))
  {
    if h > 0 {
      RectDistinct(x, y, w, h - 1);
      var last := seq(w, i => Cell(x + i, y + h - 1));
      LastRow(x, y, w, h);
      DistinctConcat(Rect(x, y, w, h - 1), last);
    }
  }

  lemma LastRow(x: int, y: int, w: nat, h: nat)
    requires h > 0
    ensures var last := seq(w, i => Cell(x + i, y + h - 1));
      Distinct(last) && Disjoint(Rect(x, y, w, h - 1), last)
  {
    hide Rect;
  }

  lemma CornersDistinct(size: int)
    requires size >= 21
    ensures Distinct(CornerCells(size))
  {
    RectDistinct(0, 0, 6, 9);
    RectDistinct(7, 0, 2, 9);
    RectDistinct(size - 8, 0, 8, 9);
    RectDistinct(0, size - 8, 6, 8);
    RectDistinct(7, size - 8, 2, 8);
    hide Rect, Distinct;
    var tl := Rect(0, 0, 6, 9) + Rect(7, 0, 2, 9);
    DistinctConcat(Rect(0, 0, 6, 9), Rect(7, 0, 2, 9));
    DistinctConcat(tl, Rect(size - 8, 0, 8, 9));
    DistinctConcat(tl + Rect(size - 8, 0, 8, 9), Rect(0, size - 8, 6, 8));
    DistinctConcat(tl + Rect(size - 8, 0, 8, 9) + Rect(0, size - 8, 6, 8), Rect(7, size - 8, 2, 8));
  }

  lemma VersionDistinct(version: int, size: int)
    requires version >= 7 ==> size >= 45
    ensures Distinct(VersionCells(version, size))
  {
    RectDistinct(size - 11, 0, 3, 6);
    RectDistinct(0, size - 11, 6, 3);
    hide Rect, Distinct;
    if version >= 7 {
      DistinctConcat(Rect(size - 11, 0, 3, 6), Rect(0, size - 11, 6, 3));
    } else {
      EmptyDistinct();
    }
  }

  lemma EmptyDistinct()
    ensures Distinct<Cell>([])
  {}

  /** Centers keep clear of the version information as well. */
  ghost predicate ClearOfVersion(pos: seq<int>, size: int)
  {
    forall i :: 0 <= i < |pos| - 1 ==> pos[i] <= size - 23
  }

  lemma VersionSpacing(version: int)
    requires 7 <= version <= 40
    ensures AlignStep(version) >= 16
  {
    match version / 7
    case 1 => {}
    case 2 => {}
    case 3 => {}
    case 4 => {}
    case _ => {}
  }

  lemma PositionsClear(version: int)
    requires 7 <= version <= 40
    ensures ClearOfVersion(AlignPositions(version), Size(version))
  {
    hide AlignStep, Centers;
    var size, step, m := Size(version), AlignStep(version), NumAlign(version) - 1;
    var pos := AlignPositions(version);
    VersionSpacing(version);
    forall i | 0 <= i < m
      ensures pos[i] <= size - 23
    {
      if i > 0 {
        CenterAt(size, step, m, i - 1);
        StepsMonotone(1, m - i, step);
      }
    }
  }

  /** The cells of one pattern: covered by it, outside the timing row and column, far from the corners. */
  lemma AlignCell(pos: seq<int>, size: int, i: nat, j: nat, c: Cell)
    requires i < |pos| && j < |pos| && WellSpaced(pos, size) && pos[0] == 6 && size >= 21
    ensures c in AlignCells(pos, i, j) <==> AlignmentAt(pos, i, j, c.x, c.y) && c.x != 6 && c.y != 6
    ensures c in AlignCells(pos, i, j) ==>
              (4 <= c.x <= 8 && 9 <= c.y <= size - 10) || (9 <= c.x <= size - 10 && 4 <= c.y <= 8)
              || (9 <= c.x <= size - 5 && 9 <= c.y <= size - 5)
    ensures c in AlignCells(pos, i, j) && ClearOfVersion(pos, size) ==>
              (4 <= c.x <= 8 && c.y <= size - 21) || (c.x <= size - 21 && 4 <= c.y <= 8)
              || (9 <= c.x <= size - 5 && 9 <= c.y <= size - 5)
  {
    hide Rect;
    FirstRow(pos, size, i);
    FirstRow(pos, size, j);
  }

  lemma FirstRow(pos: seq<int>, size: int, i: nat)
    requires i < |pos| && WellSpaced(pos, size) && pos[0] == 6
    ensures if i == 0 then pos[i] == 6 else 11 <= pos[i] <= size - 7
    ensures i < |pos| - 1 ==> pos[i] <= size - 12
  {
    if i < |pos| - 1 {
      assert pos[i] + 5 <= pos[|pos| - 1];
    }
  }

  lemma AlignCellsDistinct(pos: seq<int>, i: nat, j: nat)
    requires i < |pos| && j < |pos|
    ensures Distinct(AlignCells(pos, i, j))
  {
    RectDistinct(4, pos[j] - 2, 2, 5);
    RectDistinct(7, pos[j] - 2, 2, 5);
    RectDistinct(pos[i] - 2, 4, 5, 2);
    RectDistinct(pos[i] - 2, 7, 5, 2);
    RectDistinct(pos[i] - 2, pos[j] - 2, 5, 5);
    EmptyDistinct();
    hide Rect, Distinct;
    DistinctConcat(Rect(4, pos[j] - 2, 2, 5), Rect(7, pos[j] - 2, 2, 5));
    DistinctConcat(Rect(pos[i] - 2, 4, 5, 2), Rect(pos[i] - 2, 7, 5, 2));
  }

  /** The pattern a listed cell belongs to. */
  lemma {:induction false} InColumn(pos: seq<int>, i: nat, k: nat, c: Cell) returns (j: nat)
    requires i < |pos| && k <= |pos| && c in AlignCellsOfColumn(pos, i, k)
    ensures j < k && c in AlignCells(pos, i, j)
  {
    hide AlignCells;
    if c in AlignCells(pos, i, k - 1) {
      j := k - 1;
    } else {
      j := InColumn(pos, i, k - 1, c);
    }
  }

  lemma {:induction false} InColumns(pos: seq<int>, k: nat, c: Cell) returns (i: nat, j: nat)
    requires k <= |pos| && c in AlignCellsOfColumns(pos, k)
    ensures i < k && j < |pos| && c in AlignCells(pos, i, j)
  {
    hide AlignCells, AlignCellsOfColumn;
    if c in AlignCellsOfColumn(pos, k - 1, |pos|) {
      i := k - 1;
      j := InColumn(pos, i, |pos|, c);
    } else {
      i, j := InColumns(pos, k - 1, c);
    }
  }

  /** A cell tells the pattern that lists it. */
  lemma OnePattern(pos: seq<int>, size: int, i: nat, j: nat, i': nat, j': nat, c: Cell)
    requires i < |pos| && j < |pos| && i' < |pos| && j' < |pos|
    requires WellSpaced(pos, size) && pos[0] == 6 && size >= 21
    requires c in AlignCells(pos, i, j) && c in AlignCells(pos, i', j')
    ensures i == i' && j == j'
  {
    AlignCell(pos, size, i, j, c);
    AlignCell(pos, size, i', j', c);
    hide AlignCells;
    AlignmentUnique(pos, size, i, j, i', j', c.x, c.y);
  }

  lemma {:induction false} ColumnDistinct(pos: seq<int>, size: int, i: nat, k: nat)
    requires i < |pos| && k <= |pos| && WellSpaced(pos, size) && pos[0] == 6 && size >= 21
    ensures Distinct(AlignCellsOfColumn(pos, i, k))
  {
    hide AlignCells, Distinct;
    if k == 0 {
      EmptyDistinct();
    } else {
      ColumnDistinct(pos, size, i, k - 1);
      AlignCellsDistinct(pos, i, k - 1);
      var before, next := AlignCellsOfColumn(pos, i, k - 1), AlignCells(pos, i, k - 1);
      forall c | c in before
        ensures c !in next
      {
        var j := InColumn(pos, i, k - 1, c);
        if c in next {
          OnePattern(pos, size, i, j, i, k - 1, c);
        }
      }
      DistinctConcat(before, next);
    }
  }

  lemma {:induction false} ColumnsDistinct(pos: seq<int>, size: int, k: nat)
    requires k <= |pos| && WellSpaced(pos, size) && size >= 21 && (pos != [] ==> pos[0] == 6)
    ensures Distinct(AlignCellsOfColumns(pos, k))
  {
    hide AlignCells, AlignCellsOfColumn, Distinct;
    if k == 0 {
      EmptyDistinct();
    } else {
      ColumnsDistinct(pos, size, k - 1);
      ColumnDistinct(pos, size, k - 1, |pos|);
      var before, next := AlignCellsOfColumns(pos, k - 1), AlignCellsOfColumn(pos, k - 1, |pos|);
      forall c | c in before
        ensures c !in next
      {
        var i, j := InColumns(pos, k - 1, c);
        if c in next {
          var j' := InColumn(pos, k - 1, |pos|, c);
          OnePattern(pos, size, i, j, k - 1, j', c);
        }
      }
      DistinctConcat(before, next);
    }
  }

  /** Alignment cells keep clear of all other listed cells. */
  lemma AlignApart(version: int, c: Cell)
    requires VersionInRange(version)
    requires var pos := AlignPositions(version); c in AlignCellsOfColumns(pos, |pos|)
    ensures var size := Size(version);
      c !in CornerCells(size) && c !in Rect(9, 6, size - 17, 1) && c !in VersionCells(version, size)
  {
    hide AlignPositions, AlignCells, AlignCellsOfColumns, Rect;
    var size, pos := Size(version), AlignPositions(version);
    AlignPositionsSpaced(version);
    FirstCenter(version);
    if version >= 7 { PositionsClear(version); }
    var i, j := InColumns(pos, |pos|, c);
    AlignCell(pos, size, i, j, c);
  }

  lemma FirstCenter(version: int)
    requires VersionInRange(version)
    ensures var pos := AlignPositions(version); pos != [] ==> pos[0] == 6
  {}

  lemma CoverDistinct(version: int)
    requires VersionInRange(version)
    ensures Distinct(Cover(version))
  {
    hide AlignPositions, AlignCells, AlignCellsOfColumns, Rect, Distinct;
    var size, pos := Size(version), AlignPositions(version);
    var corners, row, info, align :=
      CornerCells(size), Rect(9, 6, size - 17, 1), VersionCells(version, size), AlignCellsOfColumns(pos, |pos|);
    CornersDistinct(size);
    RectDistinct(9, 6, size - 17, 1);
    VersionDistinct(version, size);
    AlignPositionsSpaced(version);
    FirstCenter(version);
    ColumnsDistinct(pos, size, |pos|);
    DistinctConcat(corners, row);
    DistinctConcat(corners + row, info);
    forall c | c in align
      ensures c !in corners + row + info
    {
      AlignApart(version, c);
    }
    DistinctConcat(corners + row + info, align);
  }

  /** Every listed cell is a function module on the scan. */
  lemma CoverIsFunction(version: int, c: Cell)
    requires VersionInRange(version) && c in Cover(version)
    ensures OnScan(Size(version), c.x, c.y) && IsFunctionModule(version, c.x, c.y)
  {
    hide AlignPositions, AlignCellsOfColumns, Rect;
    var size, pos := Size(version), AlignPositions(version);
    if c in AlignCellsOfColumns(pos, |pos|) {
      AlignIsFunction(version, c);
    } else if c in CornerCells(size) {
      CornerIsFunction(size, c);
    } else if c in VersionCells(version, size) {
      VersionIsFunction(version, c);
    }
  }

  lemma AlignIsFunction(version: int, c: Cell)
    requires VersionInRange(version)
    requires var pos := AlignPositions(version); c in AlignCellsOfColumns(pos, |pos|)
    ensures OnScan(Size(version), c.x, c.y) && IsAlignment(AlignPositions(version), c.x, c.y)
  {
    hide AlignPositions, AlignCells, AlignCellsOfColumns;
    var size, pos := Size(version), AlignPositions(version);
    AlignPositionsSpaced(version);
    FirstCenter(version);
    var i, j := InColumns(pos, |pos|, c);
    AlignCell(pos, size, i, j, c);
  }

  lemma CornerIsFunction(size: int, c: Cell)
    requires size >= 21 && c in CornerCells(size)
    ensures OnScan(size, c.x, c.y)
    ensures IsFinder(size, c.x, c.y) || IsFormat(size, c.x, c.y) || IsTiming(c.x, c.y)
  {
    hide Rect;
    if c.x <= 8 && c.y <= 8 {
      assert c.x <= 7 && c.y <= 7 ==> InFinder(3, 3, c.x, c.y);
    } else if c.x >= size - 8 {
      assert c.y <= 7 ==> InFinder(size - 4, 3, c.x, c.y);
    } else {
      assert c.x <= 7 ==> InFinder(3, size - 4, c.x, c.y);
    }
  }

  lemma VersionIsFunction(version: int, c: Cell)
    requires VersionInRange(version) && c in VersionCells(version, Size(version))
    ensures OnScan(Size(version), c.x, c.y) && IsVersion(version, c.x, c.y)
  {
    hide Rect;
  }

  // ------------------------------------------------------------------
  // Arithmetic
  // ------------------------------------------------------------------

  lemma CoverLength(version: int)
    requires VersionInRange(version)
    ensures |Cover(version)| + NumRawDataModules(version) == Size(version) * (Size(version) - 1)
  {
    hide Rect, CornerCells, VersionCells, AlignCellsOfColumns, AlignPositions;
    AlignmentLength(version);
    SquareArithmetic(version);
  }

  /** The number of listed alignment modules. */
  function AlignCount(version: int): int
  {
    var n := version / 7 + 2;
    if version >= 2 then (25 * n - 10) * n - 55 else 0
  }

  lemma AlignmentLength(version: int)
    requires VersionInRange(version)
    ensures var pos := AlignPositions(version); |AlignCellsOfColumns(pos, |pos|)| == AlignCount(version)
  {
    var pos := AlignPositions(version);
    if version >= 2 {
      ColumnsLength(pos, |pos|, 25 * (|pos| - 1) + 20);
      AlignArithmetic(|pos|);
    }
  }

  lemma AlignArithmetic(n: int)
    ensures 20 * (n - 2) + (n - 1) * (25 * (n - 1) + 20) - 20 == (25 * n - 10) * n - 55
  {}

  lemma SquareArithmetic(v: int)
    ensures (4 * v + 17) * (4 * v + 16) == (16 * v + 128) * v + 64 + 208 + 4 * v
  {}

  // ------------------------------------------------------------------
  // Main result
  // ------------------------------------------------------------------

  /** For every version, exactly the promised number of modules is left for data. */
  lemma FreeModules(version: int)
    requires VersionInRange(version)
    ensures ScanInside(Size(version))
    ensures FreeCount(Scan(Size(version)), FunctionGrid(version)) == NumRawDataModules(version)
  {
    hide Cover, ScanFrom, Distinct, IsFunctionModule, FreeCount, NumRawDataModules;
    var size, fn := Size(version), FunctionGrid(version);
    var path := Scan(size);
    ScanVisitsOnce(size);
    ScanStaysInside(size);
    forall c
      ensures c in path && fn[c.y][c.x] <==> c in Cover(version)
    {
      if c in path && fn[c.y][c.x] {
        FunctionModulesCovered(version, c.x, c.y);
      }
      if c in Cover(version) {
        CoverIsFunction(version, c);
      }
    }
    CoverDistinct(version);
    FreeBesideCover(path, fn, Cover(version));
    ScanFromLength(size, size - 1);
    CoverLength(version);
  }

  /** For every version the scan has room for all codewords. */
  lemma EveryVersionHasRoom(version: int)
    requires VersionInRange(version)
    ensures HasRoom(version)
  {
    hide FunctionGrid, Scan, FreeCount;
    FreeModules(version);
  }
}
