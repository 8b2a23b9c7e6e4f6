/**
 The zigzag scan of section 7.7.3 of ISO/IEC 18004:2015: two-module wide columns
 from right to left, alternately upward and downward, skipping the vertical timing
 column 6. Drawing a bit string along any duplicate-free path and reading the same
 path back returns the bits.
 */
module Zigzag {
  import opened Numbers

  datatype Cell = Cell(x: int, y: int)

  /** A square grid of modules, addressed row first. */
  type Grid = seq<seq<bool>>

  ghost predicate Square(g: Grid, size: nat)
  {
    |g| == size && forall y :: 0 <= y < size ==> |g[y]| == size
  }

  /** The rows of a two-dimensional array. */
  ghost function Rows(a: array2<bool>): (g: Grid)
    reads a
    ensures |g| == a.Length0
    ensures forall y :: 0 <= y < a.Length0 ==> |g[y]| == a.Length1
    ensures forall x, y :: 0 <= x < a.Length1 && 0 <= y < a.Length0 ==> g[y][x] == a[y, x]
  {
    seq(a.Length0, y requires 0 <= y < a.Length0 reads a =>
      seq(a.Length1, x requires 0 <= x < a.Length1 && 0 <= y < a.Length0 reads a => a[y, x]))
  }

  lemma GridsEqual(a: Grid, b: Grid, size: nat)
    requires Square(a, size) && Square(b, size)
    requires forall x, y :: 0 <= x < size && 0 <= y < size ==> a[y][x] == b[y][x]
    ensures a == b
  {
    forall y | 0 <= y < size
      ensures a[y] == b[y]
    {}
  }

  predicate Inside(c: Cell, size: nat)
  {
    0 <= c.x < size && 0 <= c.y < size
  }

  // ------------------------------------------------------------------
  // The scan order
  // ------------------------------------------------------------------

  /** The i-th cell of the column pair whose right column is `right`. */
  function PairCell(size: nat, right: nat, i: nat): Cell
  {
    var vert := i / 2;
    var upward := (right + 1) / 2 % 2 == 0;
    Cell(right - i % 2, if upward then size - 1 - vert else vert)
  }

  function Pair(size: nat, right: nat): (p: seq<Cell>)
    ensures |p| == 2 * size
  {
    seq(2 * size, i requires 0 <= i < 2 * size => PairCell(size, right, i))
  }

  /** The rest of the scan once the column counter has reached `right`. */
  function ScanFrom(size: nat, right: int): seq<Cell>
    decreases right
  {
    if right < 1 then [] else
      var r := if right == 6 then 5 else right;
      Pair(size, r) + ScanFrom(size, r - 2)
  }

  function Scan(size: nat): seq<Cell>
  {
    ScanFrom(size, size - 1)
  }

  /** The column counter: even down to 6, odd below. */
  ghost predicate OnTrack(right: int)
  {
    if right >= 6 then right % 2 == 0 else right >= -1 && right % 2 == 1
  }

  lemma PairCells(size: nat, right: nat, c: Cell)
    requires right >= 1
    ensures c in Pair(size, right) <==> right - 1 <= c.x <= right && 0 <= c.y < size
  {
    if right - 1 <= c.x <= right && 0 <= c.y < size {
      var vert := if (right + 1) / 2 % 2 == 0 then size - 1 - c.y else c.y;
      var i := 2 * vert + (right - c.x);
      assert Pair(size, right)[i] == c;
    }
  }

  /** The scan visits exactly the cells left of the counter outside column 6. */
  lemma {:induction false} ScanFromCells(size: nat, right: int, c: Cell)
    requires OnTrack(right)
    ensures c in ScanFrom(size, right) <==> 0 <= c.x <= right && c.x != 6 && 0 <= c.y < size
    decreases right
  {
    if right >= 1 {
      var r := if right == 6 then 5 else right;
      PairCells(size, r, c);
      ScanFromCells(size, r - 2, c);
    }
  }

  ghost predicate Distinct<T>(s: seq<T>)
  {
    forall i, j :: 0 <= i < j < |s| ==> s[i] != s[j]
  }

  lemma DistinctPair(size: nat, right: nat)
    ensures Distinct(Pair(size, right))
  {
    forall i, j | 0 <= i < j < 2 * size
      ensures PairCell(size, right, i) != PairCell(size, right, j)
    {
      assert i == 2 * (i / 2) + i % 2 && j == 2 * (j / 2) + j % 2;
    }
  }

  lemma {:induction false} DistinctScanFrom(size: nat, right: int)
    requires OnTrack(right)
    ensures Distinct(ScanFrom(size, right))
    decreases right
  {
    if right >= 1 {
      var r := if right == 6 then 5 else right;
      var p, rest := Pair(size, r), ScanFrom(size, r - 2);
      DistinctPair(size, r);
      DistinctScanFrom(size, r - 2);
      forall i, j | 0 <= i < |p| && 0 <= j < |rest|
        ensures p[i] != rest[j]
      {
        PairCells(size, r, p[i]);
        ScanFromCells(size, r - 2, rest[j]);
        assert p[i] in p && rest[j] in rest;
      }
    }
  }

  /** For every odd size from 7 on, the scan visits each cell outside column 6 exactly once. */
  lemma ScanVisitsOnce(size: nat)
    requires size >= 7 && size % 2 == 1
    ensures Distinct(Scan(size))
    ensures forall c :: c in Scan(size) <==> Inside(c, size) && c.x != 6
  {
    hide ScanFrom, Distinct;
    DistinctScanFrom(size, size - 1);
    forall c
      ensures c in Scan(size) <==> Inside(c, size) && c.x != 6
    {
      ScanFromCells(size, size - 1, c);
    }
  }

  // ------------------------------------------------------------------
  // Drawing and reading along a path
  // ------------------------------------------------------------------

  ghost predicate PathInside(path: seq<Cell>, size: nat)
  {
    forall i :: 0 <= i < |path| ==> Inside(path[i], size)
  }

  /** The number of cells on the path that are not function modules. */
  function FreeCount(path: seq<Cell>, fn: Grid): (n: nat)
    requires Square(fn, |fn|) && PathInside(path, |fn|)
    ensures n <= |path|
  {
    if path == [] then 0
    else
      var c := path[|path| - 1];
      FreeCount(path[..|path| - 1], fn) + if fn[c.y][c.x] then 0 else 1
  }

  /** The modules at the free cells of the path, in order. */
  function ReadBits(path: seq<Cell>, fn: Grid, g: Grid): (bits: seq<bool>)
    requires Square(fn, |fn|) && Square(g, |fn|) && PathInside(path, |fn|)
    ensures |bits| == FreeCount(path, fn)
  {
    if path == [] then []
    else
      var c := path[|path| - 1];
      ReadBits(path[..|path| - 1], fn, g) + if fn[c.y][c.x] then [] else [g[c.y][c.x]]
  }

  /** What drawing leaves at the k-th cell of the path. */
  function BitAt(path: seq<Cell>, fn: Grid, before: Grid, bits: seq<bool>, k: nat): bool
    requires Square(fn, |fn|) && Square(before, |fn|) && PathInside(path, |fn|) && k < |path|
  {
    var c := path[k];
    var rank := FreeCount(path[..k], fn);
    if !fn[c.y][c.x] && rank < |bits| then bits[rank] else before[c.y][c.x]
  }

  /** Each cell of the path carries what drawing leaves there. */
  ghost predicate DrawnAlong(path: seq<Cell>, fn: Grid, before: Grid, bits: seq<bool>, after: Grid)
    requires Square(fn, |fn|) && Square(before, |fn|) && Square(after, |fn|) && PathInside(path, |fn|)
  {
    forall k :: 0 <= k < |path| ==> after[path[k].y][path[k].x] == BitAt(path, fn, before, bits, k)
  }

  /** `after` is `before` with the bits drawn along the path. */
  ghost predicate Drawn(path: seq<Cell>, fn: Grid, before: Grid, bits: seq<bool>, after: Grid)
    requires Square(fn, |fn|) && Square(before, |fn|) && PathInside(path, |fn|)
  {
    && Square(after, |fn|)
    && DrawnAlong(path, fn, before, bits, after)
    && (forall x, y :: 0 <= x < |fn| && 0 <= y < |fn| && Cell(x, y) !in path ==> after[y][x] == before[y][x])
  }

  /** The drawn part of what is read along a path of n free cells. */
  function DrawnPart(bits: seq<bool>, n: nat): seq<bool>
  {
    if n <= |bits| then bits[..n] else bits
  }

  lemma DrawnPartStep(bits: seq<bool>, read: seq<bool>, free: bool, v: bool)
    requires DrawnPart(bits, |read|) <= read
    requires free && |read| < |bits| ==> v == bits[|read|]
    ensures var next := read + if free then [v] else [];
      DrawnPart(bits, |next|) <= next
  {}

  /** Reading the path returns the bits drawn along it. */
  lemma {:induction false} ReadDrawn(path: seq<Cell>, fn: Grid, before: Grid, bits: seq<bool>, after: Grid, k: nat)
    requires Square(fn, |fn|) && Square(before, |fn|) && Square(after, |fn|) && PathInside(path, |fn|)
    requires k <= |path| && DrawnAlong(path, fn, before, bits, after)
    ensures DrawnPart(bits, FreeCount(path[..k], fn)) <= ReadBits(path[..k], fn, after)
  {
    hide DrawnPart, DrawnAlong;
    if k == 0 {
      NothingDrawn(bits);
    } else {
      ReadDrawn(path, fn, before, bits, after, k - 1);
      assert path[..k][..k - 1] == path[..k - 1];
      var c := path[k - 1];
      var read := ReadBits(path[..k - 1], fn, after);
      DrawnAlongAt(path, fn, before, bits, after, k - 1);
      DrawnPartStep(bits, read, !fn[c.y][c.x], after[c.y][c.x]);
    }
  }

  lemma NothingDrawn(bits: seq<bool>)
    ensures DrawnPart(bits, 0) == []
  {}

  lemma DrawnAlongAt(path: seq<Cell>, fn: Grid, before: Grid, bits: seq<bool>, after: Grid, k: nat)
    requires Square(fn, |fn|) && Square(before, |fn|) && Square(after, |fn|) && PathInside(path, |fn|)
    requires k < |path| && DrawnAlong(path, fn, before, bits, after)
    ensures after[path[k].y][path[k].x] == BitAt(path, fn, before, bits, k)
  {}

  /** Drawing only depends on, and only changes, cells that are not function modules. */
  lemma DrawnKeepsFunctionModules(path: seq<Cell>, fn: Grid, before: Grid, bits: seq<bool>, after: Grid)
    requires Square(fn, |fn|) && Square(before, |fn|) && PathInside(path, |fn|)
    requires Drawn(path, fn, before, bits, after)
    ensures forall x, y :: 0 <= x < |fn| && 0 <= y < |fn| && fn[y][x] ==> after[y][x] == before[y][x]
  {
    forall x, y | 0 <= x < |fn| && 0 <= y < |fn| && fn[y][x]
      ensures after[y][x] == before[y][x]
    {
      if Cell(x, y) in path {
        var k :| 0 <= k < |path| && path[k] == Cell(x, y);
        assert after[path[k].y][path[k].x] == BitAt(path, fn, before, bits, k);
      }
    }
  }

  lemma EmptyPrefix(path: seq<Cell>, fn: Grid)
    requires Square(fn, |fn|) && PathInside(path, |fn|)
    ensures FreeCount(path[..0], fn) == 0
  {}

  ghost predicate ScanInside(size: nat)
  {
    size >= 7 && size % 2 == 1 && PathInside(Scan(size), size)
  }

  lemma ScanStaysInside(size: nat)
    requires size >= 7 && size % 2 == 1
    ensures ScanInside(size)
  {
    var path := Scan(size);
    ScanVisitsOnce(size);
    forall i | 0 <= i < |path|
      ensures Inside(path[i], size)
    {
      assert path[i] in path;
    }
  }

  /** Drawing the next cell of a path; i bits have been drawn before it. */
  lemma NextCell(path: seq<Cell>, fn: Grid, before: Grid, bits: seq<bool>, k: nat, i: nat)
    requires Square(fn, |fn|) && Square(before, |fn|) && PathInside(path, |fn|) && k < |path|
    requires i == Min(FreeCount(path[..k], fn), |bits|)
    ensures var c := path[k];
      var draws := !fn[c.y][c.x] && i < |bits|;
      && BitAt(path, fn, before, bits, k) == (if draws then bits[i] else before[c.y][c.x])
      && Min(FreeCount(path[..k + 1], fn), |bits|) == if draws then i + 1 else i
  {
    assert path[..k + 1][..k] == path[..k];
  }

  lemma NotYetVisited(path: seq<Cell>, k: nat)
    requires Distinct(path) && k < |path|
    ensures path[k] !in path[..k]
    ensures forall c :: c in path[..k + 1] <==> c in path[..k] || c == path[k]
    ensures forall m :: 0 <= m < k ==> path[m] != path[k]
  {
    assert path[..k + 1] == path[..k] + [path[k]];
  }

  /** The next column pair of the scan. */
  lemma PairAhead(path: seq<Cell>, k: nat, size: nat, right: int)
    requires k <= |path| && right >= 1 && right != 6
    requires path[k..] == ScanFrom(size, right)
    ensures k + 2 * size <= |path|
    ensures forall m :: 0 <= m < 2 * size ==> path[k + m] == PairCell(size, right, m)
    ensures path[k + 2 * size..] == ScanFrom(size, right - 2)
  {
    var p, rest := Pair(size, right), ScanFrom(size, right - 2);
    assert path[k..] == p + rest;
    forall m | 0 <= m < 2 * size
      ensures path[k + m] == PairCell(size, right, m)
    {
      assert path[k..][m] == p[m];
    }
    assert path[k..][2 * size..] == rest;
  }
}
