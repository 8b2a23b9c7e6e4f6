/**
 The QR symbol generator: a grid of modules that its constructor fills in place.
 */
module QrCode {
  import opened Wrappers
  import opened Bits
  import opened Numbers
  import opened Zigzag
  import opened QrTables
  import opened FunctionPatterns
  import opened Interleave
  import opened QrSymbol
  import opened ReedSolomon
  import opened Capacity
  import QrConformance
  import S = QrStandard
  import Penalty

  class QrCode {
    const version: int
    const errorCorrectionLevel: Ecc
    const size: int
    var mask: int
    var modules: array2<bool>
    var isFunction: array2<bool>

    ghost predicate Valid()
      reads this
    {
      && VersionInRange(version)
      && size == Size(version)
      && modules.Length0 == modules.Length1 == size
      && isFunction.Length0 == isFunction.Length1 == size
      && modules != isFunction
    }

    predicate InGrid(x: int, y: int)
    {
      0 <= x < size && 0 <= y < size
    }

    /** Both grids all light. */
    constructor (version: int, ecl: Ecc)
      requires VersionInRange(version)
      ensures Valid() && fresh(modules) && fresh(isFunction)
      ensures this.version == version && errorCorrectionLevel == ecl
      ensures forall x, y :: InGrid(x, y) ==> !modules[y, x] && !isFunction[y, x]
    {
      this.version := version;
      this.errorCorrectionLevel := ecl;
      this.size := version * 4 + 17;
      this.mask := 0;
      this.modules := new bool[version * 4 + 17, version * 4 + 17]((y, x) => false);
      this.isFunction := new bool[version * 4 + 17, version * 4 + 17]((y, x) => false);
    }

    // ----------------------------------------------------------------
    // Function modules
    // ----------------------------------------------------------------

    method SetFunctionModule(x: int, y: int, isDark: bool)
      requires Valid() && InGrid(x, y)
      modifies modules, isFunction
      ensures forall x', y' :: InGrid(x', y') ==>
                && modules[y', x'] == (if x' == x && y' == y then isDark else old(modules[y', x']))
                && isFunction[y', x'] == ((x' == x && y' == y) || old(isFunction[y', x']))
    {
      modules[y, x] := isDark;
      isFunction[y, x] := true;
    }

    method DrawTimingPatterns()
      requires Valid()
      modifies modules, isFunction
      ensures forall x, y :: InGrid(x, y) ==>
                && modules[y, x] == (if IsTiming(x, y) then TimingDark(x, y) else old(modules[y, x]))
                && isFunction[y, x] == (IsTiming(x, y) || old(isFunction[y, x]))
    {
      for i := 0 to size
        invariant forall x, y :: InGrid(x, y) ==>
                    var drawn := (x == 6 && y < i) || (y == 6 && x < i);
                    && modules[y, x] == (if drawn then TimingDark(x, y) else old(modules[y, x]))
                    && isFunction[y, x] == (drawn || old(isFunction[y, x]))
      {
        SetFunctionModule(6, i, i % 2 == 0);
        SetFunctionModule(i, 6, i % 2 == 0);
      }
    }

    /** A 9*9 finder pattern with separator; modules may be out of bounds. */
    method DrawFinderPattern(cx: int, cy: int)
      requires Valid()
      modifies modules, isFunction
      ensures forall x, y :: InGrid(x, y) ==>
                && modules[y, x] == (if InFinder(cx, cy, x, y) then FinderDark(cx, cy, x, y) else old(modules[y, x]))
                && isFunction[y, x] == (InFinder(cx, cy, x, y) || old(isFunction[y, x]))
    {
      for dy := -4 to 5
        invariant forall x, y :: InGrid(x, y) ==>
                    var drawn := InFinder(cx, cy, x, y) && y - cy < dy;
                    && modules[y, x] == (if drawn then FinderDark(cx, cy, x, y) else old(modules[y, x]))
                    && isFunction[y, x] == (drawn || old(isFunction[y, x]))
      {
        for dx := -4 to 5
          invariant forall x, y :: InGrid(x, y) ==>
                      var drawn := InFinder(cx, cy, x, y) && (y - cy < dy || (y - cy == dy && x - cx < dx));
                      && modules[y, x] == (if drawn then FinderDark(cx, cy, x, y) else old(modules[y, x]))
                      && isFunction[y, x] == (drawn || old(isFunction[y, x]))
        {
          var dist := Dist(dx, dy);
          var xx := cx + dx;
          var yy := cy + dy;
          if 0 <= xx < size && 0 <= yy < size {
            SetFunctionModule(xx, yy, dist != 2 && dist != 4);
          }
        }
      }
    }

    /** A 5*5 alignment pattern; all modules must be in bounds. */
    method DrawAlignmentPattern(cx: int, cy: int)
      requires Valid() && 2 <= cx <= size - 3 && 2 <= cy <= size - 3
      modifies modules, isFunction
      ensures forall x, y :: InGrid(x, y) ==>
                && modules[y, x] == (if Covers(cx, cy, x, y) then Dist(x - cx, y - cy) != 1 else old(modules[y, x]))
                && isFunction[y, x] == (Covers(cx, cy, x, y) || old(isFunction[y, x]))
    {
      for dy := -2 to 3
        invariant forall x, y :: InGrid(x, y) ==>
                    var drawn := Covers(cx, cy, x, y) && y - cy < dy;
                    && modules[y, x] == (if drawn then Dist(x - cx, y - cy) != 1 else old(modules[y, x]))
                    && isFunction[y, x] == (drawn || old(isFunction[y, x]))
      {
        for dx := -2 to 3
          invariant forall x, y :: InGrid(x, y) ==>
                      var drawn := Covers(cx, cy, x, y) && (y - cy < dy || (y - cy == dy && x - cx < dx));
                      && modules[y, x] == (if drawn then Dist(x - cx, y - cy) != 1 else old(modules[y, x]))
                      && isFunction[y, x] == (drawn || old(isFunction[y, x]))
        {
          SetFunctionModule(cx + dx, cy + dy, Dist(dx, dy) != 1);
        }
      }
    }

    method GetAlignmentPatternPositions() returns (result: seq<int>)
      requires Valid()
      ensures result == AlignPositions(version)
    {
      if version == 1 {
        return [];
      }
      var numAlign := version / 7 + 2;
      var step := (version * 8 + numAlign * 3 + 5) / (numAlign * 4 - 4) * 2;
      result := [6];
      var pos := size - 7;
      while |result| < numAlign
        invariant 1 <= |result| <= numAlign
        invariant result == [6] + Centers(size, step, |result| - 1)
        invariant pos == size - 7 - (|result| - 1) * step
      {
        result := result[..1] + [pos] + result[1..];
        pos := pos - step;
      }
    }

    method DrawAlignmentPatterns()
      requires Valid()
      modifies modules, isFunction
      ensures var pos := AlignPositions(version);
        forall x, y :: InGrid(x, y) ==>
          && modules[y, x] == (if IsAlignment(pos, x, y) then AlignmentDark(pos, x, y) else old(modules[y, x]))
          && isFunction[y, x] == (IsAlignment(pos, x, y) || old(isFunction[y, x]))
    {
      hide AlignedBefore, IsAlignment, AlignmentDark, AlignPositions;
      var alignPatPos := GetAlignmentPatternPositions();
      ghost var pos := alignPatPos;
      AlignPositionsSpaced(version);
      var numAlign := |alignPatPos|;
      forall x, y { AlignedRows(pos, 0, x, y); }
      for i := 0 to numAlign
        invariant forall x, y :: InGrid(x, y) ==>
                    && modules[y, x]
                       == (if AlignedBefore(pos, i, 0, x, y) then AlignmentDark(pos, x, y) else old(modules[y, x]))
                    && isFunction[y, x] == (AlignedBefore(pos, i, 0, x, y) || old(isFunction[y, x]))
      {
        for j := 0 to numAlign
          invariant forall x, y :: InGrid(x, y) ==>
                      && modules[y, x]
                         == (if AlignedBefore(pos, i, j, x, y) then AlignmentDark(pos, x, y) else old(modules[y, x]))
                      && isFunction[y, x] == (AlignedBefore(pos, i, j, x, y) || old(isFunction[y, x]))
        {
          forall x, y { AlignedStep(pos, size, i, j, x, y); }
          if !((i == 0 && j == 0) || (i == 0 && j == numAlign - 1) || (i == numAlign - 1 && j == 0)) {
            DrawAlignmentPattern(alignPatPos[i], alignPatPos[j]);
          }
        }
        forall x, y { AlignedRows(pos, i, x, y); }
      }
      forall x, y { AlignedRows(pos, 0, x, y); }
    }

    /** Both copies of the format information for a mask. */
    method DrawFormatBits(mask: int)
      requires Valid() && MaskInRange(mask)
      modifies modules, isFunction
      ensures forall x, y :: InGrid(x, y) ==>
                && modules[y, x] == (if IsFormat(size, x, y)
                                     then FormatDark(size, FormatBits(errorCorrectionLevel, mask), x, y)
                                     else old(modules[y, x]))
                && isFunction[y, x] == (IsFormat(size, x, y) || old(isFunction[y, x]))
    {
      var data := BitsOf(errorCorrectionLevel.FormatBits() * 8 + mask, 5);
      var rem := Zeros(5) + data;
      for i := 0 to 10
        invariant rem == Bch(Zeros(5) + data, FORMAT_GENERATOR, i)
      {
        rem := ShiftReduce(rem, FORMAT_GENERATOR);
      }
      var bits := Xor(data + rem, FORMAT_MASK);
      assert bits == FormatBits(errorCorrectionLevel, mask);
      DrawFormatCopies(bits);
    }

    method DrawFormatCopies(bits: seq<bool>)
      requires Valid() && |bits| == 15
      modifies modules, isFunction
      ensures forall x, y :: InGrid(x, y) ==>
                && modules[y, x] == (if IsFormat(size, x, y) then FormatDark(size, bits, x, y) else old(modules[y, x]))
                && isFunction[y, x] == (IsFormat(size, x, y) || old(isFunction[y, x]))
    {
      // first copy
      for i := 0 to 6
        invariant forall x, y :: InGrid(x, y) ==>
                    var drawn := x == 8 && y < i;
                    && modules[y, x] == (if drawn then FormatDark(size, bits, x, y) else old(modules[y, x]))
                    && isFunction[y, x] == (drawn || old(isFunction[y, x]))
      {
        SetFunctionModule(8, i, GetBit(bits, i));
      }
      SetFunctionModule(8, 7, GetBit(bits, 6));
      SetFunctionModule(8, 8, GetBit(bits, 7));
      SetFunctionModule(7, 8, GetBit(bits, 8));
      for i := 9 to 15
        invariant forall x, y :: InGrid(x, y) ==>
                    var drawn := (x == 8 && y <= 8 && y != 6) || (y == 8 && x == 7) || (y == 8 && x <= 5 && 14 - x < i);
                    && modules[y, x] == (if drawn then FormatDark(size, bits, x, y) else old(modules[y, x]))
                    && isFunction[y, x] == (drawn || old(isFunction[y, x]))
      {
        SetFunctionModule(14 - i, 8, GetBit(bits, i));
      }
      // second copy
      for i := 0 to 8
        invariant forall x, y :: InGrid(x, y) ==>
                    var drawn := (IsFormat(size, x, y) && x <= 8 && y <= 8) || (y == 8 && x >= size - i);
                    && modules[y, x] == (if drawn then FormatDark(size, bits, x, y) else old(modules[y, x]))
                    && isFunction[y, x] == (drawn || old(isFunction[y, x]))
      {
        SetFunctionModule(size - 1 - i, 8, GetBit(bits, i));
      }
      for i := 8 to 15
        invariant forall x, y :: InGrid(x, y) ==>
                    var drawn := (IsFormat(size, x, y) && y <= 8) || (x == 8 && size - 7 <= y < size - 15 + i);
                    && modules[y, x] == (if drawn then FormatDark(size, bits, x, y) else old(modules[y, x]))
                    && isFunction[y, x] == (drawn || old(isFunction[y, x]))
      {
        SetFunctionModule(8, size - 15 + i, GetBit(bits, i));
      }
      SetFunctionModule(8, size - 8, true);
    }

    /** Both copies of the version information, from version 7 on. */
    method DrawVersion()
      requires Valid()
      modifies modules, isFunction
      ensures forall x, y :: InGrid(x, y) ==>
                && modules[y, x] == (if IsVersion(version, x, y)
                                     then GetBit(VersionBits(version), VersionIndex(size, x, y))
                                     else old(modules[y, x]))
                && isFunction[y, x] == (IsVersion(version, x, y) || old(isFunction[y, x]))
    {
      hide VersionIndex;
      if version < 7 {
        return;
      }
      var data := BitsOf(version, 6);
      var rem := Zeros(6) + data;
      for i := 0 to 12
        invariant rem == Bch(Zeros(6) + data, VERSION_GENERATOR, i)
      {
        rem := ShiftReduce(rem, VERSION_GENERATOR);
      }
      var bits := data + rem;
      assert bits == VersionBits(version);
      for i := 0 to 18
        invariant forall x, y :: InGrid(x, y) ==>
                    var drawn := 0 <= VersionIndex(size, x, y) < i;
                    && modules[y, x] == (if drawn then GetBit(bits, VersionIndex(size, x, y)) else old(modules[y, x]))
                    && isFunction[y, x] == (drawn || old(isFunction[y, x]))
      {
        var color := GetBit(bits, i);
        var a := size - 11 + i % 3;
        var b := i / 3;
        forall x, y { VersionIndexAt(size, x, y, i); }
        SetFunctionModule(a, b, color);
        SetFunctionModule(b, a, color);
      }
    }

    /** Timing patterns and the three finder patterns, which cover parts of them. */
    method DrawTimingAndFinders()
      requires Valid()
      modifies modules, isFunction
      ensures forall x, y :: InGrid(x, y) ==>
                && modules[y, x] == (if IsFinder(size, x, y) then FinderColor(size, x, y)
                                     else if IsTiming(x, y) then TimingDark(x, y) else old(modules[y, x]))
                && isFunction[y, x] == (IsFinder(size, x, y) || IsTiming(x, y) || old(isFunction[y, x]))
    {
      hide IsTiming, TimingDark, InFinder, FinderDark;
      DrawTimingPatterns();
      DrawFinderPattern(3, 3);
      DrawFinderPattern(size - 4, 3);
      DrawFinderPattern(3, size - 4);
    }

    method DrawFunctionPatterns()
      requires Valid()
      requires forall x, y :: InGrid(x, y) ==> !modules[y, x] && !isFunction[y, x]
      modifies modules, isFunction
      ensures Rows(isFunction) == FunctionGrid(version)
      ensures Rows(modules) == Blank(version, errorCorrectionLevel)
    {
      hide IsTiming, TimingDark, IsFinder, FinderColor, IsAlignment, AlignmentDark, IsFormat, FormatDark, IsVersion;
      DrawTimingAndFinders();
      DrawAlignmentPatterns();
      DrawFormatBits(0);
      DrawVersion();
      GridsEqual(Rows(isFunction), FunctionGrid(version), size);
      GridsEqual(Rows(modules), Blank(version, errorCorrectionLevel), size);
    }

    // ----------------------------------------------------------------
    // Codewords and masks
    // ----------------------------------------------------------------

    /** What the scan has drawn before its k-th cell. */
    ghost predicate DrawnUpTo(path: seq<Cell>, fn: Grid, before: Grid, bits: seq<bool>, k: nat)
      requires Valid() && Square(fn, size) && Square(before, size) && PathInside(path, size) && k <= |path|
      reads this, modules
    {
      && (forall m :: 0 <= m < k ==> modules[path[m].y, path[m].x] == BitAt(path, fn, before, bits, m))
      && (forall x, y :: InGrid(x, y) && Cell(x, y) !in path[..k] ==> modules[y, x] == before[y][x])
    }

    /** One cell of the scan. */
    method DrawBit(x: int, y: int, data: seq<byte>, i: nat,
                   ghost path: seq<Cell>, ghost fn: Grid, ghost before: Grid, ghost k: nat)
      returns (next: nat)
      requires Valid() && fn == Rows(isFunction) && Square(before, size) && PathInside(path, size) && Distinct(path)
      requires k < |path| && path[k] == Cell(x, y)
      requires DrawnUpTo(path, fn, before, StreamBits(data), k)
      requires i == Min(FreeCount(path[..k], fn), 8 * |data|)
      modifies modules
      ensures DrawnUpTo(path, fn, before, StreamBits(data), k + 1)
      ensures next == Min(FreeCount(path[..k + 1], fn), 8 * |data|)
    {
      hide BitAt, FreeCount, Distinct, StreamBits;
      NextCell(path, fn, before, StreamBits(data), k, i);
      NotYetVisited(path, k);
      StreamBit(data, i);
      next := i;
      if !isFunction[y, x] && i < |data| * 8 {
        modules[y, x] := data[i / 8][i % 8];
        next := i + 1;
      }
    }

    lemma StreamBit(data: seq<byte>, i: nat)
      ensures i < 8 * |data| ==> StreamBits(data)[i] == data[i / 8][i % 8]
    {}

    /** One pair of columns, upward or downward. */
    method DrawColumnPair(right: int, data: seq<byte>, i0: nat,
                          ghost path: seq<Cell>, ghost fn: Grid, ghost before: Grid, ghost k0: nat)
      returns (i: nat)
      requires Valid() && fn == Rows(isFunction) && Square(before, size) && PathInside(path, size) && Distinct(path)
      requires right >= 1 && k0 + 2 * size <= |path|
      requires forall m :: 0 <= m < 2 * size ==> path[k0 + m] == PairCell(size, right, m)
      requires DrawnUpTo(path, fn, before, StreamBits(data), k0)
      requires i0 == Min(FreeCount(path[..k0], fn), 8 * |data|)
      modifies modules
      ensures DrawnUpTo(path, fn, before, StreamBits(data), k0 + 2 * size)
      ensures i == Min(FreeCount(path[..k0 + 2 * size], fn), 8 * |data|)
    {
      hide StreamBits, FreeCount, DrawnUpTo, Distinct;
      i := i0;
      for vert := 0 to size
        invariant DrawnUpTo(path, fn, before, StreamBits(data), k0 + 2 * vert)
        invariant i == Min(FreeCount(path[..k0 + 2 * vert], fn), 8 * |data|)
      {
        for j := 0 to 2
          invariant DrawnUpTo(path, fn, before, StreamBits(data), k0 + 2 * vert + j)
          invariant i == Min(FreeCount(path[..k0 + 2 * vert + j], fn), 8 * |data|)
        {
          var x := right - j;
          var upward := (right + 1) / 2 % 2 == 0;
          var y := if upward then size - 1 - vert else vert;
          ghost var m := 2 * vert + j;
          assert m / 2 == vert && m % 2 == j;
          assert PairCell(size, right, m) == Cell(x, y);
          i := DrawBit(x, y, data, i, path, fn, before, k0 + 2 * vert + j);
        }
      }
    }

    /** The zigzag scan. */
    method DrawCodewords(data: seq<byte>)
      requires Valid()
      requires ScanInside(size)
      requires FreeCount(Scan(size), Rows(isFunction)) >= 8 * |data|
      modifies modules
      ensures Drawn(Scan(size), Rows(isFunction), old(Rows(modules)), StreamBits(data), Rows(modules))
    {
      hide StreamBits, FreeCount, BitAt, Distinct, DrawnUpTo;
      ghost var path, fn, before := Scan(size), Rows(isFunction), Rows(modules);
      ghost var k := 0;
      ScanVisitsOnce(size);
      EmptyPrefix(path, fn);
      NothingDrawnYet(path, fn, before, StreamBits(data));
      var i := 0;
      var right := size - 1;
      while right >= 1
        invariant OnTrack(right)
        invariant 0 <= k <= |path| && path[k..] == ScanFrom(size, right)
        invariant DrawnUpTo(path, fn, before, StreamBits(data), k)
        invariant i == Min(FreeCount(path[..k], fn), 8 * |data|)
        decreases right
      {
        if right == 6 {
          right := 5;
        }
        PairAhead(path, k, size, right);
        i := DrawColumnPair(right, data, i, path, fn, before, k);
        k := k + 2 * size;
        right := right - 2;
      }
      assert |path[k..]| == 0;
      assert path[..k] == path;
      assert i == |data| * 8;
      AllDrawn(path, fn, before, StreamBits(data));
    }

    lemma NothingDrawnYet(path: seq<Cell>, fn: Grid, before: Grid, bits: seq<bool>)
      requires Valid() && PathInside(path, size) && fn == Rows(isFunction) && before == Rows(modules)
      ensures DrawnUpTo(path, fn, before, bits, 0)
    {}

    lemma AllDrawn(path: seq<Cell>, fn: Grid, before: Grid, bits: seq<bool>)
      requires Valid() && PathInside(path, size) && fn == Rows(isFunction) && Square(before, size)
      requires DrawnUpTo(path, fn, before, bits, |path|)
      ensures Drawn(path, fn, before, bits, Rows(modules))
    {
      hide BitAt;
      assert path[..|path|] == path;
    }

    method ApplyMask(mask: int)
      requires Valid() && MaskInRange(mask)
      modifies modules
      ensures Rows(modules) == Masked(old(Rows(modules)), Rows(isFunction), mask)
      ensures forall x, y :: InGrid(x, y) ==>
                modules[y, x] == (old(modules[y, x]) != (!isFunction[y, x] && S.MaskCondition(mask, y, x)))
    {
      hide Invert, S.MaskCondition;
      for y := 0 to size
        invariant forall x', y' :: InGrid(x', y') ==>
                    modules[y', x'] == (old(modules[y', x']) != (y' < y && !isFunction[y', x'] && Invert(mask, x', y')))
      {
        for x := 0 to size
          invariant forall x', y' :: InGrid(x', y') ==>
                      modules[y', x'] == (old(modules[y', x']) !=
                        ((y' < y || (y' == y && x' < x)) && !isFunction[y', x'] && Invert(mask, x', y')))
        {
          var invert := Invert(mask, x, y);
          if !isFunction[y, x] && invert {
            modules[y, x] := !modules[y, x];
          }
        }
      }
      GridsEqual(Rows(modules), Masked(old(Rows(modules)), Rows(isFunction), mask), size);
      forall x, y | InGrid(x, y)
        ensures Invert(mask, x, y) == S.MaskCondition(mask, y, x)
      {
        QrConformance.MaskAgrees(mask, x, y);
      }
    }

    // ----------------------------------------------------------------
    // The symbol
    // ----------------------------------------------------------------

    /** The grid of a finished symbol for mask m, from any grid that agrees with `plain` off the format modules. */
    ghost predicate ReadyFor(plain: Grid)
      requires Valid() && Square(plain, size)
      reads this, modules, isFunction
    {
      && Rows(isFunction) == FunctionGrid(version)
      && forall x, y :: InGrid(x, y) && !IsFormat(size, x, y) ==> modules[y, x] == plain[y][x]
    }

    /** Applies a mask and its format information. */
    method MaskAndFormat(mask: int, ghost plain: Grid)
      requires Valid() && MaskInRange(mask) && Square(plain, size) && ReadyFor(plain)
      modifies modules, isFunction
      ensures Rows(modules) == Finish(plain, version, errorCorrectionLevel, mask)
      ensures Rows(isFunction) == FunctionGrid(version)
    {
      ghost var start := Rows(modules);
      FinishIgnoresFormat(start, plain, version, errorCorrectionLevel, mask);
      ApplyMask(mask);
      DrawFormatBits(mask);
      GridsEqual(Rows(modules), Finish(start, version, errorCorrectionLevel, mask), size);
      forall x, y | InGrid(x, y) { FormatFunction(x, y); }
      GridsEqual(Rows(isFunction), FunctionGrid(version), size);
    }

    lemma FormatFunction(x: int, y: int)
      requires VersionInRange(version) && size == Size(version)
      ensures IsFormat(size, x, y) ==> IsFunctionModule(version, x, y)
    {}

    /** Tries all masks and returns the first one of least penalty. */
    method ChooseMask(ghost plain: Grid) returns (msk: int)
      requires Valid() && Square(plain, size) && ReadyFor(plain)
      modifies modules, isFunction
      ensures ReadyFor(plain)
      ensures MaskInRange(msk) && IsBestMask(plain, version, errorCorrectionLevel, msk)
    {
      hide Penalty.Score;
      msk := -1;
      var minPenalty := 1000000000;
      for i := 0 to 8
        invariant ReadyFor(plain)
        invariant i == 0 ==> minPenalty == 1000000000
        invariant i > 0 ==> 0 <= msk < i && minPenalty == MaskPenalty(plain, version, errorCorrectionLevel, msk)
        invariant forall m :: 0 <= m < i ==>
                    if m < msk then minPenalty < MaskPenalty(plain, version, errorCorrectionLevel, m)
                    else minPenalty <= MaskPenalty(plain, version, errorCorrectionLevel, m)
      {
        MaskAndFormat(i, plain);
        var penalty := Penalty.GetPenaltyScore(modules);
        if penalty < minPenalty {
          msk := i;
          minPenalty := penalty;
        }
        Unmask(i, plain);
      }
    }

    /** A second application of the mask restores the data modules. */
    method Unmask(mask: int, ghost plain: Grid)
      requires Valid() && MaskInRange(mask) && Square(plain, size)
      requires Rows(isFunction) == FunctionGrid(version)
      requires Rows(modules) == Finish(plain, version, errorCorrectionLevel, mask)
      modifies modules
      ensures ReadyFor(plain)
    {
      ApplyMask(mask);
    }

    /** Draws the codeword stream over the function patterns. */
    method PlaceStream(ghost data: seq<byte>, stream: seq<byte>)
      requires Valid() && HasRoom(version)
      requires Rows(isFunction) == FunctionGrid(version) && Rows(modules) == Blank(version, errorCorrectionLevel)
      requires StreamFor(version, errorCorrectionLevel, data, stream)
      modifies modules
      ensures Carries(Rows(modules), version, errorCorrectionLevel, data, stream)
    {
      hide NumBlocks, EccLen, RawCodewords, FunctionGrid, Blank, Drawn, StreamBits, Distinct, FreeCount, Scan;
      ScanStaysInside(size);
      DrawCodewords(stream);
    }

    /** Applies the chosen mask, or the best one. */
    method ChooseAndMask(msk: int, ghost plain: Grid) returns (chosen: int)
      requires Valid() && -1 <= msk <= 7 && Square(plain, size) && ReadyFor(plain)
      modifies modules, isFunction
      ensures MaskInRange(chosen) && Rows(modules) == Finish(plain, version, errorCorrectionLevel, chosen)
      ensures if msk == -1 then IsBestMask(plain, version, errorCorrectionLevel, chosen) else chosen == msk
    {
      hide IsBestMask, Finish;
      chosen := msk;
      if chosen == -1 {
        chosen := ChooseMask(plain);
      }
      MaskAndFormat(chosen, plain);
    }

    /** Draws data codewords (without error correction) as a symbol; msk == -1 asks for the best mask. */
    static method Create(version: int, ecl: Ecc, dataCodewords: seq<byte>, msk: int)
      returns (r: Result<QrCode, RangeError>)
      ensures r.Failure? <==>
                || !VersionInRange(version) || msk < -1 || msk > 7
                || |dataCodewords| != NumDataCodewords(version, ecl)
      ensures r.Success? ==>
                var qr := r.value;
                && fresh(qr) && fresh(qr.modules) && MaskInRange(qr.mask)
                && qr.version == version && qr.errorCorrectionLevel == ecl
                && IsSymbolFor(Rows(qr.modules), version, ecl, dataCodewords, msk, qr.mask)
    {
      hide NumDataCodewords, NumBlocks, EccLen, RawCodewords, HasRoom, Interleaved, IsSymbolFor, Carries, Blank,
           FunctionGrid, Finish, IsBestMask;
      if !VersionInRange(version) {
        return Failure(RangeError);
      }
      if msk < -1 || msk > 7 {
        return Failure(RangeError);
      }
      var qr := new QrCode(version, ecl);
      qr.DrawFunctionPatterns();
      DataCodewordsFillBlocks(version, ecl);
      var allCodewords := AddEccAndInterleave(BlockParams(version, ecl), dataCodewords);
      if allCodewords.Failure? {
        return Failure(RangeError);
      }
      EveryVersionHasRoom(version);
      qr.PlaceStream(dataCodewords, allCodewords.value);
      ghost var plain := Rows(qr.modules);
      var chosen := qr.ChooseAndMask(msk, plain);
      SymbolDrawn(plain, version, ecl, dataCodewords, allCodewords.value, msk, chosen);
      qr.mask := chosen;
      qr.isFunction := new bool[0, 0];
      return Success(qr);
    }
  }
}
