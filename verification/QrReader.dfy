/**
 A reader that recovers everything from the modules of a symbol alone: the version
 from its size, after checking every fixed pattern; level and mask from the format
 information; and the data codewords by unmasking, scanning and de-interleaving. It
 follows QrStandard throughout and uses nothing of the generator: whatever the
 generator draws, this reader returns.
 */
module QrReader {
  import opened Wrappers
  import opened Bits
  import opened Zigzag
  import opened QrTables
  import opened FunctionPatterns
  import opened Interleave
  import opened QrSymbol
  import opened Capacity
  import opened Gf256
  import opened ReedSolomon
  import opened QrConformance
  import opened QrPictures
  import S = QrStandard

  datatype Readout = Readout(version: int, ecl: Ecc, mask: int, data: seq<byte>)

  /** The first n bytes of a bit string. */
  function BytesOf(bits: seq<bool>, n: nat): (s: seq<byte>)
    requires 8 * n <= |bits|
    ensures |s| == n
  {
    seq(n, i requires 0 <= i < n => bits[8 * i..8 * i + 8])
  }

  /** The number in the five data bits of a format word. */
  function FormatNumber(word: seq<bool>): nat
    requires |word| == 15
  {
    NatOf(Xor(word, BitsOf(0x5412, 15))[..5])
  }

  /** Every fixed pattern is in place, and both copies of the format and of the version information agree. */
  ghost predicate WellFormed(g: Grid, version: int)
  {
    && 1 <= version <= 40 && |g| == 4 * version + 17
    && S.Framed(g, version)
    && S.At(g, S.FormatCellsAgain(|g|)) == S.At(g, S.FormatCells(|g|))
    && S.IsFormatWord(S.At(g, S.FormatCells(|g|)), FormatNumber(S.At(g, S.FormatCells(|g|))))
    && (version >= 7 ==>
          && S.IsVersionWord(S.At(g, S.VersionCells(|g|)), version)
          && S.At(g, S.Mirrored(S.VersionCells(|g|))) == S.At(g, S.VersionCells(|g|)))
  }

  function LayoutOf(version: int, ecl: Ecc): S.Layout
  {
    S.Layout(S.Blocks(version, ecl), S.DataCodewords(version, ecl), S.Table9(version).total)
  }

  /** The codeword stream, if there is room for it. */
  ghost function ReadStream(g: Grid, version: int, mask: int): Option<seq<byte>>
  {
    var bits, total := S.DataBits(S.ColumnsFrom(|g|, 0), g, version, mask), S.Table9(version).total;
    if 8 * total <= |bits| then Some(BytesOf(bits, total)) else None
  }

  ghost function Read(g: Grid): Option<Readout>
  {
    var version := (|g| - 17) / 4;
    if !WellFormed(g, version) then None
    else
      var format := FormatNumber(S.At(g, S.FormatCells(|g|)));
      var ecl, mask := S.LevelOf(format / 8), format % 8;
      match ReadStream(g, version, mask)
      case None => None
      case Some(stream) =>
        var l := LayoutOf(version, ecl);
        if l.n == 0 then None else Some(Readout(version, ecl, mask, S.DataOf(stream, l, l.n)))
  }

  // ------------------------------------------------------------------
  // Format and version information
  // ------------------------------------------------------------------

  lemma FormatReadsBack(ecl: Ecc, mask: int)
    requires MaskInRange(mask)
    ensures S.IsFormatWord(FormatBits(ecl, mask), FormatNumber(FormatBits(ecl, mask)))
    ensures var format := FormatNumber(FormatBits(ecl, mask));
      S.LevelOf(format / 8) == ecl && format % 8 == mask
  {
    hide NatOf, BitsOf, FormatBits;
    FormatWordValid(ecl, mask);
    assert Pow2(5) == 32;
    NatOfBitsOf(ecl.FormatBits() * 8 + mask, 5);
  }

  lemma FinishedWellFormed(g: Grid, version: int, ecl: Ecc, mask: int)
    requires VersionInRange(version) && MaskInRange(mask) && Patterned(g, version, ecl, mask)
    ensures WellFormed(g, version) && S.At(g, S.FormatCells(|g|)) == FormatBits(ecl, mask)
  {
    hide S.At, S.Framed, S.FormatCells, S.FormatCellsAgain, S.VersionCells, S.Mirrored, S.IsFormatWord, S.IsVersionWord,
         FormatNumber, FormatBits, VersionBits, FunctionDark, IsFunctionModule;
    FrameShown(g, version, ecl, mask);
    FormatShown(g, version, ecl, mask);
    FormatReadsBack(ecl, mask);
    if version >= 7 {
      VersionShown(g, version, ecl, mask);
      VersionWordValid(version);
    }
  }

  // ------------------------------------------------------------------
  // Codewords
  // ------------------------------------------------------------------

  /** The bits the standard takes from a path are those of the unmasked symbol off its function modules. */
  lemma {:induction false} DataBitsAgree(path: seq<Cell>, g: Grid, version: int, mask: int)
    requires VersionInRange(version) && MaskInRange(mask) && Square(g, Size(version)) && PathInside(path, Size(version))
    ensures var fn := FunctionGrid(version);
      S.DataBits(path, g, version, mask) == ReadBits(path, fn, Masked(g, fn, mask))
  {
    hide S.Reserved, S.MaskCondition, Invert, IsFunctionModule;
    if path != [] {
      var c := path[|path| - 1];
      DataBitsAgree(path[..|path| - 1], g, version, mask);
      ReservedAgrees(version, c.x, c.y);
      MaskAgrees(mask, c.x, c.y);
    }
  }

  /** Reading only looks at cells that are not function modules. */
  lemma {:induction false} ReadBitsAgree(path: seq<Cell>, fn: Grid, g: Grid, h: Grid)
    requires Square(fn, |fn|) && Square(g, |fn|) && Square(h, |fn|) && PathInside(path, |fn|)
    requires forall x, y :: 0 <= x < |fn| && 0 <= y < |fn| && !fn[y][x] ==> g[y][x] == h[y][x]
    ensures ReadBits(path, fn, g) == ReadBits(path, fn, h)
  {
    if path != [] {
      ReadBitsAgree(path[..|path| - 1], fn, g, h);
    }
  }

  lemma BytesOfStreamBits(stream: seq<byte>, bits: seq<bool>)
    requires StreamBits(stream) <= bits
    ensures BytesOf(bits, |stream|) == stream
  {
    var n := |stream|;
    forall i | 0 <= i < n
      ensures BytesOf(bits, n)[i] == stream[i]
    {
      forall b | 0 <= b < 8
        ensures bits[8 * i..8 * i + 8][b] == stream[i][b]
      {
        assert bits[8 * i + b] == StreamBits(stream)[8 * i + b];
      }
    }
  }

  lemma UnmaskedReadsBack(plain: Grid, version: int, ecl: Ecc, data: seq<byte>, stream: seq<byte>, mask: int)
    requires VersionInRange(version) && MaskInRange(mask) && Square(plain, Size(version))
    requires Carries(plain, version, ecl, data, stream)
    ensures ScanInside(Size(version))
    ensures var fn := FunctionGrid(version);
      StreamBits(stream) <= ReadBits(Scan(Size(version)), fn, Masked(Finish(plain, version, ecl, mask), fn, mask))
  {
    hide Scan, Distinct, FreeCount, StreamBits, IsFunctionModule, Blank, RawCodewords, NumBlocks, EccLen, Invert;
    var size, fn, g := Size(version), FunctionGrid(version), Finish(plain, version, ecl, mask);
    var path := Scan(size);
    ScanStaysInside(size);
    EveryVersionHasRoom(version);
    forall x, y | 0 <= x < size && 0 <= y < size && !fn[y][x]
      ensures Masked(g, fn, mask)[y][x] == plain[y][x]
    {
      UnmaskFinished(plain, version, ecl, mask, x, y);
    }
    ReadBitsAgree(path, fn, Masked(g, fn, mask), plain);
    ReadDrawn(path, fn, Blank(version, ecl), StreamBits(stream), plain, |path|);
    assert path[..|path|] == path;
  }

  /** Unmasking and scanning by the standard returns the bits of the codeword stream. */
  lemma ScanReadsBack(plain: Grid, version: int, ecl: Ecc, data: seq<byte>, stream: seq<byte>, mask: int)
    requires VersionInRange(version) && MaskInRange(mask) && Square(plain, Size(version))
    requires Carries(plain, version, ecl, data, stream)
    ensures var g := Finish(plain, version, ecl, mask);
      StreamBits(stream) <= S.DataBits(S.ColumnsFrom(|g|, 0), g, version, mask)
  {
    hide Scan, Masked, ReadBits, StreamBits, Carries, Finish, S.DataBits, S.ColumnsFrom, FunctionGrid;
    var size, g := Size(version), Finish(plain, version, ecl, mask);
    UnmaskedReadsBack(plain, version, ecl, data, stream, mask);
    ScanAgrees(version);
    DataBitsAgree(Scan(size), g, version, mask);
  }

  lemma StreamReadsBack(plain: Grid, version: int, ecl: Ecc, data: seq<byte>, stream: seq<byte>, mask: int)
    requires VersionInRange(version) && MaskInRange(mask) && Square(plain, Size(version))
    requires Carries(plain, version, ecl, data, stream)
    ensures ReadStream(Finish(plain, version, ecl, mask), version, mask) == Some(stream)
  {
    hide StreamBits, Drawn, Finish, S.DataBits, S.ColumnsFrom, RawCodewords, NumBlocks, EccLen, Params.Valid,
         Params.DataCount, S.Table9, S.Blocks, S.DataCodewords;
    TablesAgree(version, ecl);
    var g := Finish(plain, version, ecl, mask);
    ScanReadsBack(plain, version, ecl, data, stream, mask);
    BytesOfStreamBits(stream, S.DataBits(S.ColumnsFrom(|g|, 0), g, version, mask));
  }

  lemma LayoutAgrees(version: int, ecl: Ecc)
    requires VersionInRange(version)
    ensures SameLayout(BlockParams(version, ecl), LayoutOf(version, ecl)) && LayoutOf(version, ecl).n >= 1
  {
    hide RawCodewords, NumBlocks, EccLen, S.Table9, S.Blocks, S.DataCodewords;
    TablesAgree(version, ecl);
    DataCodewordsFillBlocks(version, ecl);
  }

  lemma DataReadsBack(version: int, ecl: Ecc, data: seq<byte>, stream: seq<byte>)
    requires VersionInRange(version) && StreamFor(version, ecl, data, stream)
    ensures var l := LayoutOf(version, ecl); l.n >= 1 && S.DataOf(stream, l, l.n) == data
  {
    hide RawCodewords, NumBlocks, EccLen, Params.Valid, Params.DataCount, S.DataOf, LayoutOf;
    LayoutAgrees(version, ecl);
    var p, l := BlockParams(version, ecl), LayoutOf(version, ecl);
    DataAgrees(p, l, stream, l.n);
    DeinterleaveInterleave(p, data, stream);
  }

  // ------------------------------------------------------------------
  // Main result
  // ------------------------------------------------------------------

  lemma SymbolParts(g: Grid, version: int, ecl: Ecc, data: seq<byte>, msk: int, mask: int)
    returns (plain: Grid, stream: seq<byte>)
    requires VersionInRange(version) && MaskInRange(mask) && IsSymbolFor(g, version, ecl, data, msk, mask)
    ensures Square(plain, Size(version)) && Carries(plain, version, ecl, data, stream)
    ensures g == Finish(plain, version, ecl, mask)
  {
    hide StreamFor, Finish, IsBestMask;
    plain, stream :| Square(plain, Size(version)) && Carries(plain, version, ecl, data, stream)
                     && g == Finish(plain, version, ecl, mask);
  }

  /** A finished symbol reads back: version, level, mask and exactly the data codewords. */
  lemma SymbolReadsBack(g: Grid, version: int, ecl: Ecc, data: seq<byte>, msk: int, mask: int)
    requires VersionInRange(version) && MaskInRange(mask)
    requires IsSymbolFor(g, version, ecl, data, msk, mask)
    ensures Read(g) == Some(Readout(version, ecl, mask, data))
  {
    hide *;
    var plain, stream := SymbolParts(g, version, ecl, data, msk, mask);
    FinishedPatterned(plain, version, ecl, data, stream, mask);
    FinishedWellFormed(g, version, ecl, mask);
    SizeOf(g, version);
    FormatReadsBack(ecl, mask);
    StreamReadsBack(plain, version, ecl, data, stream, mask);
    CarriesStream(plain, version, ecl, data, stream);
    DataReadsBack(version, ecl, data, stream);
    ReadIs(g, version, ecl, mask, stream);
  }

  lemma SizeOf(g: Grid, version: int)
    requires WellFormed(g, version)
    ensures |g| == 4 * version + 17
  {
    hide S.Framed, S.IsFormatWord, S.IsVersionWord;
  }

  lemma CarriesStream(plain: Grid, version: int, ecl: Ecc, data: seq<byte>, stream: seq<byte>)
    requires VersionInRange(version) && Carries(plain, version, ecl, data, stream)
    ensures StreamFor(version, ecl, data, stream)
  {
    hide StreamFor, Drawn;
  }

  lemma ReadIs(g: Grid, version: int, ecl: Ecc, mask: int, stream: seq<byte>)
    requires |g| == 4 * version + 17 && WellFormed(g, version)
    requires ReadStream(g, version, mask) == Some(stream) && LayoutOf(version, ecl).n >= 1
    requires var format := FormatNumber(S.At(g, S.FormatCells(|g|)));
      S.LevelOf(format / 8) == ecl && format % 8 == mask
    ensures var l := LayoutOf(version, ecl);
      Read(g) == Some(Readout(version, ecl, mask, S.DataOf(stream, l, l.n)))
  {
    hide WellFormed, FormatNumber, ReadStream, BitsOf, NatOf, S.Blocks, S.DataCodewords, S.Table9, LayoutOf, S.DataOf,
         S.LevelOf, S.At, S.FormatCells;
  }

  /** Every block of a finished symbol is a Reed-Solomon codeword. */
  lemma SymbolBlocksAreCodewords(g: Grid, version: int, ecl: Ecc, data: seq<byte>, msk: int, mask: int, j: nat,
                                 root: nat)
    requires VersionInRange(version) && MaskInRange(mask)
    requires IsSymbolFor(g, version, ecl, data, msk, mask)
    requires j < S.Blocks(version, ecl) && root < LayoutOf(version, ecl).EccLen()
    ensures var stream, l := ReadStream(g, version, mask), LayoutOf(version, ecl);
      && stream.Some?
      && Eval(S.BlockOf(stream.value, l, j) + S.EccOf(stream.value, l, j), Pow(TWO, root)) == ZERO
  {
    hide Drawn, Finish, ReadStream, IsBestMask, ReadBlock, ReadEcc, Eval, Pow, NumBlocks, EccLen,
         RawCodewords, S.BlockOf, S.EccOf, S.Table9, S.Blocks, S.DataCodewords, S.Layout.EccLen;
    var plain, stream := SymbolParts(g, version, ecl, data, msk, mask);
    StreamReadsBack(plain, version, ecl, data, stream, mask);
    LayoutAgrees(version, ecl);
    var p, l := BlockParams(version, ecl), LayoutOf(version, ecl);
    SameLengths(p, l);
    BlocksAgree(p, l, stream, j);
    BlocksAreCodewords(p, data, stream, j, root);
  }
}
