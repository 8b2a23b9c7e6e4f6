/**
 What a finished QR symbol is, as a grid: function modules drawn over a masked
 codeword stream (sections 7.7 and 7.8 of ISO/IEC 18004:2015).
 */
module QrSymbol {
  import opened Bits
  import opened Zigzag
  import opened QrTables
  import opened FunctionPatterns
  import opened Interleave
  import Penalty

  /** The eight mask patterns. */
  predicate Invert(mask: int, x: nat, y: nat)
  {
    match mask
    case 0 => (x + y) % 2 == 0
    case 1 => y % 2 == 0
    case 2 => x % 3 == 0
    case 3 => (x + y) % 3 == 0
    case 4 => (x / 3 + y / 2) % 2 == 0
    case 5 => x * y % 2 + x * y % 3 == 0
    case 6 => (x * y % 2 + x * y % 3) % 2 == 0
    case _ => ((x + y) % 2 + x * y % 3) % 2 == 0
  }

  /** XORs the modules that are not function modules with a mask pattern. */
  function Masked(g: Grid, fn: Grid, mask: int): (m: Grid)
    requires Square(g, |fn|) && Square(fn, |fn|)
    ensures Square(m, |fn|)
    ensures forall x, y :: 0 <= x < |fn| && 0 <= y < |fn| ==> m[y][x] == (g[y][x] != (!fn[y][x] && Invert(mask, x, y)))
  {
    seq(|fn|, y requires 0 <= y < |fn| =>
      seq(|fn|, x requires 0 <= x < |fn| => g[y][x] != (!fn[y][x] && Invert(mask, x, y))))
  }

  /** Draws the format information over a grid. */
  function WithFormat(g: Grid, ecl: Ecc, mask: int): (r: Grid)
    requires Square(g, |g|) && MaskInRange(mask)
    ensures Square(r, |g|)
    ensures forall x, y :: 0 <= x < |g| && 0 <= y < |g| ==>
              r[y][x] == if IsFormat(|g|, x, y) then FormatDark(|g|, FormatBits(ecl, mask), x, y) else g[y][x]
  {
    seq(|g|, y requires 0 <= y < |g| =>
      seq(|g|, x requires 0 <= x < |g| =>
        if IsFormat(|g|, x, y) then FormatDark(|g|, FormatBits(ecl, mask), x, y) else g[y][x]))
  }

  /** The function patterns alone, with the format information of mask 0. */
  function Blank(version: int, ecl: Ecc): (g: Grid)
    requires VersionInRange(version)
    ensures Square(g, Size(version))
    ensures forall x, y :: 0 <= x < Size(version) && 0 <= y < Size(version) ==>
              g[y][x] == FunctionDark(version, ecl, 0, x, y)
  {
    seq(Size(version), y requires 0 <= y < Size(version) =>
      seq(Size(version), x requires 0 <= x < Size(version) => FunctionDark(version, ecl, 0, x, y)))
  }

  /** The bits of a codeword stream, each codeword most significant bit first. */
  function StreamBits(stream: seq<byte>): (bits: seq<bool>)
    ensures |bits| == 8 * |stream|
  {
    seq(8 * |stream|, i requires 0 <= i < 8 * |stream| => stream[i / 8][i % 8])
  }

  /** The symbol for a given mask, from the grid that carries the unmasked stream. */
  function Finish(plain: Grid, version: int, ecl: Ecc, mask: int): (g: Grid)
    requires VersionInRange(version) && MaskInRange(mask) && Square(plain, Size(version))
    ensures Square(g, Size(version))
  {
    WithFormat(Masked(plain, FunctionGrid(version), mask), ecl, mask)
  }

  /** `stream` is the interleaved codeword stream of these data codewords. */
  ghost predicate StreamFor(version: int, ecl: Ecc, data: seq<byte>, stream: seq<byte>)
    requires VersionInRange(version)
  {
    var p := BlockParams(version, ecl);
    |data| == p.DataCount() && Interleaved(p, data, stream)
  }

  /** `plain` carries the stream for these data codewords in scan order, unmasked. */
  ghost predicate Carries(plain: Grid, version: int, ecl: Ecc, data: seq<byte>, stream: seq<byte>)
    requires VersionInRange(version)
  {
    ScanVisitsOnce(Size(version));
    && StreamFor(version, ecl, data, stream)
    && Drawn(Scan(Size(version)), FunctionGrid(version), Blank(version, ecl), StreamBits(stream), plain)
  }

  /** The scan has room for the whole stream. */
  ghost predicate HasRoom(version: int)
    requires VersionInRange(version)
  {
    ScanVisitsOnce(Size(version));
    FreeCount(Scan(Size(version)), FunctionGrid(version)) >= 8 * RawCodewords(version)
  }

  // ------------------------------------------------------------------
  // Masking and format information
  // ------------------------------------------------------------------

  /** Masking is its own inverse. */
  lemma MaskTwice(g: Grid, fn: Grid, mask: int)
    requires Square(g, |fn|) && Square(fn, |fn|)
    ensures Masked(Masked(g, fn, mask), fn, mask) == g
  {
    GridsEqual(Masked(Masked(g, fn, mask), fn, mask), g, |fn|);
  }

  /** Two grids that differ in format modules only give the same finished symbol. */
  lemma FinishIgnoresFormat(g: Grid, h: Grid, version: int, ecl: Ecc, mask: int)
    requires VersionInRange(version) && MaskInRange(mask)
    requires Square(g, Size(version)) && Square(h, Size(version))
    requires forall x, y :: 0 <= x < Size(version) && 0 <= y < Size(version) && !IsFormat(Size(version), x, y) ==>
               g[y][x] == h[y][x]
    ensures Finish(g, version, ecl, mask) == Finish(h, version, ecl, mask)
  {
    GridsEqual(Finish(g, version, ecl, mask), Finish(h, version, ecl, mask), Size(version));
  }

  /** Drawing the format information never touches a data module. */
  lemma UnmaskFinished(plain: Grid, version: int, ecl: Ecc, mask: int, x: int, y: int)
    requires VersionInRange(version) && MaskInRange(mask) && Square(plain, Size(version))
    requires 0 <= x < Size(version) && 0 <= y < Size(version) && !IsFunctionModule(version, x, y)
    ensures Finish(plain, version, ecl, mask)[y][x] == (plain[y][x] != Invert(mask, x, y))
  {}

  // ------------------------------------------------------------------
  // Choice of the mask
  // ------------------------------------------------------------------

  ghost function MaskPenalty(plain: Grid, version: int, ecl: Ecc, mask: int): int
    requires VersionInRange(version) && MaskInRange(mask) && Square(plain, Size(version))
  {
    Penalty.Score(Finish(plain, version, ecl, mask))
  }

  /** No mask has a lower penalty, and no earlier mask an equal one. */
  ghost predicate IsBestMask(plain: Grid, version: int, ecl: Ecc, mask: int)
    requires VersionInRange(version) && MaskInRange(mask) && Square(plain, Size(version))
  {
    forall m :: 0 <= m <= 7 ==>
      if m < mask then MaskPenalty(plain, version, ecl, mask) < MaskPenalty(plain, version, ecl, m)
      else MaskPenalty(plain, version, ecl, mask) <= MaskPenalty(plain, version, ecl, m)
  }

  /** g is the symbol the generator draws when asked for mask msk (-1: choose one). */
  ghost predicate IsSymbolFor(g: Grid, version: int, ecl: Ecc, data: seq<byte>, msk: int, mask: int)
    requires VersionInRange(version) && MaskInRange(mask)
  {
    exists plain: Grid, stream: seq<byte> ::
      && Carries(plain, version, ecl, data, stream)
      && g == Finish(plain, version, ecl, mask)
      && if msk == -1 then IsBestMask(plain, version, ecl, mask) else mask == msk
  }

  lemma SymbolDrawn(plain: Grid, version: int, ecl: Ecc, data: seq<byte>, stream: seq<byte>, msk: int, mask: int)
    requires VersionInRange(version) && MaskInRange(mask) && Square(plain, Size(version))
    requires Carries(plain, version, ecl, data, stream)
    requires if msk == -1 then IsBestMask(plain, version, ecl, mask) else mask == msk
    ensures IsSymbolFor(Finish(plain, version, ecl, mask), version, ecl, data, msk, mask)
  {}
}
