/**
 What a reader knows of a QR symbol from the standard's own tables and figures
 (ISO/IEC 18004:2015), written down apart from the generator: the pictures of the fixed
 patterns, the places of the format and version information, the order of the data
 modules, the mask conditions, and the capacities.
 */
module QrStandard {
  import opened Bits
  import opened BitPoly
  import opened Zigzag
  import opened QrTables

  // ------------------------------------------------------------------
  // Pictures
  // ------------------------------------------------------------------

  type Picture = seq<string>

  /** A finder pattern with its separator, in the top left, top right and bottom left corner (section 6.3.3). */
  const TOP_LEFT: Picture := [
    "#######.",
    "#.....#.",
    "#.###.#.",
    "#.###.#.",
    "#.###.#.",
    "#.....#.",
    "#######.",
    "........"]

  const TOP_RIGHT: Picture := [
    ".#######",
    ".#.....#",
    ".#.###.#",
    ".#.###.#",
    ".#.###.#",
    ".#.....#",
    ".#######",
    "........"]

  const BOTTOM_LEFT: Picture := [
    "........",
    "#######.",
    "#.....#.",
    "#.###.#.",
    "#.###.#.",
    "#.###.#.",
    "#.....#.",
    "#######."]

  /** An alignment pattern (section 6.3.6). */
  const ALIGNMENT: Picture := [
    "#####",
    "#...#",
    "#.#.#",
    "#...#",
    "#####"]

  /** The grid shows the picture with its top left module at (x, y). */
  predicate Shows(g: Grid, x: int, y: int, picture: Picture)
  {
    forall r, c :: 0 <= r < |picture| && 0 <= c < |picture[r]| ==> Dark(g, x + c, y + r) == (picture[r][c] == '#')
  }

  /** The color of a module; outside the symbol everything is light. */
  predicate Dark(g: Grid, x: int, y: int)
  {
    0 <= y < |g| && 0 <= x < |g[y]| && g[y][x]
  }

  /** The row and column coordinates of alignment pattern centers (table E.1). */
  function Centers(version: int): seq<int>
  {
    match version
    case 1 => []
    case 2 => [6, 18]
    case 3 => [6, 22]
    case 4 => [6, 26]
    case 5 => [6, 30]
    case 6 => [6, 34]
    case 7 => [6, 22, 38]
    case 8 => [6, 24, 42]
    case 9 => [6, 26, 46]
    case 10 => [6, 28, 50]
    case 11 => [6, 30, 54]
    case 12 => [6, 32, 58]
    case 13 => [6, 34, 62]
    case 14 => [6, 26, 46, 66]
    case 15 => [6, 26, 48, 70]
    case 16 => [6, 26, 50, 74]
    case 17 => [6, 30, 54, 78]
    case 18 => [6, 30, 56, 82]
    case 19 => [6, 30, 58, 86]
    case 20 => [6, 34, 62, 90]
    case 21 => [6, 28, 50, 72, 94]
    case 22 => [6, 26, 50, 74, 98]
    case 23 => [6, 30, 54, 78, 102]
    case 24 => [6, 28, 54, 80, 106]
    case 25 => [6, 32, 58, 84, 110]
    case 26 => [6, 30, 58, 86, 114]
    case 27 => [6, 34, 62, 90, 118]
    case 28 => [6, 26, 50, 74, 98, 122]
    case 29 => [6, 30, 54, 78, 102, 126]
    case 30 => [6, 26, 52, 78, 104, 130]
    case 31 => [6, 30, 56, 82, 108, 134]
    case 32 => [6, 34, 60, 86, 112, 138]
    case 33 => [6, 30, 58, 86, 114, 142]
    case 34 => [6, 34, 62, 90, 118, 146]
    case 35 => [6, 30, 54, 78, 102, 126, 150]
    case 36 => [6, 24, 50, 76, 102, 128, 154]
    case 37 => [6, 28, 54, 80, 106, 132, 158]
    case 38 => [6, 32, 58, 84, 110, 136, 162]
    case 39 => [6, 26, 54, 82, 110, 138, 166]
    case _ => [6, 30, 58, 86, 114, 142, 170]
  }

  /** The i-th and j-th coordinates are the center of an alignment pattern, not of a finder corner. */
  predicate HasAlignment(centers: seq<int>, i: int, j: int)
  {
    var n := |centers|;
    && 0 <= i < n && 0 <= j < n
    && !(i == 0 && j == 0) && !(i == 0 && j == n - 1) && !(i == n - 1 && j == 0)
  }

  /** The fixed patterns are where the standard puts them. */
  ghost predicate Framed(g: Grid, version: int)
  {
    var size, centers := 4 * version + 17, Centers(version);
    && Shows(g, 0, 0, TOP_LEFT) && Shows(g, size - 8, 0, TOP_RIGHT) && Shows(g, 0, size - 8, BOTTOM_LEFT)
    && (forall k :: 8 <= k < size - 8 ==> Dark(g, k, 6) == (k % 2 == 0) && Dark(g, 6, k) == (k % 2 == 0))
    && (forall i, j :: HasAlignment(centers, i, j) ==> Shows(g, centers[i] - 2, centers[j] - 2, ALIGNMENT))
    && Dark(g, 8, size - 8)
  }

  // ------------------------------------------------------------------
  // Format and version information
  // ------------------------------------------------------------------

  /** The modules of the format information, most significant bit first (figure 25). */
  function FormatCells(size: int): (cells: seq<Cell>)
    ensures |cells| == 15
  {
    [Cell(0, 8), Cell(1, 8), Cell(2, 8), Cell(3, 8), Cell(4, 8), Cell(5, 8), Cell(7, 8), Cell(8, 8),
     Cell(8, 7), Cell(8, 5), Cell(8, 4), Cell(8, 3), Cell(8, 2), Cell(8, 1), Cell(8, 0)]
  }

  function FormatCellsAgain(size: int): (cells: seq<Cell>)
    ensures |cells| == 15
  {
    [Cell(8, size - 1), Cell(8, size - 2), Cell(8, size - 3), Cell(8, size - 4), Cell(8, size - 5), Cell(8, size - 6),
     Cell(8, size - 7), Cell(size - 8, 8), Cell(size - 7, 8), Cell(size - 6, 8), Cell(size - 5, 8), Cell(size - 4, 8),
     Cell(size - 3, 8), Cell(size - 2, 8), Cell(size - 1, 8)]
  }

  /** The modules of the version information below the top right finder, most significant bit first (figure 27). */
  function VersionCells(size: int): (cells: seq<Cell>)
    ensures |cells| == 18
  {
    var a := size - 11;
    [Cell(a + 2, 5), Cell(a + 1, 5), Cell(a, 5), Cell(a + 2, 4), Cell(a + 1, 4), Cell(a, 4),
     Cell(a + 2, 3), Cell(a + 1, 3), Cell(a, 3), Cell(a + 2, 2), Cell(a + 1, 2), Cell(a, 2),
     Cell(a + 2, 1), Cell(a + 1, 1), Cell(a, 1), Cell(a + 2, 0), Cell(a + 1, 0), Cell(a, 0)]
  }

  /** The same, right of the bottom left finder. */
  function Mirrored(cells: seq<Cell>): (m: seq<Cell>)
    ensures |m| == |cells|
  {
    seq(|cells|, i requires 0 <= i < |cells| => Cell(cells[i].y, cells[i].x))
  }

  /** The modules at some cells, in order. */
  function At(g: Grid, cells: seq<Cell>): (bits: seq<bool>)
    ensures |bits| == |cells|
  {
    seq(|cells|, i requires 0 <= i < |cells| => Dark(g, cells[i].x, cells[i].y))
  }

  /** Five data bits and ten check bits, a multiple of 0x537, XORed with 0x5412 (section 7.9.1). */
  ghost predicate IsFormatWord(word: seq<bool>, data: nat)
  {
    && |word| == 15
    && Xor(word, BitsOf(0x5412, 15))[..5] == BitsOf(data, 5)
    && exists q: seq<bool> ::
         |q| == 10 && Times(BitsOf(0x537, 11), q) == Zeros(6) + Xor(word, BitsOf(0x5412, 15))
  }

  /** Six data bits and twelve check bits, a multiple of 0x1F25 (section 7.10). */
  ghost predicate IsVersionWord(word: seq<bool>, version: nat)
  {
    && |word| == 18
    && word[..6] == BitsOf(version, 6)
    && exists q: seq<bool> :: |q| == 12 && Times(BitsOf(0x1f25, 13), q) == Zeros(7) + word
  }

  /** The two bits of the error correction level (table 12). */
  function LevelOf(bits: nat): Ecc
  {
    match bits
    case 0 => MEDIUM
    case 1 => LOW
    case 2 => HIGH
    case _ => QUARTILE
  }

  // ------------------------------------------------------------------
  // Data modules
  // ------------------------------------------------------------------

  /** Modules that carry no data. */
  ghost predicate Reserved(version: int, x: int, y: int)
  {
    var size, centers := 4 * version + 17, Centers(version);
    || (x <= 8 && y <= 8) || (x >= size - 8 && y <= 8) || (x <= 8 && y >= size - 8)
    || x == 6 || y == 6
    || (version >= 7 && size - 11 <= x && y <= 5) || (version >= 7 && size - 11 <= y && x <= 5)
    || exists i, j :: HasAlignment(centers, i, j) && centers[i] - 2 <= x <= centers[i] + 2
                      && centers[j] - 2 <= y <= centers[j] + 2
  }

  /** The condition in row i and column j under which a mask inverts a module (table 10). */
  predicate MaskCondition(mask: int, i: int, j: int)
  {
    match mask
    case 0 => (i + j) % 2 == 0
    case 1 => i % 2 == 0
    case 2 => j % 3 == 0
    case 3 => (i + j) % 3 == 0
    case 4 => (i / 2 + j / 3) % 2 == 0
    case 5 => i * j % 6 == 0
    case 6 => i * j % 6 < 3
    case _ => ((i + j) % 2 + i * j % 3) % 2 == 0
  }

  /** The k-th module of the n-th two-module column from the right; columns go up and down in turn, the first one up. */
  function ColumnCell(size: int, n: int, k: int): Cell
  {
    var right := if size - 1 - 2 * n > 6 then size - 1 - 2 * n else size - 2 - 2 * n;
    Cell(if k % 2 == 0 then right else right - 1, if n % 2 == 0 then size - 1 - k / 2 else k / 2)
  }

  /** The data modules in order, from column n on (section 7.7.3). */
  function ColumnsFrom(size: nat, n: nat): seq<Cell>
    decreases size - 2 * n
  {
    if 2 * n + 1 >= size then []
    else seq(2 * size, k => ColumnCell(size, n, k)) + ColumnsFrom(size, n + 1)
  }

  /** The bits at the data modules of a path, inverted where the mask says. */
  ghost function DataBits(path: seq<Cell>, g: Grid, version: int, mask: int): seq<bool>
  {
    if path == [] then []
    else
      var c := path[|path| - 1];
      DataBits(path[..|path| - 1], g, version, mask)
      + if Reserved(version, c.x, c.y) then [] else [Dark(g, c.x, c.y) != MaskCondition(mask, c.y, c.x)]
  }

  // ------------------------------------------------------------------
  // Capacities
  // ------------------------------------------------------------------

  /** All codewords, data codewords for L, M, Q and H, and numbers of blocks for them (tables 7 and 9). */
  datatype Row = Row(total: nat, l: nat, m: nat, q: nat, h: nat, lBlocks: nat, mBlocks: nat, qBlocks: nat, hBlocks: nat)

  function Table9(version: int): Row
  {
    match version
    case 1 => Row(26, 19, 16, 13, 9, 1, 1, 1, 1)
    case 2 => Row(44, 34, 28, 22, 16, 1, 1, 1, 1)
    case 3 => Row(70, 55, 44, 34, 26, 1, 1, 2, 2)
    case 4 => Row(100, 80, 64, 48, 36, 1, 2, 2, 4)
    case 5 => Row(134, 108, 86, 62, 46, 1, 2, 4, 4)
    case 6 => Row(172, 136, 108, 76, 60, 2, 4, 4, 4)
    case 7 => Row(196, 156, 124, 88, 66, 2, 4, 6, 5)
    case 8 => Row(242, 194, 154, 110, 86, 2, 4, 6, 6)
    case 9 => Row(292, 232, 182, 132, 100, 2, 5, 8, 8)
    case 10 => Row(346, 274, 216, 154, 122, 4, 5, 8, 8)
    case 11 => Row(404, 324, 254, 180, 140, 4, 5, 8, 11)
    case 12 => Row(466, 370, 290, 206, 158, 4, 8, 10, 11)
    case 13 => Row(532, 428, 334, 244, 180, 4, 9, 12, 16)
    case 14 => Row(581, 461, 365, 261, 197, 4, 9, 16, 16)
    case 15 => Row(655, 523, 415, 295, 223, 6, 10, 12, 18)
    case 16 => Row(733, 589, 453, 325, 253, 6, 10, 17, 16)
    case 17 => Row(815, 647, 507, 367, 283, 6, 11, 16, 19)
    case 18 => Row(901, 721, 563, 397, 313, 6, 13, 18, 21)
    case 19 => Row(991, 795, 627, 445, 341, 7, 14, 21, 25)
    case 20 => Row(1085, 861, 669, 485, 385, 8, 16, 20, 25)
    case 21 => Row(1156, 932, 714, 512, 406, 8, 17, 23, 25)
    case 22 => Row(1258, 1006, 782, 568, 442, 9, 17, 23, 34)
    case 23 => Row(1364, 1094, 860, 614, 464, 9, 18, 25, 30)
    case 24 => Row(1474, 1174, 914, 664, 514, 10, 20, 27, 32)
    case 25 => Row(1588, 1276, 1000, 718, 538, 12, 21, 29, 35)
    case 26 => Row(1706, 1370, 1062, 754, 596, 12, 23, 34, 37)
    case 27 => Row(1828, 1468, 1128, 808, 628, 12, 25, 34, 40)
    case 28 => Row(1921, 1531, 1193, 871, 661, 13, 26, 35, 42)
    case 29 => Row(2051, 1631, 1267, 911, 701, 14, 28, 38, 45)
    case 30 => Row(2185, 1735, 1373, 985, 745, 15, 29, 40, 48)
    case 31 => Row(2323, 1843, 1455, 1033, 793, 16, 31, 43, 51)
    case 32 => Row(2465, 1955, 1541, 1115, 845, 17, 33, 45, 54)
    case 33 => Row(2611, 2071, 1631, 1171, 901, 18, 35, 48, 57)
    case 34 => Row(2761, 2191, 1725, 1231, 961, 19, 37, 51, 60)
    case 35 => Row(2876, 2306, 1812, 1286, 986, 19, 38, 53, 63)
    case 36 => Row(3034, 2434, 1914, 1354, 1054, 20, 40, 56, 66)
    case 37 => Row(3196, 2566, 1992, 1426, 1096, 21, 43, 59, 70)
    case 38 => Row(3362, 2702, 2102, 1502, 1142, 22, 45, 62, 74)
    case 39 => Row(3532, 2812, 2216, 1582, 1222, 24, 47, 65, 77)
    case _ => Row(3706, 2956, 2334, 1666, 1276, 25, 49, 68, 81)
  }

  function DataCodewords(version: int, ecl: Ecc): nat
  {
    match ecl
    case LOW => Table9(version).l
    case MEDIUM => Table9(version).m
    case QUARTILE => Table9(version).q
    case HIGH => Table9(version).h
  }

  function Blocks(version: int, ecl: Ecc): nat
  {
    match ecl
    case LOW => Table9(version).lBlocks
    case MEDIUM => Table9(version).mBlocks
    case QUARTILE => Table9(version).qBlocks
    case HIGH => Table9(version).hBlocks
  }

  // ------------------------------------------------------------------
  // Blocks
  // ------------------------------------------------------------------

  /** How total codewords with `data` data codewords fall into n blocks; the longer blocks come last (section 7.5.1). */
  datatype Layout = Layout(n: nat, data: nat, total: nat) {

    function DataLen(j: nat): nat
      requires n >= 1
    {
      data / n + if j < n - data % n then 0 else 1
    }

    function EccLen(): nat
      requires n >= 1
    {
      if data <= total then (total - data) / n else 0
    }

    /** The place in the stream of the i-th data codeword of block j (section 7.6). */
    function DataAt(i: nat, j: nat): int
      requires n >= 1
    {
      if i < data / n then i * n + j else i * n + j - (n - data % n)
    }

    /** The place of its i-th error correction codeword. */
    function EccAt(i: nat, j: nat): int
    {
      data + i * n + j
    }
  }

  /** The codeword at some place; zeros where there is none. */
  function CodewordAt(stream: seq<byte>, k: int): byte
  {
    if 0 <= k < |stream| then stream[k] else Zeros(8)
  }

  function BlockOf(stream: seq<byte>, l: Layout, j: nat): seq<byte>
    requires l.n >= 1
  {
    seq(l.DataLen(j), i requires i >= 0 => CodewordAt(stream, l.DataAt(i, j)))
  }

  function EccOf(stream: seq<byte>, l: Layout, j: nat): seq<byte>
    requires l.n >= 1
  {
    seq(l.EccLen(), i requires i >= 0 => CodewordAt(stream, l.EccAt(i, j)))
  }

  /** The data of the first m blocks. */
  function DataOf(stream: seq<byte>, l: Layout, m: nat): seq<byte>
    requires l.n >= 1
  {
    if m == 0 then [] else DataOf(stream, l, m - 1) + BlockOf(stream, l, m - 1)
  }
}
