/**
 Function modules of a QR symbol: timing, finder and alignment patterns, format and
 version information (sections 6.3, 7.9 and 7.10 of ISO/IEC 18004:2015), stated cell
 by cell.
 */
module FunctionPatterns {
  import opened Bits
  import opened BitPoly
  import opened Numbers
  import opened Zigzag
  import opened QrTables

  function Size(version: int): (n: nat)
    requires VersionInRange(version)
    ensures n >= 21 && n % 2 == 1
  {
    version * 4 + 17
  }

  /** Chebyshev distance. */
  function Dist(dx: int, dy: int): nat
  {
    if Abs(dx) >= Abs(dy) then Abs(dx) else Abs(dy)
  }

  // ------------------------------------------------------------------
  // Patterns
  // ------------------------------------------------------------------

  predicate IsTiming(x: int, y: int) { x == 6 || y == 6 }

  predicate TimingDark(x: int, y: int)
  {
    if x == 6 then y % 2 == 0 else x % 2 == 0
  }

  /** The 9*9 area of a finder pattern with its separator. */
  predicate InFinder(cx: int, cy: int, x: int, y: int)
  {
    Dist(x - cx, y - cy) <= 4
  }

  predicate FinderDark(cx: int, cy: int, x: int, y: int)
  {
    Dist(x - cx, y - cy) != 2 && Dist(x - cx, y - cy) != 4
  }

  predicate IsFinder(size: int, x: int, y: int)
  {
    InFinder(3, 3, x, y) || InFinder(size - 4, 3, x, y) || InFinder(3, size - 4, x, y)
  }

  predicate FinderColor(size: int, x: int, y: int)
  {
    if InFinder(3, size - 4, x, y) then FinderDark(3, size - 4, x, y)
    else if InFinder(size - 4, 3, x, y) then FinderDark(size - 4, 3, x, y)
    else FinderDark(3, 3, x, y)
  }

  function NumAlign(version: int): int
  {
    version / 7 + 2
  }

  function AlignStep(version: int): int
    requires version >= 0
  {
    (version * 8 + NumAlign(version) * 3 + 5) / (NumAlign(version) * 4 - 4) * 2
  }

  /** The last m centers, ascending, for a step. */
  function Centers(size: int, step: int, m: nat): (c: seq<int>)
    ensures |c| == m
  {
    if m == 0 then [] else [size - 7 - (m - 1) * step] + Centers(size, step, m - 1)
  }

  function AlignPositions(version: int): seq<int>
    requires VersionInRange(version)
  {
    if version == 1 then [] else [6] + Centers(Size(version), AlignStep(version), NumAlign(version) - 1)
  }

  /** Alignment patterns are not drawn on the three finder corners. */
  predicate OnFinderCorner(i: int, j: int, numAlign: int)
  {
    (i == 0 && j == 0) || (i == 0 && j == numAlign - 1) || (i == numAlign - 1 && j == 0)
  }

  predicate Covers(cx: int, cy: int, x: int, y: int)
  {
    Dist(x - cx, y - cy) <= 2
  }

  predicate AlignmentAt(pos: seq<int>, i: int, j: int, x: int, y: int)
  {
    && 0 <= i < |pos| && 0 <= j < |pos|
    && !OnFinderCorner(i, j, |pos|)
    && Covers(pos[i], pos[j], x, y)
  }

  predicate IsAlignment(pos: seq<int>, x: int, y: int)
  {
    exists i, j :: 0 <= i < |pos| && 0 <= j < |pos| && AlignmentAt(pos, i, j, x, y)
  }

  predicate AlignmentDark(pos: seq<int>, x: int, y: int)
  {
    exists i, j :: 0 <= i < |pos| && 0 <= j < |pos| && AlignmentAt(pos, i, j, x, y)
                   && Dist(x - pos[i], y - pos[j]) != 1
  }

  // ------------------------------------------------------------------
  // Format and version information
  // ------------------------------------------------------------------

  /** 0x537, 0x5412 and 0x1F25. */
  const FORMAT_GENERATOR: seq<bool> := BitsOf(0x537, 11)
  const FORMAT_MASK: seq<bool> := BitsOf(0x5412, 15)
  const VERSION_GENERATOR: seq<bool> := BitsOf(0x1f25, 13)

  /** The BCH register after n steps. */
  function Bch(register: seq<bool>, gen: seq<bool>, n: nat): (r: seq<bool>)
    requires |register| >= 1 && |gen| == |register| + 1
    ensures |r| == |register|
  {
    if n == 0 then register else ShiftReduce(Bch(register, gen, n - 1), gen)
  }

  predicate MaskInRange(mask: int) { 0 <= mask <= 7 }

  /** Level and mask: (formatBits << 3) | mask. */
  function FormatData(ecl: Ecc, mask: int): (d: seq<bool>)
    requires MaskInRange(mask)
    ensures |d| == 5
  {
    BitsOf(ecl.FormatBits() * 8 + mask, 5)
  }

  /** The fifteen format bits, most significant first. */
  function FormatBits(ecl: Ecc, mask: int): (b: seq<bool>)
    requires MaskInRange(mask)
    ensures |b| == 15
  {
    var data := FormatData(ecl, mask);
    Xor(data + Bch(Zeros(5) + data, FORMAT_GENERATOR, 10), FORMAT_MASK)
  }

  /** The eighteen version bits, most significant first. */
  function VersionBits(version: int): (b: seq<bool>)
    requires VersionInRange(version)
    ensures |b| == 18
  {
    var data := BitsOf(version, 6);
    data + Bch(Zeros(6) + data, VERSION_GENERATOR, 12)
  }

  /** getBit: the i-th bit counted from the least significant one. */
  predicate GetBit(bits: seq<bool>, i: int)
    requires 0 <= i < |bits|
  {
    bits[|bits| - 1 - i]
  }

  /** The index of the format bit a cell carries; -1 for the module that is always dark, -2 elsewhere. */
  function FormatIndex(size: int, x: int, y: int): (i: int)
    ensures -2 <= i < 15
  {
    if x == 8 && 0 <= y <= 5 then y
    else if x == 8 && y == 7 then 6
    else if x == 8 && y == 8 then 7
    else if x == 7 && y == 8 then 8
    else if y == 8 && 0 <= x <= 5 then 14 - x
    else if y == 8 && size - 8 <= x < size then size - 1 - x
    else if x == 8 && size - 7 <= y < size then y - (size - 15)
    else if x == 8 && y == size - 8 then -1
    else -2
  }

  predicate IsFormat(size: int, x: int, y: int) { FormatIndex(size, x, y) >= -1 }

  predicate FormatDark(size: int, bits: seq<bool>, x: int, y: int)
    requires |bits| == 15 && IsFormat(size, x, y)
  {
    FormatIndex(size, x, y) == -1 || GetBit(bits, FormatIndex(size, x, y))
  }

  /** The index of the version bit a cell carries, or -1. */
  function VersionIndex(size: int, x: int, y: int): (i: int)
    ensures -1 <= i < 18
  {
    if size - 11 <= x <= size - 9 && 0 <= y <= 5 then 3 * y + (x - (size - 11))
    else if size - 11 <= y <= size - 9 && 0 <= x <= 5 then 3 * x + (y - (size - 11))
    else -1
  }

  predicate IsVersion(version: int, x: int, y: int)
    requires VersionInRange(version)
  {
    version >= 7 && VersionIndex(Size(version), x, y) >= 0
  }

  // ------------------------------------------------------------------
  // All function modules
  // ------------------------------------------------------------------

  predicate IsFunctionModule(version: int, x: int, y: int)
    requires VersionInRange(version)
  {
    || IsVersion(version, x, y)
    || IsFormat(Size(version), x, y)
    || IsAlignment(AlignPositions(version), x, y)
    || IsFinder(Size(version), x, y)
    || IsTiming(x, y)
  }

  /** The color of a function module; later layers cover earlier ones. */
  predicate FunctionDark(version: int, ecl: Ecc, mask: int, x: int, y: int)
    requires VersionInRange(version) && MaskInRange(mask)
  {
    var size := Size(version);
    if IsVersion(version, x, y) then GetBit(VersionBits(version), VersionIndex(size, x, y))
    else if IsFormat(size, x, y) then FormatDark(size, FormatBits(ecl, mask), x, y)
    else if IsAlignment(AlignPositions(version), x, y) then AlignmentDark(AlignPositions(version), x, y)
    else if IsFinder(size, x, y) then FinderColor(size, x, y)
    else IsTiming(x, y) && TimingDark(x, y)
  }

  function FunctionGrid(version: int): (g: Grid)
    requires VersionInRange(version)
    ensures Square(g, Size(version))
    ensures forall x, y :: 0 <= x < Size(version) && 0 <= y < Size(version) ==>
              g[y][x] == IsFunctionModule(version, x, y)
  {
    seq(Size(version), y requires 0 <= y < Size(version) =>
      seq(Size(version), x requires 0 <= x < Size(version) => IsFunctionModule(version, x, y)))
  }

  // ------------------------------------------------------------------
  // Alignment positions
  // ------------------------------------------------------------------

  /** Neighbouring centers are far apart, and the first one is far from column 6. */
  lemma AlignSpacing(version: int)
    requires 2 <= version <= 40
    ensures AlignStep(version) >= 5
    ensures (NumAlign(version) - 2) * AlignStep(version) <= Size(version) - 18
  {
    match version / 7
    case 0 => StepBounds(version, 2, 4);
    case 1 => StepBounds(version, 3, 8);
    case 2 => StepBounds(version, 4, 12);
    case 3 => StepBounds(version, 5, 16);
    case 4 => StepBounds(version, 6, 20);
    case _ => StepBounds(version, 7, 24);
  }

  lemma StepBounds(v: int, n: int, d: int)
    requires v >= 2 && 7 * (n - 2) <= v && 2 <= n <= 7 && d == 4 * n - 4
    ensures var step := (v * 8 + n * 3 + 5) / d * 2;
      step >= 5 && (n - 2) * step <= v * 4 - 1
  {
    var q := (v * 8 + n * 3 + 5) / d;
    assert d * q <= v * 8 + n * 3 + 5 < d * q + d;
    match n
    case 2 => {}
    case 3 => {}
    case 4 => {}
    case 5 => {}
    case 6 => {}
    case 7 => {}
  }

  lemma {:induction false} CenterAt(size: int, step: int, m: nat, k: nat)
    requires k < m
    ensures Centers(size, step, m)[k] == size - 7 - (m - 1 - k) * step
  {
    if k > 0 {
      CenterAt(size, step, m - 1, k - 1);
    }
  }

  ghost predicate WellSpaced(pos: seq<int>, size: int)
  {
    && (forall i :: 0 <= i < |pos| ==> 6 <= pos[i] <= size - 7)
    && (forall i, j :: 0 <= i < j < |pos| ==> pos[i] + 5 <= pos[j])
  }

  lemma AlignPositionsSpaced(version: int)
    requires VersionInRange(version)
    ensures WellSpaced(AlignPositions(version), Size(version))
  {
    hide AlignStep, Centers;
    if version >= 2 {
      var size, step, m := Size(version), AlignStep(version), NumAlign(version) - 1;
      var pos := AlignPositions(version);
      AlignSpacing(version);
      forall i | 1 <= i <= m
        ensures 11 <= pos[i] <= size - 7
      {
        CenterAt(size, step, m, i - 1);
        StepsMonotone(m - i, m - 1, step);
      }
      forall i, j | 0 <= i < j <= m
        ensures pos[i] + 5 <= pos[j]
      {
        if i > 0 {
          CenterAt(size, step, m, i - 1);
          CenterAt(size, step, m, j - 1);
          StepsMonotone(m - j, m - i, step);
        }
      }
    }
  }

  lemma {:induction false} StepsMonotone(a: nat, b: nat, step: nat)
    requires a <= b
    ensures 0 <= a * step <= b * step
    ensures a < b ==> a * step + step <= b * step
  {
    if a < b {
      StepsMonotone(a, b - 1, step);
      assert b * step == (b - 1) * step + step;
    }
  }

  /** At most one alignment pattern covers a cell. */
  lemma AlignmentUnique(pos: seq<int>, size: int, i: int, j: int, i': int, j': int, x: int, y: int)
    requires WellSpaced(pos, size)
    requires AlignmentAt(pos, i, j, x, y) && AlignmentAt(pos, i', j', x, y)
    ensures i == i' && j == j'
  {}

  /** Cell (x, y) belongs to a pattern drawn before pattern (i, j) in row order. */
  predicate AlignedBefore(pos: seq<int>, i: int, j: int, x: int, y: int)
  {
    exists i', j' :: 0 <= i' < |pos| && 0 <= j' < |pos| && AlignmentAt(pos, i', j', x, y)
                     && (i' < i || (i' == i && j' < j))
  }

  lemma AlignedStep(pos: seq<int>, size: int, i: int, j: int, x: int, y: int)
    requires WellSpaced(pos, size) && 0 <= i < |pos| && 0 <= j < |pos|
    ensures AlignedBefore(pos, i, j + 1, x, y) <==> AlignedBefore(pos, i, j, x, y) || AlignmentAt(pos, i, j, x, y)
    ensures AlignmentAt(pos, i, j, x, y) ==> (AlignmentDark(pos, x, y) <==> Dist(x - pos[i], y - pos[j]) != 1)
  {
    if AlignmentAt(pos, i, j, x, y) && AlignmentDark(pos, x, y) {
      var i', j' :| 0 <= i' < |pos| && 0 <= j' < |pos| && AlignmentAt(pos, i', j', x, y)
                    && Dist(x - pos[i'], y - pos[j']) != 1;
      AlignmentUnique(pos, size, i, j, i', j', x, y);
    }
  }

  lemma AlignedRows(pos: seq<int>, i: int, x: int, y: int)
    ensures !AlignedBefore(pos, 0, 0, x, y)
    ensures AlignedBefore(pos, i, |pos|, x, y) <==> AlignedBefore(pos, i + 1, 0, x, y)
    ensures AlignedBefore(pos, |pos|, 0, x, y) <==> IsAlignment(pos, x, y)
  {}

  /** The two cells that carry version bit i. */
  lemma VersionIndexAt(size: int, x: int, y: int, i: int)
    requires size >= 21 && 0 <= i < 18
    ensures VersionIndex(size, x, y) == i <==>
              (x == size - 11 + i % 3 && y == i / 3) || (x == i / 3 && y == size - 11 + i % 3)
  {}

  // ------------------------------------------------------------------
  // The check bits
  // ------------------------------------------------------------------

  /** The register holds the remainder of its first contents times x^n. */
  lemma {:induction false} BchDivides(register: seq<bool>, gen: seq<bool>, n: nat) returns (q: seq<bool>)
    requires register != [] && |gen| == |register| + 1 && gen[0]
    ensures |q| == n && Divides(register + Zeros(n), gen, q, Bch(register, gen, n))
  {
    hide Divides, ShiftReduce;
    if n == 0 {
      q := [];
      DivideNothing(gen, register);
      assert register + Zeros(0) == register;
    } else {
      var before := BchDivides(register, gen, n - 1);
      var r := Bch(register, gen, n - 1);
      q := before + [r[0]];
      DivideShift(register + Zeros(n - 1), gen, before, r);
      assert register + Zeros(n) == register + Zeros(n - 1) + [false];
    }
  }

  lemma GeneratorsLead()
    ensures FORMAT_GENERATOR[0] && VERSION_GENERATOR[0]
  {
    LeadingBit(0x537, 10);
    LeadingBit(0x1f25, 12);
    assert Pow2(5) == 32;
    assert Pow2(10) == 1024;
  }

  /** A number of exactly len + 1 bits starts with a one. */
  lemma {:induction false} LeadingBit(val: nat, len: nat)
    requires Pow2(len) <= val < Pow2(len + 1)
    ensures BitsOf(val, len + 1)[0]
  {
    if len > 0 {
      LeadingBit(val / 2, len - 1);
    }
  }

  /** Unmasked, the format bits are the data followed by what makes them a multiple of 0x537. */
  lemma FormatWord(ecl: Ecc, mask: int) returns (q: seq<bool>)
    requires MaskInRange(mask)
    ensures var word := Xor(FormatBits(ecl, mask), BitsOf(0x5412, 15));
      && word[..5] == BitsOf(ecl.FormatBits() * 8 + mask, 5)
      && |q| == 10 && Times(BitsOf(0x537, 11), q) == Zeros(6) + word
  {
    hide Bch, BitsOf, Times, Divides;
    GeneratorsLead();
    var data := FormatData(ecl, mask);
    var register := Zeros(5) + data;
    q := BchDivides(register, FORMAT_GENERATOR, 10);
    var rem := Bch(register, FORMAT_GENERATOR, 10);
    RemainderCompletes(register + Zeros(10), FORMAT_GENERATOR, q, rem);
    assert Xor(register + Zeros(10), Pad(rem, 20)) == Zeros(5) + (data + rem);
    assert Xor(FormatBits(ecl, mask), FORMAT_MASK) == data + rem;
    assert [false] + (Zeros(5) + (data + rem)) == Zeros(6) + (data + rem);
  }

  /** The version bits are the version followed by what makes them a multiple of 0x1F25. */
  lemma VersionWord(version: int) returns (q: seq<bool>)
    requires VersionInRange(version)
    ensures VersionBits(version)[..6] == BitsOf(version, 6)
    ensures |q| == 12 && Times(BitsOf(0x1f25, 13), q) == Zeros(7) + VersionBits(version)
  {
    hide Bch, BitsOf, Times, Divides;
    GeneratorsLead();
    var data := BitsOf(version, 6);
    var register := Zeros(6) + data;
    q := BchDivides(register, VERSION_GENERATOR, 12);
    var rem := Bch(register, VERSION_GENERATOR, 12);
    RemainderCompletes(register + Zeros(12), VERSION_GENERATOR, q, rem);
    assert Xor(register + Zeros(12), Pad(rem, 24)) == Zeros(6) + (data + rem);
    assert [false] + (Zeros(6) + (data + rem)) == Zeros(7) + (data + rem);
  }
}
