/**
 Splitting data into blocks, appending error correction and interleaving
 (sections 7.5 and 7.6 of ISO/IEC 18004:2015).

 Blocks come in two lengths. Every block is a column of a table whose rows are
 written one after the other; the short blocks have a gap in row `ShortData`.
 `Position` locates a codeword of a block in the interleaved stream and is proved
 to be a bijection; reading the stream back through it returns the data.
 */
module Interleave {
  import opened Wrappers
  import opened Bits
  import opened Gf256
  import opened ReedSolomon

  /** The table entries for one version and error correction level. */
  datatype Params = Params(numBlocks: nat, eccLen: nat, rawCodewords: nat) {

    ghost predicate Valid()
    {
      && 1 <= numBlocks
      && 1 <= eccLen <= 255
      && numBlocks * eccLen <= rawCodewords
    }

    function NumShort(): (n: nat)
      requires Valid()
      ensures 1 <= n <= numBlocks
    {
      numBlocks - rawCodewords % numBlocks
    }

    function ShortLen(): nat
      requires Valid()
    {
      rawCodewords / numBlocks
    }

    /** Number of data codewords in a short block. */
    function ShortData(): nat
      requires Valid()
    {
      ShortLenCoversEcc();
      ShortLen() - eccLen
    }

    lemma EccLenInRange()
      requires Valid()
      ensures 1 <= eccLen <= 255
    {}

    lemma ShortLenCoversEcc()
      requires Valid()
      ensures eccLen <= ShortLen()
    {
      var q, r := rawCodewords / numBlocks, rawCodewords % numBlocks;
      assert rawCodewords == q * numBlocks + r;
      if q < eccLen {
        assert q * numBlocks <= (eccLen - 1) * numBlocks;
      }
    }

    function DataCount(): nat
      requires Valid()
    {
      rawCodewords - numBlocks * eccLen
    }

    /** Number of data codewords in block j. */
    function DataLen(j: nat): nat
      requires Valid()
    {
      ShortData() + if j < NumShort() then 0 else 1
    }

    /** Where the data of block j starts. */
    function DataStart(j: nat): nat
      requires Valid()
    {
      if j == 0 then 0 else DataStart(j - 1) + DataLen(j - 1)
    }

    /** Row i of the table has a gap at block j. */
    predicate Gap(i: nat, j: nat)
      requires Valid()
    {
      i == ShortData() && j < NumShort()
    }

    function RowLen(i: nat): nat
      requires Valid()
    {
      if i == ShortData() then numBlocks - NumShort() else numBlocks
    }

    /** Where row i starts in the interleaved stream. */
    function RowStart(i: nat): nat
      requires Valid()
    {
      if i == 0 then 0 else RowStart(i - 1) + RowLen(i - 1)
    }

    /** Index in the stream of row i of block j. */
    function Position(i: nat, j: nat): nat
      requires Valid() && j < numBlocks && !Gap(i, j)
    {
      RowStart(i) + if i == ShortData() then j - NumShort() else j
    }
  }

  // ------------------------------------------------------------------
  // The table
  // ------------------------------------------------------------------

  lemma {:induction false} DataStartClosed(p: Params, j: nat)
    requires p.Valid() && j <= p.numBlocks
    ensures p.DataStart(j) == j * p.ShortData() + if j < p.NumShort() then 0 else j - p.NumShort()
  {
    if j > 0 {
      DataStartClosed(p, j - 1);
      assert j * p.ShortData() == (j - 1) * p.ShortData() + p.ShortData();
    }
  }

  lemma {:induction false} RowStartClosed(p: Params, i: nat)
    requires p.Valid()
    ensures p.RowStart(i) == i * p.numBlocks - if i <= p.ShortData() then 0 else p.NumShort()
  {
    if i > 0 {
      RowStartClosed(p, i - 1);
      assert i * p.numBlocks == (i - 1) * p.numBlocks + p.numBlocks;
    }
  }

  /** The blocks take exactly all data, and the rows exactly all codewords. */
  lemma Totals(p: Params)
    requires p.Valid()
    ensures p.DataStart(p.numBlocks) == p.DataCount()
    ensures p.RowStart(p.ShortLen() + 1) == p.rawCodewords
  {
    hide Params.DataStart, Params.RowStart;
    DataStartClosed(p, p.numBlocks);
    RowStartClosed(p, p.ShortLen() + 1);
    TotalsArithmetic(p.numBlocks, p.ShortLen(), p.rawCodewords % p.numBlocks, p.eccLen, p.rawCodewords);
  }

  lemma TotalsArithmetic(n: nat, q: nat, r: nat, e: nat, raw: nat)
    requires raw == q * n + r
    ensures n * (q - e) + r == raw - n * e
    ensures (q + 1) * n - (n - r) == raw
  {}

  lemma {:induction false} RowStartMonotone(p: Params, i: nat, i': nat)
    requires p.Valid() && i <= i'
    ensures p.RowStart(i) <= p.RowStart(i')
  {
    if i < i' {
      RowStartMonotone(p, i, i' - 1);
    }
  }

  lemma {:induction false} DataStartMonotone(p: Params, j: nat, j': nat)
    requires p.Valid() && j <= j'
    ensures p.DataStart(j) <= p.DataStart(j')
  {
    if j < j' {
      DataStartMonotone(p, j, j' - 1);
    }
  }

  /** A codeword of the table lies in its own row of the stream. */
  lemma PositionInRow(p: Params, i: nat, j: nat)
    requires p.Valid() && j < p.numBlocks && i <= p.ShortLen() && !p.Gap(i, j)
    ensures p.RowStart(i) <= p.Position(i, j) < p.RowStart(i + 1) <= p.rawCodewords
  {
    RowStartMonotone(p, i + 1, p.ShortLen() + 1);
    Totals(p);
  }

  /** Position is injective ... */
  lemma PositionInjective(p: Params, i: nat, j: nat, i': nat, j': nat)
    requires p.Valid() && j < p.numBlocks && j' < p.numBlocks
    requires i <= p.ShortLen() && i' <= p.ShortLen() && !p.Gap(i, j) && !p.Gap(i', j')
    requires p.Position(i, j) == p.Position(i', j')
    ensures i == i' && j == j'
  {
    PositionInRow(p, i, j);
    PositionInRow(p, i', j');
    if i < i' {
      RowStartMonotone(p, i + 1, i');
    } else if i' < i {
      RowStartMonotone(p, i' + 1, i);
    }
  }

  /** ... and onto the stream. */
  lemma PositionOnto(p: Params, k: nat) returns (i: nat, j: nat)
    requires p.Valid() && k < p.rawCodewords
    ensures i <= p.ShortLen() && j < p.numBlocks && !p.Gap(i, j)
    ensures p.Position(i, j) == k
  {
    Totals(p);
    i := p.ShortLen();
    while p.RowStart(i) > k
      invariant i <= p.ShortLen() && k < p.RowStart(i + 1)
      decreases i
    {
      i := i - 1;
    }
    j := k - p.RowStart(i) + if i == p.ShortData() then p.NumShort() else 0;
  }

  // ------------------------------------------------------------------
  // Specification
  // ------------------------------------------------------------------

  function BlockData(p: Params, data: seq<byte>, j: nat): (d: seq<byte>)
    requires p.Valid() && |data| == p.DataCount() && j < p.numBlocks
    ensures |d| == p.DataLen(j)
  {
    DataStartMonotone(p, j + 1, p.numBlocks);
    Totals(p);
    data[p.DataStart(j)..p.DataStart(j + 1)]
  }

  function BlockEcc(p: Params, data: seq<byte>, j: nat): (e: seq<byte>)
    requires p.Valid() && |data| == p.DataCount() && j < p.numBlocks
    ensures |e| == p.eccLen
  {
    Remainder(BlockData(p, data, j), Divisor(p.eccLen))
  }

  /** The padded column of block j: its data, the gap if it is short, its error correction. */
  function Column(p: Params, data: seq<byte>, j: nat): (c: seq<byte>)
    requires p.Valid() && |data| == p.DataCount() && j < p.numBlocks
    ensures |c| == p.ShortLen() + 1
  {
    BlockData(p, data, j) + (if j < p.NumShort() then [ZERO] else []) + BlockEcc(p, data, j)
  }

  ghost predicate Interleaved(p: Params, data: seq<byte>, stream: seq<byte>)
    requires p.Valid() && |data| == p.DataCount()
  {
    && |stream| == p.rawCodewords
    && forall i: nat, j: nat :: i <= p.ShortLen() && j < p.numBlocks && !p.Gap(i, j) ==>
         Holds(p, data, stream, i, j)
  }

  ghost predicate Holds(p: Params, data: seq<byte>, stream: seq<byte>, i: nat, j: nat)
    requires p.Valid() && |data| == p.DataCount()
    requires i <= p.ShortLen() && j < p.numBlocks && !p.Gap(i, j)
  {
    p.Position(i, j) < |stream| && stream[p.Position(i, j)] == Column(p, data, j)[i]
  }

  /** The data codewords of block j, read from the stream. */
  function ReadBlock(p: Params, stream: seq<byte>, j: nat): (d: seq<byte>)
    requires p.Valid() && |stream| == p.rawCodewords && j < p.numBlocks
    ensures |d| == p.DataLen(j)
  {
    seq(p.DataLen(j), i requires 0 <= i < p.DataLen(j) =>
      assert p.Position(i, j) < |stream| by { PositionInRow(p, i, j); }
      stream[p.Position(i, j)])
  }

  /** The error correction codewords of block j, read from the stream. */
  function ReadEcc(p: Params, stream: seq<byte>, j: nat): (e: seq<byte>)
    requires p.Valid() && |stream| == p.rawCodewords && j < p.numBlocks
    ensures |e| == p.eccLen
  {
    seq(p.eccLen, i requires 0 <= i < p.eccLen =>
      assert p.Position(p.ShortData() + 1 + i, j) < |stream| by { PositionInRow(p, p.ShortData() + 1 + i, j); }
      stream[p.Position(p.ShortData() + 1 + i, j)])
  }

  /** De-interleaving: the data of the first n blocks. */
  function ReadBlocks(p: Params, stream: seq<byte>, n: nat): seq<byte>
    requires p.Valid() && |stream| == p.rawCodewords && n <= p.numBlocks
  {
    if n == 0 then [] else ReadBlocks(p, stream, n - 1) + ReadBlock(p, stream, n - 1)
  }

  function Deinterleave(p: Params, stream: seq<byte>): seq<byte>
    requires p.Valid() && |stream| == p.rawCodewords
  {
    ReadBlocks(p, stream, p.numBlocks)
  }

  // ------------------------------------------------------------------
  // The loops
  // ------------------------------------------------------------------

  method AddEccAndInterleave(p: Params, data: seq<byte>) returns (r: Result<seq<byte>, RangeError>)
    requires p.Valid()
    ensures r.Failure? <==> |data| != p.DataCount()
    ensures r.Success? ==> Interleaved(p, data, r.value)
  {
    if |data| != p.DataCount() {
      return Failure(RangeError);
    }
    var numShortBlocks := p.numBlocks - p.rawCodewords % p.numBlocks;
    var shortBlockLen := p.rawCodewords / p.numBlocks;
    var blocks := SplitIntoColumns(p, data, numShortBlocks, shortBlockLen);
    var stream := WriteRows(p, data, blocks, numShortBlocks, shortBlockLen);
    r := Success(stream);
  }

  method SplitIntoColumns(p: Params, data: seq<byte>, numShortBlocks: nat, shortBlockLen: nat)
    returns (blocks: seq<seq<byte>>)
    requires p.Valid() && |data| == p.DataCount()
    requires numShortBlocks == p.NumShort() && shortBlockLen == p.ShortLen()
    ensures |blocks| == p.numBlocks
    ensures forall j :: 0 <= j < p.numBlocks ==> blocks[j] == Column(p, data, j)
  {
    hide Remainder, Divisor, Params.Valid, Params.DataCount, Params.NumShort, Params.ShortLen;
    p.EccLenInRange();
    p.ShortLenCoversEcc();
    Totals(p);
    blocks := [];
    var divisor := ReedSolomonComputeDivisor(p.eccLen);
    var rsDiv := divisor.value;
    var k := 0;
    for i := 0 to p.numBlocks
      invariant |blocks| == i
      invariant k == p.DataStart(i)
      invariant forall j :: 0 <= j < i ==> blocks[j] == Column(p, data, j)
    {
      DataStartMonotone(p, i + 1, p.numBlocks);
      var dat := data[k..k + shortBlockLen - p.eccLen + (if i < numShortBlocks then 0 else 1)];
      k := k + |dat|;
      assert dat == BlockData(p, data, i);
      var ecc := ReedSolomonComputeRemainder(dat, rsDiv);
      if i < numShortBlocks {
        dat := dat + [ZERO];
      }
      assert dat + ecc == Column(p, data, i);
      blocks := blocks + [dat + ecc];
    }
  }

  method WriteRows(p: Params, ghost data: seq<byte>, blocks: seq<seq<byte>>, numShortBlocks: nat, shortBlockLen: nat)
    returns (result: seq<byte>)
    requires p.Valid() && |data| == p.DataCount()
    requires numShortBlocks == p.NumShort() && shortBlockLen == p.ShortLen()
    requires |blocks| == p.numBlocks
    requires forall j :: 0 <= j < p.numBlocks ==> blocks[j] == Column(p, data, j)
    ensures Interleaved(p, data, result)
  {
    hide Column, Params.NumShort, Params.ShortLen;
    p.ShortLenCoversEcc();
    result := [];
    for i := 0 to |blocks[0]|
      invariant |result| == p.RowStart(i)
      invariant forall i': nat, j: nat :: i' < i && j < p.numBlocks && !p.Gap(i', j) ==>
                  Holds(p, data, result, i', j)
    {
      ghost var rows := result;
      for j := 0 to |blocks|
        invariant rows <= result
        invariant |result| == p.RowStart(i) +
                    if i != p.ShortData() then j else if j <= p.NumShort() then 0 else j - p.NumShort()
        invariant forall j': nat :: j' < j && !p.Gap(i, j') ==> Holds(p, data, result, i, j')
      {
        if i != shortBlockLen - p.eccLen || j >= numShortBlocks {
          assert |result| == p.Position(i, j);
          result := result + [blocks[j][i]];
        }
      }
    }
    Totals(p);
  }

  // ------------------------------------------------------------------
  // Round trip
  // ------------------------------------------------------------------

  /** Each block reads back as its data followed by its own remainder. */
  lemma BlocksReadBack(p: Params, data: seq<byte>, stream: seq<byte>, j: nat)
    requires p.Valid() && |data| == p.DataCount() && j < p.numBlocks
    requires Interleaved(p, data, stream)
    ensures ReadBlock(p, stream, j) == BlockData(p, data, j)
    ensures ReadEcc(p, stream, j) == BlockEcc(p, data, j)
  {
    var d := p.DataLen(j);
    forall i | 0 <= i < d
      ensures ReadBlock(p, stream, j)[i] == BlockData(p, data, j)[i]
    {
      assert !p.Gap(i, j) && Holds(p, data, stream, i, j);
    }
    forall i | 0 <= i < p.eccLen
      ensures ReadEcc(p, stream, j)[i] == BlockEcc(p, data, j)[i]
    {
      var row := p.ShortData() + 1 + i;
      assert !p.Gap(row, j) && Holds(p, data, stream, row, j);
    }
  }

  /** Every block of the stream is a Reed-Solomon codeword. */
  lemma BlocksAreCodewords(p: Params, data: seq<byte>, stream: seq<byte>, j: nat, root: nat)
    requires p.Valid() && |data| == p.DataCount() && j < p.numBlocks && root < p.eccLen
    requires Interleaved(p, data, stream)
    ensures Eval(ReadBlock(p, stream, j) + ReadEcc(p, stream, j), Pow(TWO, root)) == ZERO
  {
    hide *;
    BlocksReadBack(p, data, stream, j);
    assert BlockEcc(p, data, j) == Remainder(BlockData(p, data, j), Divisor(p.eccLen)) by { EccDefinition(p, data, j); }
    Codeword(BlockData(p, data, j), p.eccLen, root);
  }

  lemma EccDefinition(p: Params, data: seq<byte>, j: nat)
    requires p.Valid() && |data| == p.DataCount() && j < p.numBlocks
    ensures BlockEcc(p, data, j) == Remainder(BlockData(p, data, j), Divisor(p.eccLen))
  {}

  /** De-interleaving undoes interleaving. */
  lemma DeinterleaveInterleave(p: Params, data: seq<byte>, stream: seq<byte>)
    requires p.Valid() && |data| == p.DataCount()
    requires Interleaved(p, data, stream)
    ensures Deinterleave(p, stream) == data
  {
    ReadBlocksPrefix(p, data, stream, p.numBlocks);
    Totals(p);
  }

  lemma {:induction false} ReadBlocksPrefix(p: Params, data: seq<byte>, stream: seq<byte>, n: nat)
    requires p.Valid() && |data| == p.DataCount() && n <= p.numBlocks
    requires Interleaved(p, data, stream)
    ensures p.DataStart(n) <= |data| && ReadBlocks(p, stream, n) == data[..p.DataStart(n)]
  {
    DataStartMonotone(p, n, p.numBlocks);
    Totals(p);
    if n > 0 {
      ReadBlocksPrefix(p, data, stream, n - 1);
      BlocksReadBack(p, data, stream, n - 1);
    }
  }

  /** The stream is determined by the data. */
  lemma InterleavedUnique(p: Params, data: seq<byte>, s: seq<byte>, t: seq<byte>)
    requires p.Valid() && |data| == p.DataCount()
    requires Interleaved(p, data, s) && Interleaved(p, data, t)
    ensures s == t
  {
    forall k | 0 <= k < p.rawCodewords
      ensures s[k] == t[k]
    {
      var i, j := PositionOnto(p, k);
      assert Holds(p, data, s, i, j) && Holds(p, data, t, i, j);
    }
  }
}
