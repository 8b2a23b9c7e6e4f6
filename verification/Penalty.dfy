/**
 The penalty score that ranks mask patterns (section 7.8.3 of ISO/IEC 18004:2015).

 The specification works on the run lengths of each row and column. The streaming
 loop of the generator, which only keeps the last seven run lengths, is proved to
 compute it and never to leave the range its assertions demand.
 */
module Penalty {
  import opened Zigzag
  import opened Numbers

  const PENALTY_N1: int := 3
  const PENALTY_N2: int := 3
  const PENALTY_N3: int := 40
  const PENALTY_N4: int := 10

  // ------------------------------------------------------------------
  // Run lengths
  // ------------------------------------------------------------------

  /** Run k of a run-length encoding is dark iff k is odd. */
  predicate RunDark(k: int) { k % 2 == 1 }

  /** Alternating run lengths of a line, starting with a possibly empty light run. */
  function Runs(line: seq<bool>): (runs: seq<nat>)
    ensures |runs| >= 1
  {
    if line == [] then [0]
    else
      var runs := Runs(line[..|line| - 1]);
      var k := |runs| - 1;
      if line[|line| - 1] == RunDark(k) then runs[k := runs[k] + 1] else runs + [1]
  }

  function Repeat(n: nat, dark: bool): seq<bool>
  {
    seq(n, _ => dark)
  }

  /** The line a run-length encoding stands for. */
  function Expand(runs: seq<nat>): seq<bool>
  {
    if runs == [] then []
    else Expand(runs[..|runs| - 1]) + Repeat(runs[|runs| - 1], RunDark(|runs| - 1))
  }

  lemma {:induction false} RunsExpand(line: seq<bool>)
    ensures Expand(Runs(line)) == line
  {
    hide Expand;
    if line == [] {
      ExpandEmpty();
    } else {
      var n := |line| - 1;
      RunsExpand(line[..n]);
      assert line[..n] + [line[n]] == line;
      var runs := Runs(line[..n]);
      if line[n] == RunDark(|runs| - 1) {
        ExpandLonger(runs);
      } else {
        ExpandNext(runs);
      }
    }
  }

  lemma ExpandEmpty()
    ensures Expand([0]) == []
  {}

  lemma ExpandLonger(runs: seq<nat>)
    requires |runs| >= 1
    ensures var k := |runs| - 1; Expand(runs[k := runs[k] + 1]) == Expand(runs) + [RunDark(k)]
  {
    var k := |runs| - 1;
    assert runs[k := runs[k] + 1][..k] == runs[..k];
    assert Repeat(runs[k] + 1, RunDark(k)) == Repeat(runs[k], RunDark(k)) + [RunDark(k)];
  }

  lemma ExpandNext(runs: seq<nat>)
    ensures Expand(runs + [1]) == Expand(runs) + [RunDark(|runs|)]
  {
    assert (runs + [1])[..|runs|] == runs;
    assert Repeat(1, RunDark(|runs|)) == [RunDark(|runs|)];
  }

  /** Runs is the run-length encoding: it expands to the line and no run but the first is empty. */
  lemma {:induction false} RunsNotEmpty(line: seq<bool>)
    ensures forall k :: 1 <= k < |Runs(line)| ==> Runs(line)[k] > 0
    ensures |Runs(line)| <= |line| + 1
  {
    if line != [] {
      RunsNotEmpty(line[..|line| - 1]);
    }
  }

  function Total(runs: seq<nat>): nat
  {
    if runs == [] then 0 else Total(runs[..|runs| - 1]) + runs[|runs| - 1]
  }

  lemma {:induction false} TotalExpand(runs: seq<nat>)
    ensures Total(runs) == |Expand(runs)|
  {
    if runs != [] {
      TotalExpand(runs[..|runs| - 1]);
    }
  }

  /** Light modules surround the symbol: the first light run is widened by the border. */
  function PadFirst(runs: seq<nat>, border: nat): (p: seq<nat>)
    ensures |p| == |runs|
  {
    if runs == [] then [] else runs[0 := runs[0] + border]
  }

  /** ... and so is the last light run, which may have to be added. */
  function PadLast(runs: seq<nat>, border: nat): seq<nat>
    requires |runs| >= 1
  {
    var k := |runs| - 1;
    if RunDark(k) then runs + [border] else runs[k := runs[k] + border]
  }

  function Padded(line: seq<bool>): seq<nat>
  {
    PadLast(PadFirst(Runs(line), |line|), |line|)
  }

  lemma {:induction false} ExpandPadFirst(runs: seq<nat>, border: nat)
    requires runs != []
    ensures Expand(PadFirst(runs, border)) == Repeat(border, false) + Expand(runs)
  {
    var n := |runs| - 1;
    if n == 0 {
      assert runs[..0] == [] && PadFirst(runs, border)[..0] == [];
      assert Repeat(runs[0] + border, false) == Repeat(border, false) + Repeat(runs[0], false);
    } else {
      ExpandPadFirst(runs[..n], border);
      assert PadFirst(runs, border)[..n] == PadFirst(runs[..n], border);
    }
  }

  lemma ExpandPadLast(runs: seq<nat>, border: nat)
    requires runs != []
    ensures Expand(PadLast(runs, border)) == Expand(runs) + Repeat(border, false)
  {
    var k := |runs| - 1;
    if RunDark(k) {
      assert (runs + [border])[..k + 1] == runs;
    } else {
      assert runs[k := runs[k] + border][..k] == runs[..k];
      assert Repeat(runs[k] + border, false) == Repeat(runs[k], false) + Repeat(border, false);
    }
  }

  /** The padded runs are those of the line between light borders of its own length. */
  lemma PaddedExpands(line: seq<bool>)
    ensures Expand(Padded(line)) == Repeat(|line|, false) + line + Repeat(|line|, false)
  {
    RunsExpand(line);
    hide Expand, Runs;
    ExpandPadFirst(Runs(line), |line|);
    ExpandPadLast(PadFirst(Runs(line), |line|), |line|);
  }

  // ------------------------------------------------------------------
  // Scores of a line
  // ------------------------------------------------------------------

  /** Points of one run: 3 for five modules of the same color, 1 for each more. */
  function RunPoints(len: nat): nat
  {
    if len >= 5 then 3 + (len - 5) else 0
  }

  function RunScore(runs: seq<nat>): nat
  {
    if runs == [] then 0 else RunScore(runs[..|runs| - 1]) + RunPoints(runs[|runs| - 1])
  }

  /** The last seven runs, latest first, missing ones as 0. */
  function History(runs: seq<nat>): (h: seq<nat>)
    ensures |h| == 7
  {
    seq(7, i requires 0 <= i < 7 => if i < |runs| then runs[|runs| - 1 - i] else 0)
  }

  /** 1:1:3:1:1 in the middle of a window of seven runs. */
  predicate Core(h: seq<nat>)
    requires |h| == 7
  {
    h[1] > 0 && h[2] == h[1] && h[3] == h[1] * 3 && h[4] == h[1] && h[5] == h[1]
  }

  /** Finder-like patterns in a window: one light side of at least 4 units, the other of at least 1. */
  function Patterns(h: seq<nat>): (n: nat)
    requires |h| == 7
    ensures n <= 2
  {
    (if Core(h) && h[0] >= h[1] * 4 && h[6] >= h[1] then 1 else 0) +
    (if Core(h) && h[6] >= h[1] * 4 && h[0] >= h[1] then 1 else 0)
  }

  /** Seven runs that look like a finder pattern with light sides of at least `before` and `after` units. */
  ghost predicate FinderLike(r: seq<nat>, before: nat, after: nat)
  {
    exists n: nat :: n > 0 && |r| == 7 && r[1..6] == [n, n, 3 * n, n, n] && r[0] >= before * n && r[6] >= after * n
  }

  /** A light run counts once for four light units before the pattern, and once for four after it. */
  lemma PatternsAre(runs: seq<nat>)
    requires |runs| >= 7
    ensures var r := runs[|runs| - 7..];
      Patterns(History(runs)) == (if FinderLike(r, 4, 1) then 1 else 0) + (if FinderLike(r, 1, 4) then 1 else 0)
  {
    var r, h := runs[|runs| - 7..], History(runs);
    Reversed(runs);
    if Core(h) {
      var n := h[1];
      assert r[1..6] == [n, n, 3 * n, n, n];
    }
    forall before: nat, after: nat | FinderLike(r, before, after)
      ensures Core(h) && h[6] >= before * h[1] && h[0] >= after * h[1]
    {
      CoreOf(r, h, before, after);
    }
  }

  lemma Reversed(runs: seq<nat>)
    requires |runs| >= 7
    ensures var r, h := runs[|runs| - 7..], History(runs);
      h == [r[6], r[5], r[4], r[3], r[2], r[1], r[0]]
  {}

  lemma CoreOf(r: seq<nat>, h: seq<nat>, before: nat, after: nat)
    requires |r| == 7 && h == [r[6], r[5], r[4], r[3], r[2], r[1], r[0]] && FinderLike(r, before, after)
    ensures Core(h) && h[6] >= before * h[1] && h[0] >= after * h[1]
  {
    var n: nat :| n > 0 && r[1..6] == [n, n, 3 * n, n, n] && r[0] >= before * n && r[6] >= after * n;
    var core := r[1..6];
    assert r[1] == core[0] && r[2] == core[1] && r[3] == core[2] && r[4] == core[3] && r[5] == core[4];
  }

  /** All finder-like patterns that end in a light run. */
  function FinderScore(runs: seq<nat>): nat
  {
    if runs == [] then 0
    else FinderScore(runs[..|runs| - 1]) + if RunDark(|runs| - 1) then 0 else Patterns(History(runs))
  }

  function LinePenalty(line: seq<bool>): nat
  {
    RunScore(Runs(line)) + FinderScore(Padded(line)) * 40
  }

  // ------------------------------------------------------------------
  // Score of a grid
  // ------------------------------------------------------------------

  function Column(g: Grid, x: nat): (c: seq<bool>)
    requires Square(g, |g|) && x < |g|
    ensures |c| == |g|
  {
    seq(|g|, y requires 0 <= y < |g| => g[y][x])
  }

  function RowsPenalty(g: Grid, n: nat): nat
    requires Square(g, |g|) && n <= |g|
  {
    if n == 0 then 0 else RowsPenalty(g, n - 1) + LinePenalty(g[n - 1])
  }

  function ColumnsPenalty(g: Grid, n: nat): nat
    requires Square(g, |g|) && n <= |g|
  {
    if n == 0 then 0 else ColumnsPenalty(g, n - 1) + LinePenalty(Column(g, n - 1))
  }

  /** The 2*2 square whose top left corner is (x, y) has one color. */
  predicate Uniform(g: Grid, x: int, y: int)
    requires Square(g, |g|) && 0 <= x < |g| - 1 && 0 <= y < |g| - 1
  {
    g[y][x] == g[y][x + 1] == g[y + 1][x] == g[y + 1][x + 1]
  }

  /** Cells that precede (x, y) in row order. */
  predicate Before(c: Cell, x: int, y: int)
  {
    c.y < y || (c.y == y && c.x < x)
  }

  ghost function Cells(n: int): (s: set<Cell>)
    ensures forall c :: c in s <==> 0 <= c.x < n && 0 <= c.y < n
  {
    set x, y | 0 <= x < n && 0 <= y < n :: Cell(x, y)
  }

  ghost function UniformBlocks(g: Grid, x: int, y: int): set<Cell>
    requires Square(g, |g|)
  {
    set c | c in Cells(|g| - 1) && Before(c, x, y) && Uniform(g, c.x, c.y)
  }

  ghost function DarkCells(g: Grid, x: int, y: int): set<Cell>
    requires Square(g, |g|)
  {
    set c | c in Cells(|g|) && Before(c, x, y) && g[c.y][c.x]
  }

  /** The least k >= 0 with |20·dark - 10·total| <= (k+1)·total. */
  ghost predicate IsBalanceTerm(dark: int, total: int, k: int)
  {
    && k >= 0
    && Abs(dark * 20 - total * 10) <= (k + 1) * total
    && (k > 0 ==> Abs(dark * 20 - total * 10) > k * total)
  }

  /** ceil(|20·dark - 10·total| / total) - 1 */
  function BalanceTerm(dark: int, total: int): int
    requires total > 0
  {
    (Abs(dark * 20 - total * 10) + total - 1) / total - 1
  }

  ghost function Score(g: Grid): int
    requires Square(g, |g|) && |g| > 0
  {
    RowsPenalty(g, |g|) + ColumnsPenalty(g, |g|)
    + |UniformBlocks(g, 0, |g| - 1)| * 3
    + BalanceTerm(|DarkCells(g, 0, |g|)|, |g| * |g|) * 10
  }

  // ------------------------------------------------------------------
  // The streaming line scan
  // ------------------------------------------------------------------

  function Front(runs: seq<nat>): seq<nat>
    requires |runs| >= 1
  {
    runs[..|runs| - 1]
  }

  function Last(runs: seq<nat>): nat
    requires |runs| >= 1
  {
    runs[|runs| - 1]
  }

  /** The history holds all runs but the current one, with the light border in front. */
  ghost predicate Tracks(history: seq<nat>, runs: seq<nat>, size: nat)
  {
    && |runs| >= 1
    && history == History(PadFirst(Front(runs), size))
    && (forall k :: 0 <= k < |runs| ==> runs[k] <= size)
    && (forall k :: 1 <= k < |runs| ==> runs[k] > 0)
  }

  lemma HistorySnoc(runs: seq<nat>, x: nat)
    ensures History(runs + [x]) == [x] + History(runs)[..6]
  {}

  lemma HistoryHead(runs: seq<nat>)
    ensures |runs| >= 1 ==> History(runs)[0] == Last(runs)
    ensures |runs| == 0 ==> History(runs)[0] == 0
  {}

  /** Pushing the current run, possibly lengthened, onto the history. */
  lemma PushTracks(history: seq<nat>, runs: seq<nat>, size: nat, extra: nat)
    requires Tracks(history, runs, size) && size >= 1
    ensures [Last(runs) + extra + if history[0] == 0 then size else 0] + history[..6]
         == History(PadFirst(Front(runs), size) + [Last(PadFirst(runs, size)) + extra])
    ensures PadFirst(runs, size) == PadFirst(Front(runs), size) + [Last(PadFirst(runs, size))]
    ensures 0 < Last(PadFirst(runs, size)) <= 2 * size
    ensures history[0] <= 2 * size
  {
    var done := PadFirst(Front(runs), size);
    HistorySnoc(done, Last(PadFirst(runs, size)) + extra);
    HistoryHead(done);
  }

  method FinderPenaltyCountPatterns(runHistory: seq<nat>, size: nat) returns (count: nat)
    requires |runHistory| == 7
    requires runHistory[1] <= size * 3
    ensures count == Patterns(runHistory)
  {
    var n := runHistory[1];
    var core := n > 0 && runHistory[2] == n && runHistory[3] == n * 3 && runHistory[4] == n && runHistory[5] == n;
    count := (if core && runHistory[0] >= n * 4 && runHistory[6] >= n then 1 else 0)
           + (if core && runHistory[6] >= n * 4 && runHistory[0] >= n then 1 else 0);
  }

  method FinderPenaltyAddHistory(currentRunLength: nat, runHistory: seq<nat>, size: nat) returns (h: seq<nat>)
    requires |runHistory| == 7
    ensures h == [currentRunLength + if runHistory[0] == 0 then size else 0] + runHistory[..6]
  {
    var len := currentRunLength;
    if runHistory[0] == 0 {
      len := len + size;
    }
    h := runHistory[..6];
    h := [len] + h;
  }

  /** Called at the end of a line: terminates a dark run and adds the light border. */
  method FinderPenaltyTerminateAndCount(currentRunColor: bool, currentRunLength: nat, runHistory: seq<nat>, size: nat,
                                        ghost runs: seq<nat>)
    returns (count: nat)
    requires size >= 1 && Tracks(runHistory, runs, size)
    requires currentRunColor == RunDark(|runs| - 1) && currentRunLength == Last(runs)
    ensures FinderScore(PadFirst(Front(runs), size)) + count == FinderScore(PadLast(PadFirst(runs, size), size))
  {
    hide Patterns, History;
    ghost var padded, done := PadFirst(runs, size), PadFirst(Front(runs), size);
    ghost var all := PadLast(padded, size);
    var length, history := currentRunLength, runHistory;
    PushTracks(history, runs, size, if currentRunColor then 0 else size);
    if currentRunColor {
      history := FinderPenaltyAddHistory(length, history, size);
      HistoryHead(padded);
      HistorySnoc(padded, size);
      assert all[..|padded|] == padded && padded[..|done|] == done;
      length := 0;
    } else {
      assert all[..|done|] == done;
      assert all == done + [Last(padded) + size];
    }
    length := length + size;
    history := FinderPenaltyAddHistory(length, history, size);
    assert history == History(all);
    count := FinderPenaltyCountPatterns(history, size);
  }

  lemma {:induction false} RunAtMostTotal(runs: seq<nat>, k: nat)
    requires k < |runs|
    ensures runs[k] <= Total(runs)
  {
    if k < |runs| - 1 {
      RunAtMostTotal(runs[..|runs| - 1], k);
    }
  }

  /** The run lengths after one more module. */
  lemma NextModule(line: seq<bool>, x: nat)
    requires x < |line|
    ensures var runs := Runs(line[..x]);
      var next := Runs(line[..x + 1]);
      if line[x] == RunDark(|runs| - 1)
      then next == Front(runs) + [Last(runs) + 1] && Front(next) == Front(runs)
           && RunScore(next) == RunScore(runs) - RunPoints(Last(runs)) + RunPoints(Last(runs) + 1)
      else next == runs + [1] && Front(next) == runs && RunScore(next) == RunScore(runs)
    ensures Total(Runs(line[..x])) == x
  {
    var runs, next := Runs(line[..x]), Runs(line[..x + 1]);
    assert line[..x + 1][..x] == line[..x];
    RunsExpand(line[..x]);
    RunsNotEmpty(line[..x]);
    TotalExpand(runs);
    if line[x] == RunDark(|runs| - 1) {
      assert next == Front(runs) + [Last(runs) + 1];
    } else {
      assert next == runs + [1];
    }
  }

  lemma RunsTracked(line: seq<bool>, x: nat, history: seq<nat>)
    requires x <= |line|
    requires history == History(PadFirst(Front(Runs(line[..x])), |line|))
    ensures Tracks(history, Runs(line[..x]), |line|)
  {
    var runs := Runs(line[..x]);
    RunsExpand(line[..x]);
    RunsNotEmpty(line[..x]);
    TotalExpand(runs);
    forall k | 0 <= k < |runs|
      ensures runs[k] <= |line|
    {
      RunAtMostTotal(runs, k);
    }
  }

  /** Completing the current run. */
  lemma CompleteRun(history: seq<nat>, runs: seq<nat>, size: nat, h: seq<nat>)
    requires Tracks(history, runs, size) && size >= 1
    requires h == [Last(runs) + if history[0] == 0 then size else 0] + history[..6]
    ensures h == History(PadFirst(runs, size))
    ensures h[1] <= size * 3
    ensures FinderScore(PadFirst(runs, size))
         == FinderScore(PadFirst(Front(runs), size)) + if RunDark(|runs| - 1) then 0 else Patterns(h)
  {
    hide Patterns, History;
    PushTracks(history, runs, size, 0);
    var done, padded := PadFirst(Front(runs), size), PadFirst(runs, size);
    assert padded[..|done|] == done;
  }

  /** What the scan has scored before module x: all points, and the patterns of completed runs. */
  function Scored(line: seq<bool>, x: nat): nat
    requires x <= |line|
  {
    var runs := Runs(line[..x]);
    RunScore(runs) + FinderScore(PadFirst(Front(runs), |line|)) * 40
  }

  lemma StartOfLine(line: seq<bool>)
    ensures Runs(line[..0]) == [0]
    ensures History([]) == [0, 0, 0, 0, 0, 0, 0]
    ensures Scored(line, 0) == 0
  {
    assert PadFirst(Front([0]), |line|) == [];
  }

  lemma SameColor(line: seq<bool>, x: nat)
    requires x < |line| && line[x] == RunDark(|Runs(line[..x])| - 1)
    ensures var len := Last(Runs(line[..x])) + 1;
      Scored(line, x + 1) == Scored(line, x) + if len == 5 then 3 else if len > 5 then 1 else 0
  {
    hide FinderScore, Runs, PadFirst;
    NextModule(line, x);
  }

  lemma OtherColor(line: seq<bool>, x: nat, history: seq<nat>, h: seq<nat>)
    requires x < |line| && line[x] != RunDark(|Runs(line[..x])| - 1)
    requires Tracks(history, Runs(line[..x]), |line|)
    requires h == [Last(Runs(line[..x])) + if history[0] == 0 then |line| else 0] + history[..6]
    ensures Scored(line, x + 1) == Scored(line, x) + if line[x] then Patterns(h) * 40 else 0
  {
    hide FinderScore, Runs, PadFirst, Patterns;
    NextModule(line, x);
    CompleteRun(history, Runs(line[..x]), |line|, h);
  }

  /** The scan of one row or column. */
  method ScanLine(line: seq<bool>) returns (result: nat)
    requires |line| >= 1
    ensures result == LinePenalty(line)
  {
    hide Patterns, History, Runs, Scored, PadFirst, FinderScore, RunScore;
    var size := |line|;
    var runColor := false;
    var runX := 0;
    var runHistory: seq<nat> := [0, 0, 0, 0, 0, 0, 0];
    result := 0;
    StartOfLine(line);
    EmptyPad(size);
    for x := 0 to size
      invariant runHistory == History(PadFirst(Front(Runs(line[..x])), size))
      invariant runColor == RunDark(|Runs(line[..x])| - 1)
      invariant runX == Last(Runs(line[..x]))
      invariant result == Scored(line, x)
    {
      ghost var runs := Runs(line[..x]);
      NextModule(line, x);
      RunsTracked(line, x, runHistory);
      if line[x] == runColor {
        SameColor(line, x);
        runX := runX + 1;
        if runX == 5 {
          result := result + PENALTY_N1;
        } else if runX > 5 {
          result := result + 1;
        }
      } else {
        ghost var before := runHistory;
        runHistory := FinderPenaltyAddHistory(runX, runHistory, size);
        CompleteRun(before, runs, size, runHistory);
        OtherColor(line, x, before, runHistory);
        if !runColor {
          var count := FinderPenaltyCountPatterns(runHistory, size);
          result := result + count * PENALTY_N3;
        }
        runColor := line[x];
        runX := 1;
      }
    }
    RunsTracked(line, size, runHistory);
    assert line[..size] == line;
    var count := FinderPenaltyTerminateAndCount(runColor, runX, runHistory, size, Runs(line));
    result := result + count * PENALTY_N3;
    ScoredWhole(line);
  }

  lemma EmptyPad(size: nat)
    ensures PadFirst(Front([0]), size) == []
  {}

  lemma ScoredWhole(line: seq<bool>)
    ensures Scored(line, |line|) == RunScore(Runs(line)) + FinderScore(PadFirst(Front(Runs(line)), |line|)) * 40
  {
    assert line[..|line|] == line;
  }

  // ------------------------------------------------------------------
  // The score stays in range
  // ------------------------------------------------------------------

  lemma {:induction false} RunScoreBound(runs: seq<nat>)
    ensures RunScore(runs) <= Total(runs)
  {
    if runs != [] {
      RunScoreBound(runs[..|runs| - 1]);
    }
  }

  /** Two consecutive light runs cannot both end a finder-like pattern. */
  lemma PatternsNotAdjacent(runs: seq<nat>)
    requires |runs| >= 2
    ensures Patterns(History(runs)) == 0 || Patterns(History(runs[..|runs| - 2])) == 0
  {
    var h, h' := History(runs), History(runs[..|runs| - 2]);
    assert h'[1] == h[3] && h'[2] == h[4];
  }

  lemma {:induction false} FinderScoreBound(runs: seq<nat>)
    ensures FinderScore(runs) <= |runs| / 2 + 2
  {
    hide Patterns, History, FinderScore;
    var n := |runs|;
    if n >= 4 {
      FinderScoreBound(runs[..n - 4]);
      ScoreStep(runs);
      ScoreStep(runs[..n - 1]);
      ScoreStep(runs[..n - 2]);
      ScoreStep(runs[..n - 3]);
      PatternsNotAdjacent(runs);
      PatternsNotAdjacent(runs[..n - 1]);
      assert runs[..n - 1][..n - 2] == runs[..n - 2];
      assert runs[..n - 2][..n - 3] == runs[..n - 3];
      assert runs[..n - 3][..n - 4] == runs[..n - 4];
      assert runs[..n - 1][..n - 3] == runs[..n - 3];
    } else if n >= 1 {
      FinderScoreBound(runs[..n - 1]);
      ScoreStep(runs);
      ShortHistory(runs);
    } else {
      ScoreStep(runs);
    }
  }

  lemma ScoreStep(runs: seq<nat>)
    ensures runs == [] ==> FinderScore(runs) == 0
    ensures runs != [] ==>
      FinderScore(runs) == FinderScore(runs[..|runs| - 1]) + if RunDark(|runs| - 1) then 0 else Patterns(History(runs))
  {}

  lemma ShortHistory(runs: seq<nat>)
    requires |runs| < 4
    ensures Patterns(History(runs)) == 0
  {}

  lemma LineBound(line: seq<bool>)
    requires |line| <= 177
    ensures LinePenalty(line) <= 3817
  {
    hide FinderScore, RunScore, Runs;
    RunsExpand(line);
    RunsNotEmpty(line);
    TotalExpand(Runs(line));
    RunScoreBound(Runs(line));
    FinderScoreBound(Padded(line));
  }

  // ------------------------------------------------------------------
  // The score of a grid
  // ------------------------------------------------------------------

  lemma BalanceIsLeast(dark: int, total: int)
    requires total > 0 && dark * 20 != total * 10
    ensures IsBalanceTerm(dark, total, BalanceTerm(dark, total))
  {
    var a := Abs(dark * 20 - total * 10);
    var q, r := (a + total - 1) / total, (a + total - 1) % total;
    assert a + total - 1 == q * total + r;
    LessFactor(0, q, total);
  }

  lemma BalanceRange(dark: int, total: int)
    requires total > 0 && 0 <= dark <= total && dark * 20 != total * 10
    ensures 0 <= BalanceTerm(dark, total) <= 9
  {
    BalanceIsLeast(dark, total);
    LessFactor(BalanceTerm(dark, total), 10, total);
  }

  lemma OddSquare(n: int)
    requires n % 2 == 1
    ensures n * n % 2 == 1
  {
    var h := n / 2;
    assert n * n == 2 * (2 * h * h + 2 * h) + 1;
  }

  lemma BlocksStep(g: Grid, x: int, y: int)
    requires Square(g, |g|) && 0 <= x < |g| - 1 && 0 <= y < |g| - 1
    ensures |UniformBlocks(g, x + 1, y)| == |UniformBlocks(g, x, y)| + if Uniform(g, x, y) then 1 else 0
  {
    hide Cells, Uniform;
    var before, after := UniformBlocks(g, x, y), UniformBlocks(g, x + 1, y);
    assert Cell(x, y) !in before;
    if Uniform(g, x, y) {
      assert after == before + {Cell(x, y)};
    } else {
      assert after == before;
    }
  }

  lemma BlocksNextRow(g: Grid, y: int)
    requires Square(g, |g|) && |g| >= 1
    ensures UniformBlocks(g, |g| - 1, y) == UniformBlocks(g, 0, y + 1)
    ensures UniformBlocks(g, 0, 0) == {}
  {}

  lemma DarkStep(g: Grid, x: int, y: int)
    requires Square(g, |g|) && 0 <= x < |g| && 0 <= y < |g|
    ensures |DarkCells(g, x + 1, y)| == |DarkCells(g, x, y)| + if g[y][x] then 1 else 0
  {
    hide Cells;
    var before, after := DarkCells(g, x, y), DarkCells(g, x + 1, y);
    assert Cell(x, y) !in before;
    if g[y][x] {
      assert after == before + {Cell(x, y)};
    } else {
      assert after == before;
    }
  }

  lemma DarkNextRow(g: Grid, y: int)
    requires Square(g, |g|)
    ensures DarkCells(g, |g|, y) == DarkCells(g, 0, y + 1)
    ensures DarkCells(g, 0, 0) == {}
  {}

  method ScanLines(modules: array2<bool>) returns (result: int)
    requires modules.Length0 == modules.Length1 && 1 <= modules.Length0 <= 177
    ensures var g := Rows(modules); result == RowsPenalty(g, |g|) + ColumnsPenalty(g, |g|)
    ensures 0 <= result <= 2 * 177 * 3817
  {
    hide LinePenalty;
    var size := modules.Length0;
    ghost var g := Rows(modules);
    result := 0;
    for y := 0 to size
      invariant result == RowsPenalty(g, y) <= 3817 * y
    {
      var row := seq(size, x requires 0 <= x < size reads modules => modules[y, x]);
      assert row == g[y];
      var penalty := ScanLine(row);
      LineBound(row);
      result := result + penalty;
    }
    for x := 0 to size
      invariant result == RowsPenalty(g, size) + ColumnsPenalty(g, x) <= 3817 * size + 3817 * x
    {
      var column := seq(size, y requires 0 <= y < size reads modules => modules[y, x]);
      assert column == Column(g, x);
      var penalty := ScanLine(column);
      LineBound(column);
      result := result + penalty;
    }
  }

  method CountBlocks(modules: array2<bool>) returns (result: int)
    requires modules.Length0 == modules.Length1 && 1 <= modules.Length0 <= 177
    ensures var g := Rows(modules); result == |UniformBlocks(g, 0, |g| - 1)| * 3
    ensures 0 <= result <= 176 * 176 * 3
  {
    hide UniformBlocks;
    var size := modules.Length0;
    ghost var g := Rows(modules);
    result := 0;
    BlocksNextRow(g, 0);
    for y := 0 to size - 1
      invariant result == |UniformBlocks(g, 0, y)| * 3
      invariant result <= 528 * y
    {
      for x := 0 to size - 1
        invariant result == |UniformBlocks(g, x, y)| * 3
        invariant result <= 528 * y + 3 * x
      {
        BlocksStep(g, x, y);
        var color := modules[y, x];
        if color == modules[y, x + 1] && color == modules[y + 1, x] && color == modules[y + 1, x + 1] {
          result := result + PENALTY_N2;
        }
      }
      BlocksNextRow(g, y);
    }
  }

  method CountDark(modules: array2<bool>) returns (dark: nat)
    requires modules.Length0 == modules.Length1
    ensures var g := Rows(modules); dark == |DarkCells(g, 0, |g|)| && dark <= |g| * |g|
  {
    hide DarkCells;
    var size := modules.Length0;
    ghost var g := Rows(modules);
    dark := 0;
    DarkNextRow(g, 0);
    for y := 0 to size
      invariant dark == |DarkCells(g, 0, y)| && dark <= y * size
    {
      for x := 0 to size
        invariant dark == |DarkCells(g, x, y)| && dark <= y * size + x
      {
        DarkStep(g, x, y);
        dark := dark + if modules[y, x] then 1 else 0;
      }
      DarkNextRow(g, y);
      assert (y + 1) * size == y * size + size;
    }
  }

  /** The score of a symbol; its two assertions hold for every symbol size. */
  method GetPenaltyScore(modules: array2<bool>) returns (result: int)
    requires modules.Length0 == modules.Length1 && 1 <= modules.Length0 <= 177 && modules.Length0 % 2 == 1
    ensures result == Score(Rows(modules))
    ensures 0 <= result <= 2568888
  {
    hide RowsPenalty, ColumnsPenalty, UniformBlocks, DarkCells, BalanceTerm;
    var size := modules.Length0;
    result := ScanLines(modules);
    var blocks := CountBlocks(modules);
    result := result + blocks;
    var dark := CountDark(modules);
    var total := size * size;
    OddSquare(size);
    BalanceRange(dark, total);
    var k := BalanceTerm(dark, total);
    result := result + k * PENALTY_N4;
  }
}
