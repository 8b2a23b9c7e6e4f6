/**
 Apportioning prizes to team members in basis points, with the remainder going to the
 member of lowest ordinal. All arithmetic is the original's 64-bit arithmetic.
 */
module Allocate {
  import opened Wrappers
  import opened Collections
  import opened Int64
  import opened EscrowState

  const TOTAL_SHARE_BASIS_POINTS: int := 10000
  const MAX_WINNERS_ALLOCATION: int := 25

  datatype Position = Position(place: uint32, amount: int64)
  datatype Member = Member(address: Address, ordinal: int32, share: int32)
  datatype WinningTeam = WinningTeam(place: uint32, members: seq<Member>)

  datatype AllocationError =
    | NoPositions
    | AmountNotPositive(place: uint32)
    | SumMismatch
    | TeamCountMismatch
    | DuplicateTeam(place: uint32)
    | TooManyWinners(count: nat)
    | NoWinningTeam(place: uint32)
    | NoMembers(place: uint32)
    | ShareNotPositive(place: uint32, member: Address)
    | DuplicateOrdinal(place: uint32, member: Address)
    | SharesNotComplete(place: uint32)
    | NotPayable(place: uint32, member: Address)

  // ------------------------------------------------------------------
  // One team
  // ------------------------------------------------------------------

  function Sum(s: seq<int>): int
  {
    if s == [] then 0 else Sum(s[..|s| - 1]) + s[|s| - 1]
  }

  /** (amount * share) / 10000 as the machine computes it. */
  function Floor64(amount: int64, share: int32): int64
  {
    Quotient(Wrap(amount * share), TOTAL_SHARE_BASIS_POINTS)
  }

  /** The floor of a member's share. */
  function Ideal(amount: int, share: int): int
  {
    amount * share / TOTAL_SHARE_BASIS_POINTS
  }

  function Floors(amount: int64, members: seq<Member>): (f: seq<int>)
    ensures |f| == |members|
    ensures forall i :: 0 <= i < |f| ==> f[i] == Floor64(amount, members[i].share)
    ensures forall i :: 0 <= i < |f| ==> -INT64_MAX - 1 <= f[i] <= INT64_MAX
  {
    seq(|members|, i requires 0 <= i < |members| => Floor64(amount, members[i].share))
  }

  function Ideals(amount: int, members: seq<Member>): (f: seq<int>)
    ensures |f| == |members|
    ensures forall i :: 0 <= i < |f| ==> f[i] == Ideal(amount, members[i].share)
  {
    seq(|members|, i requires 0 <= i < |members| => Ideal(amount, members[i].share))
  }

  function Shares(members: seq<Member>): (f: seq<int>)
    ensures |f| == |members|
    ensures forall i :: 0 <= i < |f| ==> f[i] == members[i].share
  {
    seq(|members|, i requires 0 <= i < |members| => members[i].share)
  }

  /** The first member of lowest ordinal. */
  function Lowest(members: seq<Member>): (low: nat)
    requires members != []
    ensures low < |members|
    ensures forall i :: 0 <= i < |members| ==> members[low].ordinal <= members[i].ordinal
    ensures forall i :: 0 <= i < low ==> members[low].ordinal < members[i].ordinal
  {
    var n := |members| - 1;
    if n == 0 then 0
    else
      var low := Lowest(members[..n]);
      if members[n].ordinal < members[low].ordinal then n else low
  }

  predicate DistinctOrdinals(members: seq<Member>)
  {
    forall i, j :: 0 <= i < j < |members| ==> members[i].ordinal != members[j].ordinal
  }

  /** What the floors leave of the amount. */
  function Left(amount: int64, members: seq<Member>): int64
  {
    Wrap(amount - Wrap(Sum(Floors(amount, members))))
  }

  /** Everyone's machine floor, plus what is left for the lowest ordinal. */
  function Lines(amount: int64, members: seq<Member>): (lines: seq<int>)
    requires members != []
    ensures |lines| == |members|
    ensures forall i :: 0 <= i < |lines| ==> -INT64_MAX - 1 <= lines[i] <= INT64_MAX
  {
    var f, low := Floors(amount, members), Lowest(members);
    f[low := Wrap(f[low] + Left(amount, members))]
  }

  /** The team's data is complete. */
  ghost predicate TeamValid(members: seq<Member>)
  {
    && members != []
    && (forall i :: 0 <= i < |members| ==> members[i].share > 0)
    && DistinctOrdinals(members)
    && Sum(Shares(members)) == TOTAL_SHARE_BASIS_POINTS
  }

  /** The contract refuses a line that is not positive. */
  predicate Payable(amount: int64, members: seq<Member>)
    requires members != []
  {
    forall i :: 0 <= i < |members| ==> Lines(amount, members)[i] > 0
  }

  // ------------------------------------------------------------------
  // Sums
  // ------------------------------------------------------------------

  lemma SumPrefixStep(s: seq<int>, i: nat)
    requires i < |s|
    ensures Sum(s[..i + 1]) == Sum(s[..i]) + s[i]
  {
    assert s[..i + 1][..i] == s[..i];
  }

  lemma {:induction false} SumUpdate(s: seq<int>, i: nat, v: int)
    requires i < |s|
    ensures Sum(s[i := v]) == Sum(s) - s[i] + v
  {
    var n := |s| - 1;
    if i < n {
      assert s[i := v][..n] == s[..n][i := v];
      SumUpdate(s[..n], i, v);
    } else {
      assert s[i := v][..n] == s[..n];
    }
  }

  lemma {:induction false} SumBounds(s: seq<int>, lo: int, hi: int)
    requires forall i :: 0 <= i < |s| ==> lo <= s[i] <= hi
    ensures |s| * lo <= Sum(s) <= |s| * hi
  {
    if s != [] {
      SumBounds(s[..|s| - 1], lo, hi);
    }
  }

  lemma {:induction false} SumConcat(s: seq<int>, t: seq<int>)
    ensures Sum(s + t) == Sum(s) + Sum(t)
  {
    if t == [] {
      assert s + t == s;
    } else {
      assert (s + t)[..|s + t| - 1] == s + t[..|t| - 1];
      SumConcat(s, t[..|t| - 1]);
    }
  }

  lemma SumRemove(s: seq<int>, j: nat)
    requires j < |s|
    ensures Sum(s[..j] + s[j + 1..]) == Sum(s) - s[j]
  {
    SumSingle(s[j]);
    hide Sum;
    var a, b, rest := s[..j], s[j + 1..], s[j..];
    assert rest == [s[j]] + b;
    assert s == a + rest;
    SumConcat(a, rest);
    SumConcat([s[j]], b);
    SumConcat(a, b);
  }

  lemma SumSingle(v: int)
    ensures Sum([v]) == v
  {
    assert [v][..0] == [];
  }

  // ------------------------------------------------------------------
  // The remainder
  // ------------------------------------------------------------------

  /** Floors lose less than one unit per member. */
  lemma {:induction false} FloorsLose(amount: int, members: seq<Member>)
    requires amount >= 0 && forall i :: 0 <= i < |members| ==> members[i].share > 0
    ensures Sum(Ideals(amount, members)) * 10000 <= amount * Sum(Shares(members))
    ensures amount * Sum(Shares(members)) <= Sum(Ideals(amount, members)) * 10000 + 9999 * |members|
  {
    if members != [] {
      var n := |members| - 1;
      FloorsLose(amount, members[..n]);
      assert Ideals(amount, members)[..n] == Ideals(amount, members[..n]);
      assert Shares(members)[..n] == Shares(members[..n]);
      var before, share := Sum(Shares(members[..n])), members[n].share;
      assert Sum(Shares(members)) == before + share;
      assert amount * (before + share) == amount * before + amount * share;
      FloorLoses(amount * share);
    }
  }

  lemma FloorLoses(product: int)
    ensures product / 10000 * 10000 <= product <= product / 10000 * 10000 + 9999
  {}

  /** The remainder lies between zero and the size of the team. */
  lemma RemainderRange(amount: int64, members: seq<Member>)
    requires amount > 0 && TeamValid(members)
    ensures 0 <= amount - Sum(Ideals(amount, members)) < |members|
  {
    hide DistinctOrdinals, Sum, Ideals;
    FloorsLose(amount, members);
  }

  // ------------------------------------------------------------------
  // Machine arithmetic against the ideal
  // ------------------------------------------------------------------

  /** The machine floor is the floor exactly when the product fits. */
  lemma FloorExactIff(amount: int64, share: int32)
    requires amount > 0 && share > 0
    ensures Floor64(amount, share) == Ideal(amount, share) <==> amount * share <= INT64_MAX
    ensures -922337203685478 <= Floor64(amount, share) <= 922337203685478
  {
    FloorOfProduct(amount * share);
  }

  lemma FloorOfProduct(product: int)
    requires product >= 0
    ensures Quotient(Wrap(product), 10000) == product / 10000 <==> product <= INT64_MAX
    ensures -922337203685478 <= Quotient(Wrap(product), 10000) <= 922337203685478
  {
    if product > INT64_MAX {
      assert Turns(product) >= 1;
    }
  }

  /** Payable lines other than the lowest one are floors, which are far from overflowing together. */
  lemma OthersBounded(amount: int64, members: seq<Member>)
    requires amount > 0 && TeamValid(members) && Payable(amount, members) && |members| <= MAX_WINNERS_ALLOCATION
    ensures var f, low := Floors(amount, members), Lowest(members);
      0 <= Sum(f) - f[low] <= 25 * 922337203685478
  {
    hide DistinctOrdinals, Sum, Floor64, Wrap, Left;
    var f, low, lines := Floors(amount, members), Lowest(members), Lines(amount, members);
    var others := f[low := 0];
    SumUpdate(f, low, 0);
    forall i | 0 <= i < |others|
      ensures 0 <= others[i] <= 922337203685478
    {
      FloorExactIff(amount, members[i].share);
      assert i != low ==> lines[i] == f[i];
    }
    SumBounds(others, 0, 922337203685478);
  }

  /** The line of the lowest ordinal is what the other floors leave. */
  lemma LowestLine(amount: int64, members: seq<Member>)
    requires members != []
    ensures var f, low := Floors(amount, members), Lowest(members);
      Lines(amount, members)[low] == Wrap(amount - (Sum(f) - f[low]))
  {
    hide Sum, Floor64, Wrap;
    var f, low := Floors(amount, members), Lowest(members);
    WrapAdd(amount, Sum(f));
    WrapAdd(amount - Sum(f), f[low]);
  }

  /** The lines of a payable team add up to its prize, whatever overflowed on the way. */
  lemma LinesAddUp(amount: int64, members: seq<Member>)
    requires amount > 0 && TeamValid(members) && Payable(amount, members) && |members| <= MAX_WINNERS_ALLOCATION
    ensures Sum(Lines(amount, members)) == amount
    ensures forall i :: 0 <= i < |members| && i != Lowest(members) ==>
              Lines(amount, members)[i] == Floor64(amount, members[i].share)
  {
    hide DistinctOrdinals, Sum, Floor64, TeamValid, Payable, Left;
    OthersBounded(amount, members);
    LowestLine(amount, members);
    SumUpdate(Floors(amount, members), Lowest(members), Lines(amount, members)[Lowest(members)]);
  }

  /** Everyone gets the floor of their share, and the lowest ordinal gets the remainder on top. */
  ghost predicate Apportioned(amount: int64, members: seq<Member>)
    requires members != []
  {
    var lines, low := Lines(amount, members), Lowest(members);
    && (forall i :: 0 <= i < |members| && i != low ==> lines[i] == Ideal(amount, members[i].share))
    && lines[low] == Ideal(amount, members[low].share) + (amount - Sum(Ideals(amount, members)))
  }

  /** No product but the one of the lowest ordinal overflows. */
  ghost predicate ProductsFit(amount: int64, members: seq<Member>)
    requires members != []
  {
    forall i :: 0 <= i < |members| && i != Lowest(members) ==> amount * members[i].share <= INT64_MAX
  }

  /**
   A payable team is apportioned as documented exactly when the products fit; the product
   of the lowest ordinal may overflow, because its line is whatever the others leave.
   */
  lemma ApportionedIff(amount: int64, members: seq<Member>)
    requires amount > 0 && TeamValid(members) && Payable(amount, members) && |members| <= MAX_WINNERS_ALLOCATION
    ensures Apportioned(amount, members) <==> ProductsFit(amount, members)
    ensures 0 <= amount - Sum(Ideals(amount, members)) < |members|
  {
    hide DistinctOrdinals, Sum, Floor64, Wrap, Ideal, Lines, Payable;
    RemainderRange(amount, members);
    LinesAddUp(amount, members);
    var lines, low := Lines(amount, members), Lowest(members);
    forall i | 0 <= i < |members| && i != low
      ensures lines[i] == Ideal(amount, members[i].share) <==> amount * members[i].share <= INT64_MAX
    {
      FloorExactIff(amount, members[i].share);
    }
    if ProductsFit(amount, members) {
      var ideals := Ideals(amount, members);
      assert lines == ideals[low := lines[low]];
      SumUpdate(ideals, low, lines[low]);
    }
  }

  // ------------------------------------------------------------------
  // The order of the slice
  // ------------------------------------------------------------------

  lemma {:induction false} FloorsPermuted(amount: int64, a: seq<Member>, b: seq<Member>)
    requires multiset(a) == multiset(b)
    ensures Sum(Floors(amount, a)) == Sum(Floors(amount, b))
  {
    hide Sum, Floor64;
    if a == [] {
      assert |b| == 0 by { assert |multiset(b)| == |b| && |multiset(a)| == 0; }
    } else {
      var n := |a| - 1;
      assert a[n] in multiset(b);
      var j :| 0 <= j < |b| && b[j] == a[n];
      RemoveOne(a, b, j);
      FloorsPermuted(amount, a[..n], b[..j] + b[j + 1..]);
      FloorsWithout(amount, a, n);
      FloorsWithout(amount, b, j);
    }
  }

  lemma FloorsWithout(amount: int64, a: seq<Member>, j: nat)
    requires j < |a|
    ensures Sum(Floors(amount, a[..j] + a[j + 1..])) == Sum(Floors(amount, a)) - Floor64(amount, a[j].share)
    ensures j == |a| - 1 ==> a[..j] + a[j + 1..] == a[..j]
  {
    hide Sum, Floor64;
    var f := Floors(amount, a);
    assert Floors(amount, a[..j] + a[j + 1..]) == f[..j] + f[j + 1..];
    SumRemove(f, j);
  }

  /** What a member gets does not depend on the order in which the team is listed. */
  lemma OrderIrrelevant(amount: int64, a: seq<Member>, b: seq<Member>, i: nat, j: nat)
    requires multiset(a) == multiset(b) && DistinctOrdinals(a) && DistinctOrdinals(b)
    requires i < |a| && j < |b| && a[i] == b[j]
    ensures Lines(amount, a)[i] == Lines(amount, b)[j]
  {
    hide Sum, Floor64, Wrap;
    FloorsPermuted(amount, a, b);
    var la, lb := Lowest(a), Lowest(b);
    assert a[la] in multiset(b) && b[lb] in multiset(a);
    assert a[la].ordinal == b[lb].ordinal;
    assert i == la <==> a[i].ordinal == a[la].ordinal;
    assert j == lb <==> b[j].ordinal == b[lb].ordinal;
  }

  // ------------------------------------------------------------------
  // All positions
  // ------------------------------------------------------------------

  function Amounts(positions: seq<Position>): (f: seq<int>)
    ensures |f| == |positions|
    ensures forall i :: 0 <= i < |f| ==> f[i] == positions[i].amount
  {
    seq(|positions|, i requires 0 <= i < |positions| => positions[i].amount)
  }

  /** The team declared for a place. */
  function TeamFor(teams: seq<WinningTeam>, place: uint32): Option<WinningTeam>
  {
    if teams == [] then None
    else if teams[|teams| - 1].place == place then Some(teams[|teams| - 1])
    else TeamFor(teams[..|teams| - 1], place)
  }

  predicate DistinctPlaces(teams: seq<WinningTeam>)
  {
    forall i, j :: 0 <= i < j < |teams| ==> teams[i].place != teams[j].place
  }

  function MemberCount(teams: seq<WinningTeam>): nat
  {
    if teams == [] then 0 else MemberCount(teams[..|teams| - 1]) + |teams[|teams| - 1].members|
  }

  ghost predicate PositionValid(p: Position, teams: seq<WinningTeam>)
  {
    var team := TeamFor(teams, p.place);
    team.Some? && TeamValid(team.value.members) && Payable(p.amount, team.value.members)
  }

  /** What the allocator accepts. */
  ghost predicate Accepts(reward: int64, positions: seq<Position>, teams: seq<WinningTeam>)
  {
    && positions != []
    && (forall i :: 0 <= i < |positions| ==> positions[i].amount > 0)
    && Wrap(Sum(Amounts(positions))) == reward
    && |teams| == |positions| && DistinctPlaces(teams)
    && MemberCount(teams) <= MAX_WINNERS_ALLOCATION
    && forall i :: 0 <= i < |positions| ==> PositionValid(positions[i], teams)
  }

  /** One line per member, in the order of the slice. */
  function TeamWinners(p: Position, members: seq<Member>): (w: seq<Winner>)
    requires members != []
    ensures |w| == |members|
  {
    var lines := Lines(p.amount, members);
    seq(|members|, i requires 0 <= i < |members| =>
      Winner(p.place, lines[i], members[i].address))
  }

  /** The lines of all positions, one after the other. */
  function Allocation(positions: seq<Position>, teams: seq<WinningTeam>): seq<Winner>
  {
    if positions == [] then []
    else
      var p := positions[|positions| - 1];
      var team := TeamFor(teams, p.place);
      Allocation(positions[..|positions| - 1], teams)
      + if team.Some? && team.value.members != [] then TeamWinners(p, team.value.members) else []
  }

  function WinnerAmounts(winners: seq<Winner>): (f: seq<int>)
    ensures |f| == |winners|
    ensures forall i :: 0 <= i < |f| ==> f[i] == winners[i].amount
  {
    seq(|winners|, i requires 0 <= i < |winners| => winners[i].amount)
  }

  lemma {:induction false} TeamForIn(teams: seq<WinningTeam>, place: uint32)
    ensures var t := TeamFor(teams, place);
      t.Some? ==> t.value.place == place && t.value in teams && |t.value.members| <= MemberCount(teams)
    ensures TeamFor(teams, place).None? <==> forall i :: 0 <= i < |teams| ==> teams[i].place != place
  {
    if teams != [] {
      TeamForIn(teams[..|teams| - 1], place);
    }
  }

  lemma {:induction false} TeamForUnique(teams: seq<WinningTeam>, i: nat)
    requires DistinctPlaces(teams) && i < |teams|
    ensures TeamFor(teams, teams[i].place) == Some(teams[i])
  {
    if i < |teams| - 1 {
      TeamForUnique(teams[..|teams| - 1], i);
    }
  }

  /** The lines of one place add up to its amount. */
  lemma PositionAddsUp(p: Position, teams: seq<WinningTeam>)
    requires MemberCount(teams) <= MAX_WINNERS_ALLOCATION && p.amount > 0 && PositionValid(p, teams)
    ensures TeamFor(teams, p.place).Some? && TeamFor(teams, p.place).value.members != []
    ensures var winners := TeamWinners(p, TeamFor(teams, p.place).value.members);
      && Sum(WinnerAmounts(winners)) == p.amount
      && forall i :: 0 <= i < |winners| ==> winners[i].amount > 0
  {
    hide Sum, Lines, Lowest, DistinctOrdinals;
    TeamForIn(teams, p.place);
    var members := TeamFor(teams, p.place).value.members;
    LinesAddUp(p.amount, members);
    assert WinnerAmounts(TeamWinners(p, members)) == Lines(p.amount, members);
  }

  lemma AmountsConcat(before: seq<Winner>, winners: seq<Winner>)
    ensures Sum(WinnerAmounts(before + winners)) == Sum(WinnerAmounts(before)) + Sum(WinnerAmounts(winners))
  {
    hide Sum;
    assert WinnerAmounts(before + winners) == WinnerAmounts(before) + WinnerAmounts(winners);
    SumConcat(WinnerAmounts(before), WinnerAmounts(winners));
  }

  /** Every place is paid exactly its amount. */
  lemma {:induction false} AllocationAddsUp(positions: seq<Position>, teams: seq<WinningTeam>)
    requires MemberCount(teams) <= MAX_WINNERS_ALLOCATION
    requires forall i :: 0 <= i < |positions| ==> positions[i].amount > 0 && PositionValid(positions[i], teams)
    ensures Sum(WinnerAmounts(Allocation(positions, teams))) == Sum(Amounts(positions))
    ensures forall i :: 0 <= i < |Allocation(positions, teams)| ==> Allocation(positions, teams)[i].amount > 0
  {
    if positions == [] {
      assert WinnerAmounts(Allocation(positions, teams)) == Amounts(positions);
    } else {
      hide *;
      var n := |positions| - 1;
      AllocationAddsUp(positions[..n], teams);
      LastAddsUp(positions, teams);
    }
  }

  lemma LastAddsUp(positions: seq<Position>, teams: seq<WinningTeam>)
    requires positions != [] && MemberCount(teams) <= MAX_WINNERS_ALLOCATION
    requires var p := positions[|positions| - 1]; p.amount > 0 && PositionValid(p, teams)
    requires var before := Allocation(positions[..|positions| - 1], teams);
      && Sum(WinnerAmounts(before)) == Sum(Amounts(positions[..|positions| - 1]))
      && forall i :: 0 <= i < |before| ==> before[i].amount > 0
    ensures Sum(WinnerAmounts(Allocation(positions, teams))) == Sum(Amounts(positions))
    ensures forall i :: 0 <= i < |Allocation(positions, teams)| ==> Allocation(positions, teams)[i].amount > 0
  {
    hide *;
    var n := |positions| - 1;
    PositionAddsUp(positions[n], teams);
    LastPosition(positions, teams);
    var before := Allocation(positions[..n], teams);
    var more := TeamWinners(positions[n], TeamFor(teams, positions[n].place).value.members);
    AmountsConcat(before, more);
    PositiveConcat(before, more, Allocation(positions, teams));
  }

  lemma PositiveConcat(before: seq<Winner>, more: seq<Winner>, all: seq<Winner>)
    requires all == before + more
    requires forall i :: 0 <= i < |before| ==> before[i].amount > 0
    requires forall i :: 0 <= i < |more| ==> more[i].amount > 0
    ensures forall i :: 0 <= i < |all| ==> all[i].amount > 0
  {}

  lemma LastPosition(positions: seq<Position>, teams: seq<WinningTeam>)
    requires positions != []
    ensures var n := |positions| - 1;
      && Sum(Amounts(positions)) == Sum(Amounts(positions[..n])) + positions[n].amount
      && (TeamFor(teams, positions[n].place).Some? && TeamFor(teams, positions[n].place).value.members != [] ==>
            var more := TeamWinners(positions[n], TeamFor(teams, positions[n].place).value.members);
            Allocation(positions, teams) == Allocation(positions[..n], teams) + more)
  {
    hide TeamFor, TeamWinners;
    var n := |positions| - 1;
    assert Amounts(positions)[..n] == Amounts(positions[..n]);
  }

  lemma TeamHasMembers(members: seq<Member>)
    requires TeamValid(members)
    ensures members != []
  {}

  // ------------------------------------------------------------------
  // The loops
  // ------------------------------------------------------------------

  /** What an error about one team says. */
  ghost predicate TeamErrorTrue(e: AllocationError, place: uint32, members: seq<Member>)
  {
    match e
    case NoMembers(p) => p == place && members == []
    case ShareNotPositive(p, member) =>
      p == place && exists i :: 0 <= i < |members| && members[i].address == member && members[i].share <= 0
    case DuplicateOrdinal(p, member) =>
      p == place
      && exists i, j :: 0 <= i < j < |members| && members[j].address == member
                        && members[i].ordinal == members[j].ordinal
    case SharesNotComplete(p) => p == place && Sum(Shares(members)) != TOTAL_SHARE_BASIS_POINTS
    case _ => false
  }

  /** A line that is not positive, at a position of this amount. */
  ghost predicate LineErrorTrue(e: AllocationError, p: Position, members: seq<Member>)
    requires members != []
  {
    e.NotPayable? && e.place == p.place
    && exists i :: 0 <= i < |members| && members[i].address == e.member && Lines(p.amount, members)[i] <= 0
  }

  /** An error at one position. */
  ghost predicate PositionErrorTrue(e: AllocationError, p: Position, teams: seq<WinningTeam>)
  {
    var team := TeamFor(teams, p.place);
    if team.None? then e == NoWinningTeam(p.place)
    else
      || TeamErrorTrue(e, p.place, team.value.members)
      || (team.value.members != [] && LineErrorTrue(e, p, team.value.members))
  }

  /** Every error names something that is wrong with the input. */
  ghost predicate ErrorTrue(e: AllocationError, reward: int64, positions: seq<Position>, teams: seq<WinningTeam>)
  {
    match e
    case NoPositions => positions == []
    case AmountNotPositive(place) =>
      exists i :: 0 <= i < |positions| && positions[i].place == place && positions[i].amount <= 0
    case SumMismatch => Wrap(Sum(Amounts(positions))) != reward
    case TeamCountMismatch => |teams| != |positions|
    case DuplicateTeam(place) =>
      exists i, j :: 0 <= i < j < |teams| && teams[i].place == teams[j].place == place
    case TooManyWinners(count) => count == MemberCount(teams) > MAX_WINNERS_ALLOCATION
    case _ => exists i :: 0 <= i < |positions| && PositionErrorTrue(e, positions[i], teams)
  }

  /** Checks shares and ordinals of one team. */
  method CheckTeam(place: uint32, members: seq<Member>) returns (error: Option<AllocationError>)
    requires |members| <= MAX_WINNERS_ALLOCATION
    ensures error.None? <==> TeamValid(members)
    ensures error.Some? ==> TeamErrorTrue(error.value, place, members)
  {
    hide Sum;
    if |members| == 0 {
      return Some(NoMembers(place));
    }
    var seenOrdinal: set<int> := {};
    var shareSum: int64 := 0;
    var shares := Shares(members);
    SumEmpty(shares);
    for i := 0 to |members|
      invariant forall k :: 0 <= k < i ==> members[k].share > 0
      invariant DistinctOrdinals(members[..i])
      invariant forall o :: o in seenOrdinal <==> exists k :: 0 <= k < i && members[k].ordinal == o
      invariant shareSum == Sum(shares[..i]) && 0 <= shareSum <= i * 0x7fff_ffff
    {
      var m := members[i];
      if m.share <= 0 {
        return Some(ShareNotPositive(place, m.address));
      }
      if m.ordinal in seenOrdinal {
        return Some(DuplicateOrdinal(place, m.address));
      }
      seenOrdinal := seenOrdinal + {m.ordinal};
      SumPrefixStep(shares, i);
      shareSum := Wrap(shareSum + m.share);
    }
    assert members[..|members|] == members && shares[..|members|] == shares;
    if shareSum != TOTAL_SHARE_BASIS_POINTS {
      return Some(SharesNotComplete(place));
    }
    return None;
  }

  lemma SumEmpty(s: seq<int>)
    ensures Sum(s[..0]) == 0
  {}

  /** Floors, remainder and the check that every line is payable. */
  method AllocateTeam(p: Position, members: seq<Member>) returns (r: Result<seq<Winner>, AllocationError>)
    requires members != []
    ensures r.Success? <==> Payable(p.amount, members)
    ensures r.Success? ==> r.value == TeamWinners(p, members)
    ensures r.Failure? ==> LineErrorTrue(r.error, p, members)
  {
    var amounts := FloorAndRemainder(p.amount, members);
    var winners: seq<Winner> := [];
    for i := 0 to |members|
      invariant |winners| == i
      invariant forall k :: 0 <= k < i ==>
                amounts[k] > 0 && winners[k] == Winner(p.place, amounts[k], members[k].address)
    {
      if amounts[i] <= 0 {
        return Failure(NotPayable(p.place, members[i].address));
      }
      winners := winners + [Winner(p.place, amounts[i], members[i].address)];
    }
    assert winners == TeamWinners(p, members);
    return Success(winners);
  }

  method FloorAndRemainder(amount: int64, members: seq<Member>) returns (amounts: array<int64>)
    requires members != []
    ensures fresh(amounts) && amounts.Length == |members|
    ensures forall i :: 0 <= i < |members| ==> amounts[i] == Lines(amount, members)[i]
  {
    hide Sum, Floor64;
    amounts := new int64[|members|];
    ghost var floors := Floors(amount, members);
    SumEmpty(floors);
    var floorSum: int64 := 0;
    for i := 0 to |members|
      invariant forall k :: 0 <= k < i ==> amounts[k] == floors[k]
      invariant floorSum == Wrap(Sum(floors[..i]))
    {
      var amt := Floor64(amount, members[i].share);
      amounts[i] := amt;
      SumPrefixStep(floors, i);
      WrapAdd(Sum(floors[..i]), amt);
      floorSum := Wrap(floorSum + amt);
    }
    assert floors[..|members|] == floors;
    var remainder := Wrap(amount - floorSum);
    if remainder != 0 {
      var lowest := FindLowest(members);
      amounts[lowest] := Wrap(amounts[lowest] as int + remainder);
    }
  }

  method FindLowest(members: seq<Member>) returns (lowest: nat)
    requires members != []
    ensures lowest == Lowest(members)
  {
    lowest := 0;
    for i := 1 to |members|
      invariant lowest < i
      invariant forall k :: 0 <= k < i ==> members[lowest].ordinal <= members[k].ordinal
      invariant forall k :: 0 <= k < lowest ==> members[lowest].ordinal < members[k].ordinal
    {
      if members[i].ordinal < members[lowest].ordinal {
        lowest := i;
      }
    }
  }

  /** The sum of the position amounts, if they are all positive. */
  method SumPositions(positions: seq<Position>) returns (r: Result<int64, AllocationError>)
    ensures r.Success? <==> forall i :: 0 <= i < |positions| ==> positions[i].amount > 0
    ensures r.Success? ==> r.value == Wrap(Sum(Amounts(positions)))
    ensures r.Failure? ==>
              r.error.AmountNotPositive?
              && exists i :: 0 <= i < |positions| && positions[i].place == r.error.place && positions[i].amount <= 0
  {
    hide Sum;
    var amounts := Amounts(positions);
    SumEmpty(amounts);
    var positionSum: int64 := 0;
    for i := 0 to |positions|
      invariant forall k :: 0 <= k < i ==> positions[k].amount > 0
      invariant positionSum == Wrap(Sum(amounts[..i]))
    {
      if positions[i].amount <= 0 {
        return Failure(AmountNotPositive(positions[i].place));
      }
      SumPrefixStep(amounts, i);
      WrapAdd(Sum(amounts[..i]), positions[i].amount);
      positionSum := Wrap(positionSum + positions[i].amount);
    }
    assert amounts[..|positions|] == amounts;
    return Success(positionSum);
  }

  /** The teams by place, if no place has two. */
  method IndexTeams(teams: seq<WinningTeam>) returns (r: Result<map<uint32, WinningTeam>, AllocationError>)
    ensures r.Success? <==> DistinctPlaces(teams)
    ensures r.Failure? ==>
              r.error.DuplicateTeam?
              && exists i, j :: 0 <= i < j < |teams| && teams[i].place == teams[j].place == r.error.place
    ensures r.Success? ==>
              forall place :: (place in r.value <==> TeamFor(teams, place).Some?)
                              && (place in r.value ==> r.value[place] == TeamFor(teams, place).value)
  {
    var teamByPlace: map<uint32, WinningTeam> := map[];
    for i := 0 to |teams|
      invariant DistinctPlaces(teams[..i])
      invariant forall place :: (place in teamByPlace <==> TeamFor(teams[..i], place).Some?)
                                && (place in teamByPlace ==> teamByPlace[place] == TeamFor(teams[..i], place).value)
    {
      var t := teams[i];
      TeamForIn(teams[..i], t.place);
      if t.place in teamByPlace {
        ghost var k :| 0 <= k < i && teams[..i][k] == teamByPlace[t.place];
        assert teams[k].place == t.place;
        return Failure(DuplicateTeam(t.place));
      }
      assert teams[..i + 1][..i] == teams[..i];
      teamByPlace := teamByPlace[t.place := t];
    }
    assert teams[..|teams|] == teams;
    return Success(teamByPlace);
  }

  method CountMembers(teams: seq<WinningTeam>) returns (totalMembers: nat)
    ensures totalMembers == MemberCount(teams)
  {
    totalMembers := 0;
    for i := 0 to |teams|
      invariant totalMembers == MemberCount(teams[..i])
    {
      assert teams[..i + 1][..i] == teams[..i];
      totalMembers := totalMembers + |teams[i].members|;
    }
    assert teams[..|teams|] == teams;
  }

  method AllocateWinners(reward: int64, positions: seq<Position>, teams: seq<WinningTeam>)
    returns (r: Result<seq<Winner>, AllocationError>)
    ensures r.Success? <==> Accepts(reward, positions, teams)
    ensures r.Success? ==> r.value == Allocation(positions, teams)
    ensures r.Failure? ==> ErrorTrue(r.error, reward, positions, teams)
  {
    hide Sum, TeamValid, Lines, Lowest, TeamFor, MemberCount;
    if |positions| == 0 {
      return Failure(NoPositions);
    }
    var positionSum := SumPositions(positions);
    if positionSum.Failure? {
      return Failure(positionSum.error);
    }
    if positionSum.value != reward {
      return Failure(SumMismatch);
    }
    if |teams| != |positions| {
      return Failure(TeamCountMismatch);
    }
    var teamByPlace := IndexTeams(teams);
    if teamByPlace.Failure? {
      return Failure(teamByPlace.error);
    }
    var totalMembers := CountMembers(teams);
    if totalMembers > MAX_WINNERS_ALLOCATION {
      return Failure(TooManyWinners(totalMembers));
    }
    r := AllocatePositions(positions, teams, teamByPlace.value);
    if r.Success? {
      AllocationAddsUp(positions, teams);
      var total := SumWinners(r.value);
      if total != reward {
        assert false;
      }
    }
  }

  method AllocatePositions(positions: seq<Position>, ghost teams: seq<WinningTeam>,
                           teamByPlace: map<uint32, WinningTeam>)
    returns (r: Result<seq<Winner>, AllocationError>)
    requires MemberCount(teams) <= MAX_WINNERS_ALLOCATION
    requires forall place :: (place in teamByPlace <==> TeamFor(teams, place).Some?)
                             && (place in teamByPlace ==> teamByPlace[place] == TeamFor(teams, place).value)
    ensures r.Success? <==> forall i :: 0 <= i < |positions| ==> PositionValid(positions[i], teams)
    ensures r.Success? ==> r.value == Allocation(positions, teams)
    ensures r.Failure? ==>
              (r.error.NoWinningTeam? || r.error.NoMembers? || r.error.ShareNotPositive? || r.error.DuplicateOrdinal?
               || r.error.SharesNotComplete? || r.error.NotPayable?)
              && exists i :: 0 <= i < |positions| && PositionErrorTrue(r.error, positions[i], teams)
  {
    hide Sum, TeamValid, Payable, Lowest, TeamFor, MemberCount, TeamWinners;
    var winners: seq<Winner> := [];
    for i := 0 to |positions|
      invariant forall k :: 0 <= k < i ==> PositionValid(positions[k], teams)
      invariant winners == Allocation(positions[..i], teams)
    {
      var pos := positions[i];
      TeamForIn(teams, pos.place);
      if pos.place !in teamByPlace {
        assert !PositionValid(positions[i], teams) && PositionErrorTrue(NoWinningTeam(pos.place), positions[i], teams);
        return Failure(NoWinningTeam(pos.place));
      }
      var members := teamByPlace[pos.place].members;
      var error := CheckTeam(pos.place, members);
      if error.Some? {
        assert !PositionValid(positions[i], teams) && PositionErrorTrue(error.value, positions[i], teams);
        return Failure(error.value);
      }
      TeamHasMembers(members);
      var lines := AllocateTeam(pos, members);
      if lines.Failure? {
        assert !PositionValid(positions[i], teams) && PositionErrorTrue(lines.error, positions[i], teams);
        return Failure(lines.error);
      }
      assert positions[..i + 1][..i] == positions[..i];
      winners := winners + lines.value;
    }
    assert positions[..|positions|] == positions;
    return Success(winners);
  }

  method SumWinners(winners: seq<Winner>) returns (total: int64)
    ensures total == Wrap(Sum(WinnerAmounts(winners)))
  {
    hide Sum;
    var amounts := WinnerAmounts(winners);
    SumEmpty(amounts);
    total := 0;
    for i := 0 to |winners|
      invariant total == Wrap(Sum(amounts[..i]))
    {
      SumPrefixStep(amounts, i);
      WrapAdd(Sum(amounts[..i]), winners[i].amount);
      total := Wrap(total + winners[i].amount);
    }
    assert amounts[..|winners|] == amounts;
  }

  // ------------------------------------------------------------------
  // What an accepted allocation is worth
  // ------------------------------------------------------------------

  /**
   The lines add up to the position amounts, and to the reward exactly if those do not
   overflow: the reward itself is compared after wrap-around.
   */
  lemma AllocationPaysReward(reward: int64, positions: seq<Position>, teams: seq<WinningTeam>)
    requires Accepts(reward, positions, teams)
    ensures Sum(WinnerAmounts(Allocation(positions, teams))) == Sum(Amounts(positions))
    ensures Sum(WinnerAmounts(Allocation(positions, teams))) == reward <==> Sum(Amounts(positions)) <= INT64_MAX
  {
    hide PositionValid, Wrap;
    AllocationAddsUp(positions, teams);
    SumBounds(Amounts(positions), 0, INT64_MAX);
    WrapIdentity(Sum(Amounts(positions)));
  }

  lemma WrapIdentity(x: int)
    requires x >= 0
    ensures Wrap(x) == x <==> x <= INT64_MAX
  {}

  // ------------------------------------------------------------------
  // How many lines
  // ------------------------------------------------------------------

  predicate DistinctPositions(positions: seq<Position>)
  {
    forall i, j :: 0 <= i < j < |positions| ==> positions[i].place != positions[j].place
  }

  lemma WithoutTeam(teams: seq<WinningTeam>, j: nat)
    requires DistinctPlaces(teams) && j < |teams|
    ensures MemberCount(teams) == MemberCount(teams[..j] + teams[j + 1..]) + |teams[j].members|
    ensures forall place :: place != teams[j].place ==>
              TeamFor(teams[..j] + teams[j + 1..], place) == TeamFor(teams, place)
  {
    hide TeamFor, MemberCount, DistinctPlaces;
    CountWithout(teams, j);
    forall place | place != teams[j].place
      ensures TeamFor(teams[..j] + teams[j + 1..], place) == TeamFor(teams, place)
    {
      TeamForWithout(teams, j, place);
    }
  }

  lemma {:induction false} TeamForWithout(teams: seq<WinningTeam>, j: nat, place: uint32)
    requires j < |teams| && place != teams[j].place
    ensures TeamFor(teams[..j] + teams[j + 1..], place) == TeamFor(teams, place)
    decreases |teams|
  {
    var n := |teams| - 1;
    var rest := teams[..j] + teams[j + 1..];
    if j < n {
      TeamForWithout(teams[..n], j, place);
      assert rest[..|rest| - 1] == teams[..n][..j] + teams[..n][j + 1..];
    } else {
      assert rest == teams[..n];
    }
  }

  lemma {:induction false} CountWithout(teams: seq<WinningTeam>, j: nat)
    requires j < |teams|
    ensures MemberCount(teams) == MemberCount(teams[..j] + teams[j + 1..]) + |teams[j].members|
    decreases |teams|
  {
    var n := |teams| - 1;
    var rest := teams[..j] + teams[j + 1..];
    if j < n {
      CountWithout(teams[..n], j);
      assert rest[..|rest| - 1] == teams[..n][..j] + teams[..n][j + 1..];
    } else {
      assert rest == teams[..n];
    }
  }

  lemma {:induction false} AllocationDependsOn(positions: seq<Position>, teams: seq<WinningTeam>,
                                               rest: seq<WinningTeam>)
    requires forall i :: 0 <= i < |positions| ==>
              TeamFor(rest, positions[i].place) == TeamFor(teams, positions[i].place)
    ensures Allocation(positions, rest) == Allocation(positions, teams)
  {
    hide TeamFor, TeamWinners;
    if positions != [] {
      AllocationDependsOn(positions[..|positions| - 1], teams, rest);
    }
  }

  /** With distinct places no member has two lines. */
  lemma {:induction false} OneLineEach(positions: seq<Position>, teams: seq<WinningTeam>)
    requires DistinctPositions(positions) && DistinctPlaces(teams)
    ensures |Allocation(positions, teams)| <= MemberCount(teams)
    decreases |positions|
  {
    hide TeamFor, MemberCount;
    if positions != [] {
      var n := |positions| - 1;
      var place := positions[n].place;
      TeamForIn(teams, place);
      if TeamFor(teams, place).None? {
        OneLineEach(positions[..n], teams);
      } else {
        var j :| 0 <= j < |teams| && teams[j] == TeamFor(teams, place).value;
        var rest := teams[..j] + teams[j + 1..];
        WithoutTeam(teams, j);
        AllocationDependsOn(positions[..n], teams, rest);
        OneLineEach(positions[..n], rest);
      }
    }
  }

  /** Accepted input with distinct position places gives at most twenty-five lines. */
  lemma AllocationFew(reward: int64, positions: seq<Position>, teams: seq<WinningTeam>)
    requires Accepts(reward, positions, teams) && DistinctPositions(positions)
    ensures |Allocation(positions, teams)| <= MAX_WINNERS_ALLOCATION
  {
    OneLineEach(positions, teams);
  }
}
