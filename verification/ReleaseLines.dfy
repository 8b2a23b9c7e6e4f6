/**
 Line by line, who is paid what by an accepted build: every member of the team assigned to a
 prize has exactly one row, in order, with that member's own share of that prize.
 */
module ReleaseLines {
  import opened Wrappers
  import opened Int64
  import opened EscrowState
  import opened Allocate
  import opened AmountText
  import opened ReleaseAllocation
  import opened ReleaseHandler
  import Trustline
  import WalletCheck

  // ------------------------------------------------------------------
  // One prize
  // ------------------------------------------------------------------

  /** Some other member has a lower ordinal. */
  predicate Outranked(members: seq<Member>, j: nat)
    requires j < |members|
  {
    exists i :: 0 <= i < |members| && members[i].ordinal < members[j].ordinal
  }

  /** The line is the member's share in basis points, rounded down. */
  predicate IsShare(line: int, amount: int, share: int)
  {
    line * 10000 <= amount * share < (line + 1) * 10000
  }

  lemma IdealIsShare(amount: int64, share: int32)
    requires amount > 0 && share > 0
    ensures IsShare(Ideal(amount, share), amount, share)
  {
    assert amount * share >= 0;
  }

  /** Who is not outranked is the member of lowest ordinal. */
  lemma LowestIs(members: seq<Member>, j: nat)
    requires members != [] && DistinctOrdinals(members) && j < |members|
    ensures Outranked(members, j) <==> j != Lowest(members)
  {
    var low := Lowest(members);
    if j != low {
      assert members[low].ordinal <= members[j].ordinal && members[low].ordinal != members[j].ordinal;
      assert members[low].ordinal < members[j].ordinal;
    }
  }

  /**
   What one member is paid of a prize: the rounded share while its product fits in 64 bits;
   for the lowest ordinal, while the other products fit, the rounded share and less than
   one unit per member on top.
   */
  ghost predicate PaidShare(line: int, amount: int64, members: seq<Member>, j: nat)
    requires j < |members|
  {
    if Outranked(members, j) then amount * members[j].share <= 0x7fff_ffff_ffff_ffff ==>
        IsShare(line, amount, members[j].share)
    else
      (forall i :: 0 <= i < |members| && i != j ==> amount * members[i].share <= 0x7fff_ffff_ffff_ffff) ==>
        exists base :: IsShare(base, amount, members[j].share) && base <= line < base + |members|
  }

  lemma LineIsShare(amount: int64, members: seq<Member>, j: nat)
    requires amount > 0 && TeamValid(members) && Payable(amount, members) && |members| <= 25 && j < |members|
    ensures PaidShare(Lines(amount, members)[j], amount, members, j)
  {
    hide Sum, Floor64, Wrap, Ideal, Lines, Lowest, IsShare, Outranked, Payable;
    LowestIs(members, j);
    IdealIsShare(amount, members[j].share);
    if Outranked(members, j) {
      LinesAddUp(amount, members);
      FloorExactIff(amount, members[j].share);
    } else if ProductsFit(amount, members) {
      ApportionedIff(amount, members);
      assert IsShare(Ideal(amount, members[j].share), amount, members[j].share);
    }
  }

  // ------------------------------------------------------------------
  // All prizes
  // ------------------------------------------------------------------

  /** How many lines come before those of the k-th position. */
  function Offset(positions: seq<Position>, teams: seq<WinningTeam>, k: nat): nat
    requires k <= |positions|
  {
    if k == 0 then 0
    else
      var team := TeamFor(teams, positions[k - 1].place);
      Offset(positions, teams, k - 1) + if team.Some? then |team.value.members| else 0
  }

  lemma {:induction false} OffsetPrefix(positions: seq<Position>, teams: seq<WinningTeam>, n: nat, k: nat)
    requires k <= n <= |positions|
    ensures Offset(positions[..n], teams, k) == Offset(positions, teams, k)
  {
    hide TeamFor;
    if k > 0 {
      OffsetPrefix(positions, teams, n, k - 1);
    }
  }

  lemma {:induction false} AllocationLength(positions: seq<Position>, teams: seq<WinningTeam>)
    ensures |Allocation(positions, teams)| == Offset(positions, teams, |positions|)
  {
    hide TeamFor, TeamWinners;
    if positions != [] {
      var n := |positions| - 1;
      AllocationLength(positions[..n], teams);
      OffsetPrefix(positions, teams, n, n);
    }
  }

  lemma {:induction false} OffsetGrows(positions: seq<Position>, teams: seq<WinningTeam>, k: nat, n: nat)
    requires k <= n <= |positions|
    ensures Offset(positions, teams, k) <= Offset(positions, teams, n)
  {
    hide TeamFor;
    if k < n {
      OffsetGrows(positions, teams, k, n - 1);
    }
  }

  /** The line of one member of one team. */
  lemma {:induction false} LineAt(positions: seq<Position>, teams: seq<WinningTeam>, k: nat, j: nat)
    requires k < |positions| && TeamFor(teams, positions[k].place).Some?
    requires j < |TeamFor(teams, positions[k].place).value.members|
    ensures var w, at, members := Allocation(positions, teams), Offset(positions, teams, k) + j,
                                  TeamFor(teams, positions[k].place).value.members;
      at < |w| && w[at] == Winner(positions[k].place, Lines(positions[k].amount, members)[j], members[j].address)
  {
    hide TeamFor, Lines;
    var n := |positions| - 1;
    var before := Allocation(positions[..n], teams);
    if k < n {
      LineAt(positions[..n], teams, k, j);
      OffsetPrefix(positions, teams, n, k);
    } else {
      AllocationLength(positions[..n], teams);
      OffsetPrefix(positions, teams, n, n);
    }
  }

  // ------------------------------------------------------------------
  // Rows
  // ------------------------------------------------------------------

  /** The number of rows of the first k prizes: one per member of each assigned team. */
  function RowsBefore(event: EventForRelease, a: seq<Assignment>, k: nat): nat
    requires k <= |event.prizes|
  {
    if k == 0 then 0
    else RowsBefore(event, a, k - 1) + |AssignedTeam(event, a, event.prizes[k - 1].rank).members|
  }

  lemma {:induction false} RowsAreOffset(event: EventForRelease, a: seq<Assignment>, reward: int64, k: nat)
    requires Built(event, a, reward) && k <= |event.prizes|
    ensures RowsBefore(event, a, k) == Offset(PositionsOf(event.prizes), TeamsOf(event, a), k)
  {
    hide TeamFor, AssignedTeam, Built;
    if k > 0 {
      RowsAreOffset(event, a, reward, k - 1);
      AcceptedTeam(event, a, reward, k - 1);
    }
  }

  /** The assignment to a prize, and the team that it names. */
  predicate WonBy(event: EventForRelease, a: seq<Assignment>, k: nat, x: nat, t: nat)
  {
    && k < |event.prizes| && x < |a| && t < |event.teams|
    && a[x].rank == event.prizes[k].rank && event.teams[t].id == a[x].teamId
  }

  lemma WinnerOf(event: EventForRelease, a: seq<Assignment>, reward: int64, k: nat) returns (x: nat, t: nat)
    requires Built(event, a, reward) && k < |event.prizes|
    ensures WonBy(event, a, k, x, t) && AssignedTeam(event, a, event.prizes[k].rank) == event.teams[t]
  {
    hide TeamFor, Accepts, TeamById, TeamIdOf;
    assert Assigns(a, event.prizes[k].rank);
    x := AssignmentFound(a, event.prizes[k].rank);
    assert HasTeam(event.teams, a[x].teamId);
    t := TeamFound(event.teams, a[x].teamId);
  }

  /** The row of the j-th member of team t for prize k. */
  ghost predicate RowOf(event: EventForRelease, k: nat, t: nat, j: nat, row: ReleaseWinner)
    requires AmountsReadable(event.prizes)
    requires k < |event.prizes| && t < |event.teams| && j < |event.teams[t].members|
  {
    var prize, team := event.prizes[k], event.teams[t];
    && row.prizeId == prize.id && row.rank == prize.rank
    && row.teamId == team.id && row.memberId == team.members[j].id && row.address == team.members[j].wallet
    && row.stroops > 0
    && TeamShare(row.stroops, AmountToStroops(prize.amount).value, team.members, j)
  }

  /** The same of a team of the event: its members' own shares and ordinals decide. */
  ghost predicate TeamShare(line: int, amount: int64, members: seq<TeamMember>, j: nat)
    requires j < |members|
  {
    if exists i :: 0 <= i < |members| && members[i].ordinal < members[j].ordinal
    then
      amount * members[j].share <= 0x7fff_ffff_ffff_ffff ==> IsShare(line, amount, members[j].share)
    else
      (forall i :: 0 <= i < |members| && i != j ==> amount * members[i].share <= 0x7fff_ffff_ffff_ffff) ==>
        exists base :: IsShare(base, amount, members[j].share) && base <= line < base + |members|
  }

  lemma ShareOfTeam(line: int, amount: int64, team: Team, j: nat)
    requires j < |team.members| && PaidShare(line, amount, MembersOf(team), j)
    ensures TeamShare(line, amount, team.members, j)
  {
    hide IsShare;
    var m := MembersOf(team);
    if i :| 0 <= i < |m| && team.members[i].ordinal < team.members[j].ordinal {
      assert m[i].ordinal < m[j].ordinal;
    } else {
      assert !Outranked(m, j);
    }
  }

  /** One row per member, in order. */
  ghost predicate PrizeRows(event: EventForRelease, k: nat, t: nat, block: seq<ReleaseWinner>)
    requires AmountsReadable(event.prizes) && k < |event.prizes| && t < |event.teams|
  {
    && |block| == |event.teams[t].members|
    && forall j :: 0 <= j < |block| ==> RowOf(event, k, t, j, block[j])
  }

  lemma LinePaid(event: EventForRelease, a: seq<Assignment>, reward: int64, k: nat, t: nat, j: nat)
    requires Built(event, a, reward) && k < |event.prizes| && t < |event.teams| && j < |event.teams[t].members|
    requires AssignedTeam(event, a, event.prizes[k].rank) == event.teams[t]
    ensures var w, at := BuiltWinners(event, a), RowsBefore(event, a, k) + j;
      && at < |w| && w[at].place == ToUint32(event.prizes[k].rank)
      && w[at].address == event.teams[t].members[j].wallet && w[at].amount > 0
      && PaidShare(w[at].amount, AmountToStroops(event.prizes[k].amount).value, MembersOf(event.teams[t]), j)
  {
    hide TeamFor, Lines, Lowest, PaidShare, MemberCount, Sum, DistinctOrdinals, AmountToStroops, AssignedTeam,
         Bijection,
         RowsBefore, Offset, Allocation;
    var p, teams := PositionsOf(event.prizes), TeamsOf(event, a);
    RowsAreOffset(event, a, reward, k);
    AcceptedTeam(event, a, reward, k);
    assert PositionValid(p[k], teams);
    TeamForIn(teams, p[k].place);
    LineAt(p, teams, k, j);
    LineIsShare(p[k].amount, teams[k].members, j);
  }

  /**
   Every row of an accepted build: the members of the assigned team in order, each with the
   ids of prize, team and member, the member's wallet and the member's share of the prize.
   */
  lemma RowsAre(event: EventForRelease, a: seq<Assignment>, rows: seq<ReleaseWinner>, k: nat)
    returns (x: nat, t: nat)
    requires Accepted(event, a) && RowsFor(event, a, rows) && UniqueAddresses(event) && NaturalRanks(event.prizes)
    requires k < |event.prizes|
    ensures WonBy(event, a, k, x, t)
    ensures RowsBefore(event, a, k + 1) == RowsBefore(event, a, k) + |event.teams[t].members| <= |rows|
    ensures PrizeRows(event, k, t, rows[RowsBefore(event, a, k)..RowsBefore(event, a, k + 1)])
    ensures |rows| == RowsBefore(event, a, |event.prizes|)
  {
    hide PaidShare, TeamShare, Built, BuiltWinners, MemberAt, PrizeIdOf, AmountToStroops, AssignedTeam, MembersOf;
    var reward := RewardOf(event);
    x, t := WinnerOf(event, a, reward, k);
    var s, winners := RowsBefore(event, a, k), BuiltWinners(event, a);
    assert RowsBefore(event, a, k + 1) == s + |event.teams[t].members|;
    LengthIs(event, a, reward);
    RowsGrow(event, a, k + 1, |event.prizes|);
    assert DistinctRanks(event.prizes) by { RanksDistinct(event, a, reward); }
    var block := rows[s..RowsBefore(event, a, k + 1)];
    forall j | 0 <= j < |event.teams[t].members|
      ensures RowOf(event, k, t, j, block[j])
    {
      LinePaid(event, a, reward, k, t, j);
      ShareOfTeam(winners[s + j].amount, AmountToStroops(event.prizes[k].amount).value, event.teams[t], j);
      MemberFound(event.teams, t, j);
      PrizeFound(event.prizes, k);
      assert Mapped(event, winners[s + j], rows[s + j]);
      NaturalRank(event.prizes, k);
    }
  }

  lemma RanksDistinct(event: EventForRelease, a: seq<Assignment>, reward: int64)
    requires Built(event, a, reward)
    ensures DistinctRanks(event.prizes)
  {}

  lemma NaturalRank(prizes: seq<Prize>, k: nat)
    requires NaturalRanks(prizes) && k < |prizes|
    ensures ToUint32(prizes[k].rank) == prizes[k].rank
  {}

  lemma LengthIs(event: EventForRelease, a: seq<Assignment>, reward: int64)
    requires Built(event, a, reward)
    ensures |BuiltWinners(event, a)| == RowsBefore(event, a, |event.prizes|)
  {
    RowsAreOffset(event, a, reward, |event.prizes|);
    hide Built, Offset, RowsBefore, Allocation;
    AllocationLength(PositionsOf(event.prizes), TeamsOf(event, a));
  }

  lemma {:induction false} RowsGrow(event: EventForRelease, a: seq<Assignment>, k: nat, n: nat)
    requires k <= n <= |event.prizes|
    ensures RowsBefore(event, a, k) <= RowsBefore(event, a, n)
  {
    hide AssignedTeam;
    if k < n {
      RowsGrow(event, a, k, n - 1);
    }
  }

  /** The rows of one prize add up to it. */
  lemma PrizeAddsUp(event: EventForRelease, a: seq<Assignment>, rows: seq<ReleaseWinner>, k: nat)
    requires Accepted(event, a) && RowsFor(event, a, rows) && k < |event.prizes|
    ensures RowsBefore(event, a, k) <= RowsBefore(event, a, k + 1) <= |rows|
    ensures SumOfStroops(rows[RowsBefore(event, a, k)..RowsBefore(event, a, k + 1)])
         == AmountToStroops(event.prizes[k].amount).value
  {
    var reward := RewardOf(event);
    hide Sum, AmountToStroops, RowsBefore, BuiltWinners, RowsFor, Built, SumOfStroops, WinnerAmounts, PositionsOf;
    LengthIs(event, a, reward);
    RowsGrow(event, a, k, k + 1);
    RowsGrow(event, a, k + 1, |event.prizes|);
    TeamLines(event, a, reward, k);
    RowsJoined(event, a, rows);
    SliceSum(rows, BuiltWinners(event, a), RowsBefore(event, a, k), RowsBefore(event, a, k + 1));
  }

  lemma SliceSum(rows: seq<ReleaseWinner>, winners: seq<Winner>, s: nat, e: nat)
    requires |rows| == |winners| && forall i :: 0 <= i < |rows| ==> rows[i].stroops == winners[i].amount
    requires s <= e <= |rows|
    ensures SumOfStroops(rows[s..e]) == Sum(WinnerAmounts(winners[s..e]))
  {
    hide Sum, SumOfStroops;
    StroopsSum(rows[s..e], WinnerAmounts(winners[s..e]));
  }

  lemma RowsJoined(event: EventForRelease, a: seq<Assignment>, rows: seq<ReleaseWinner>)
    requires AmountsReadable(event.prizes) && RowsFor(event, a, rows)
    ensures var winners := BuiltWinners(event, a);
      |rows| == |winners| && forall i :: 0 <= i < |rows| ==> rows[i].stroops == winners[i].amount
  {
    hide BuiltWinners, MemberAt, PrizeIdOf;
    var winners := BuiltWinners(event, a);
    forall i | 0 <= i < |rows|
      ensures rows[i].stroops == winners[i].amount
    {
      assert Mapped(event, winners[i], rows[i]);
    }
  }

  lemma TeamLines(event: EventForRelease, a: seq<Assignment>, reward: int64, k: nat)
    requires Built(event, a, reward) && k < |event.prizes|
    ensures var s, e := RowsBefore(event, a, k), RowsBefore(event, a, k + 1);
      && s <= e <= |BuiltWinners(event, a)|
      && Sum(WinnerAmounts(BuiltWinners(event, a)[s..e])) == AmountToStroops(event.prizes[k].amount).value
  {
    hide Sum, Lines, Lowest, DistinctOrdinals, Bijection, TeamFor, AmountToStroops, MemberCount, AssignedTeam,
         MembersOf,
         RowsBefore, Offset, Allocation, Payable;
    var p, teams := PositionsOf(event.prizes), TeamsOf(event, a);
    RowsAreOffset(event, a, reward, k);
    RowsAreOffset(event, a, reward, k + 1);
    AcceptedTeam(event, a, reward, k);
    assert PositionValid(p[k], teams);
    PositionAddsUp(p[k], teams);
    OffsetNext(p, teams, k);
    AllocationLength(p, teams);
    OffsetGrows(p, teams, k + 1, |p|);
    var s, e, members := Offset(p, teams, k), Offset(p, teams, k + 1), teams[k].members;
    var w := Allocation(p, teams);
    forall j | 0 <= j < |members|
      ensures w[s..e][j] == TeamWinners(p[k], members)[j]
    {
      LineAt(p, teams, k, j);
    }
    assert w[s..e] == TeamWinners(p[k], members);
  }

  lemma OffsetNext(positions: seq<Position>, teams: seq<WinningTeam>, k: nat)
    requires k < |positions| && TeamFor(teams, positions[k].place).Some?
    ensures Offset(positions, teams, k + 1)
         == Offset(positions, teams, k) + |TeamFor(teams, positions[k].place).value.members|
  {
    hide TeamFor;
  }

  function SumOfStroops(rows: seq<ReleaseWinner>): int
  {
    if rows == [] then 0 else rows[0].stroops + SumOfStroops(rows[1..])
  }

  lemma {:induction false} StroopsSum(rows: seq<ReleaseWinner>, amounts: seq<int>)
    requires |rows| == |amounts| && forall i :: 0 <= i < |rows| ==> rows[i].stroops == amounts[i]
    ensures SumOfStroops(rows) == Sum(amounts)
  {
    if rows != [] {
      StroopsSum(rows[1..], amounts[1..]);
      SumConcat([amounts[0]], amounts[1..]);
      SumSingle(amounts[0]);
      assert [amounts[0]] + amounts[1..] == amounts;
    }
  }

  // ------------------------------------------------------------------
  // Acceptance
  // ------------------------------------------------------------------

  /** Members with positive shares that make up ten thousand basis points, and no ordinal twice. */
  ghost predicate Complete(members: seq<Member>)
  {
    && members != [] && (forall i :: 0 <= i < |members| ==> members[i].share >= 1)
    && (forall i, j :: 0 <= i < j < |members| ==> members[i].ordinal != members[j].ordinal)
    && SumOfShares(members) == 10000
  }

  function SumOfShares(members: seq<Member>): int
  {
    if members == [] then 0 else members[0].share + SumOfShares(members[1..])
  }

  lemma {:induction false} SharesSum(members: seq<Member>)
    ensures Sum(Shares(members)) == SumOfShares(members)
  {
    if members != [] {
      SharesSum(members[1..]);
      var shares := Shares(members);
      assert shares[1..] == Shares(members[1..]);
      SumConcat([shares[0]], shares[1..]);
      SumSingle(shares[0]);
      assert [shares[0]] + shares[1..] == shares;
    }
  }

  /** One position: exactly one team has its place, is complete, and every line is positive. */
  ghost predicate Funded(p: Position, teams: seq<WinningTeam>)
  {
    exists t :: 0 <= t < |teams| && teams[t].place == p.place && Complete(teams[t].members)
                && forall j :: 0 <= j < |teams[t].members| ==> Lines(p.amount, teams[t].members)[j] > 0
  }

  lemma FundedIff(p: Position, teams: seq<WinningTeam>)
    requires DistinctPlaces(teams)
    ensures PositionValid(p, teams) <==> Funded(p, teams)
  {
    hide Lines, TeamFor;
    TeamForIn(teams, p.place);
    if TeamFor(teams, p.place).Some? {
      var t :| 0 <= t < |teams| && teams[t] == TeamFor(teams, p.place).value;
      SharesSum(teams[t].members);
      forall t' | 0 <= t' < |teams| && teams[t'].place == p.place
        ensures t' == t
      {}
    }
  }

  /** What the allocator accepts: at most 25 members in all, and the reward the wrapped sum of positive amounts. */
  lemma AcceptsIff(reward: int64, positions: seq<Position>, teams: seq<WinningTeam>)
    ensures Accepts(reward, positions, teams) <==>
              && positions != [] && |teams| == |positions|
              && (forall i :: 0 <= i < |positions| ==> positions[i].amount >= 1)
              && Wrap(Sum(Amounts(positions))) == reward
              && (forall i, j :: 0 <= i < j < |teams| ==> teams[i].place != teams[j].place)
              && MemberCount(teams) <= 25
              && forall i :: 0 <= i < |positions| ==> Funded(positions[i], teams)
  {
    hide PositionValid, Funded, MemberCount, Sum, Wrap;
    if DistinctPlaces(teams) {
      forall i | 0 <= i < |positions|
        ensures PositionValid(positions[i], teams) <==> Funded(positions[i], teams)
      {
        FundedIff(positions[i], teams);
      }
    }
  }

  // ------------------------------------------------------------------
  // Receiving
  // ------------------------------------------------------------------

  /** The first line of the account in the asset is authorised and has room for the amount. */
  predicate CanReceive(lookup: Trustline.Lookup, asset: Trustline.Asset, amount: int)
  {
    lookup.Balances?
    && exists i :: 0 <= i < |lookup.lines| && WalletCheck.FirstAt(lookup.lines, asset, i)
                   && lookup.lines[i].authorized && lookup.lines[i].headroom >= amount
  }

  lemma ReceivableIff(src: Trustline.AccountSource, asset: Trustline.Asset, a: string, amount: int)
    ensures Trustline.HasRoom(src, asset, a, amount) <==>
              WalletCheck.WellFormed(a) && CanReceive(src(a), asset, amount)
  {
    WalletCheck.WellFormedIff(a);
    if src(a).Balances? {
      var lines := src(a).lines;
      WalletCheck.NoLine(lines, asset);
      if i :| 0 <= i < |lines| && WalletCheck.FirstAt(lines, asset, i) {
        WalletCheck.FirstLineAt(lines, asset, i);
      } else {
        NoFirst(lines, asset);
      }
    }
  }

  lemma {:induction false} NoFirst(lines: seq<Trustline.Balance>, asset: Trustline.Asset)
    requires forall i :: 0 <= i < |lines| ==> !WalletCheck.FirstAt(lines, asset, i)
    ensures forall k :: 0 <= k < |lines| ==> !WalletCheck.InAsset(lines[k], asset)
  {
    hide WalletCheck.InAsset;
    var n := 0;
    while n < |lines|
      invariant n <= |lines|
      invariant forall k :: 0 <= k < n ==> !WalletCheck.InAsset(lines[k], asset)
    {
      assert !WalletCheck.FirstAt(lines, asset, n);
      n := n + 1;
    }
  }

  /** The capacity check of an accepted build passes exactly if every row's wallet can receive what the row says. */
  lemma RowsReceivable(event: EventForRelease, a: seq<Assignment>, rows: seq<ReleaseWinner>, strkey: Address -> string,
                       src: Trustline.AccountSource, asset: Trustline.Asset)
    requires Accepted(event, a) && UniqueAddresses(event) && RowsFor(event, a, rows) && ReleaseHandler.Injective(strkey)
    ensures AmountsFit(rows)
    ensures Trustline.RequireOutcome(src, asset, PayoutsOf(rows, strkey)) == Trustline.Accepted <==>
              forall i :: 0 <= i < |rows| ==>
                && WalletCheck.WellFormed(strkey(rows[i].address))
                && CanReceive(src(strkey(rows[i].address)), asset, rows[i].stroops)
  {
    hide Accepted, RowsFor, ReleaseHandler.Injective, UniqueAddresses, Trustline.RequireOutcome, Trustline.HasRoom,
         Trustline.Covered,
         Trustline.NeedOf, CanReceive, WalletCheck.WellFormed;
    CapacityExact(event, a, rows, strkey, src, asset);
    var payouts := PayoutsOf(rows, strkey);
    PayoutsDistinct(event, a, rows, strkey);
    RowsPositive(event, a, rows);
    CoveredOneByOne(src, asset, payouts);
    forall i | 0 <= i < |rows|
      ensures Trustline.HasRoom(src, asset, payouts[i].address, payouts[i].stroops) <==>
                && WalletCheck.WellFormed(strkey(rows[i].address))
                && CanReceive(src(strkey(rows[i].address)), asset, rows[i].stroops)
    {
      ReceivableIff(src, asset, payouts[i].address, payouts[i].stroops);
    }
  }

  lemma RowsPositive(event: EventForRelease, a: seq<Assignment>, rows: seq<ReleaseWinner>)
    requires Accepted(event, a) && RowsFor(event, a, rows)
    ensures forall i :: 0 <= i < |rows| ==> rows[i].stroops > 0
  {
    hide RowsFor, BuiltWinners;
    RowsJoined(event, a, rows);
    LinesPositive(event, a);
  }

  lemma LinesPositive(event: EventForRelease, a: seq<Assignment>)
    requires Accepted(event, a)
    ensures forall i :: 0 <= i < |BuiltWinners(event, a)| ==> BuiltWinners(event, a)[i].amount > 0
  {
    hide PositionValid, MemberCount, Sum, Allocation, Bijection;
    AllocationAddsUp(PositionsOf(event.prizes), TeamsOf(event, a));
  }

  lemma PayoutsDistinct(event: EventForRelease, a: seq<Assignment>, rows: seq<ReleaseWinner>, strkey: Address -> string)
    requires Accepted(event, a) && UniqueAddresses(event) && RowsFor(event, a, rows) && ReleaseHandler.Injective(strkey)
    requires AmountsFit(rows)
    ensures Trustline.DistinctAddresses(PayoutsOf(rows, strkey))
  {
    hide Built, BuiltWinners, MemberAt, PrizeIdOf;
    WinnersDistinct(event, a, RewardOf(event));
    var payouts, winners := PayoutsOf(rows, strkey), BuiltWinners(event, a);
    forall i, j | 0 <= i < j < |payouts|
      ensures payouts[i].address != payouts[j].address
    {
      assert Mapped(event, winners[i], rows[i]) && Mapped(event, winners[j], rows[j]);
    }
  }

  /** With one positive payout per address each need is the amount of one payout. */
  lemma CoveredOneByOne(src: Trustline.AccountSource, asset: Trustline.Asset, payouts: seq<Trustline.Payout>)
    requires Trustline.DistinctAddresses(payouts) && forall i :: 0 <= i < |payouts| ==> payouts[i].stroops > 0
    ensures Trustline.Covered(src, asset, payouts) <==>
              forall i :: 0 <= i < |payouts| ==> Trustline.HasRoom(src, asset, payouts[i].address, payouts[i].stroops)
  {
    hide Trustline.HasRoom, Trustline.NeedOf;
    forall i | 0 <= i < |payouts|
      ensures Trustline.NeedOf(payouts, payouts[i].address) == payouts[i].stroops
      ensures Trustline.Listed(payouts, payouts[i].address)
    {
      NeedOfOne(payouts, i);
    }
  }

  lemma {:induction false} NeedOfOne(payouts: seq<Trustline.Payout>, i: nat)
    requires Trustline.DistinctAddresses(payouts) && i < |payouts| && payouts[i].stroops > 0
    ensures Trustline.NeedOf(payouts, payouts[i].address) == payouts[i].stroops
  {
    var n := |payouts| - 1;
    if i < n {
      NeedOfOne(payouts[..n], i);
    } else {
      Trustline.SingleNeeds(payouts[..n], payouts[n].address);
    }
  }
}
