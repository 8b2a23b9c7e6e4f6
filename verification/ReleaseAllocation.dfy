/**
 From a judge's assignments to the winners list of a release, and back from that list
 to prizes, teams and members.
 */
module ReleaseAllocation {
  import opened Wrappers
  import opened Collections
  import opened Int64
  import opened EscrowState
  import opened EscrowSteps
  import opened Allocate
  import opened AmountText

  datatype Prize = Prize(id: string, rank: int32, amount: string)
  datatype TeamMember = TeamMember(id: string, wallet: Address, ordinal: int32, share: int32)
  datatype Team = Team(id: string, members: seq<TeamMember>)
  datatype EventForRelease = EventForRelease(prizes: seq<Prize>, teams: seq<Team>)
  datatype Assignment = Assignment(rank: int32, teamId: string)

  datatype ReleaseWinner = ReleaseWinner(prizeId: string, teamId: string, memberId: string, address: Address,
                                         stroops: i128, rank: int)

  datatype AssignmentError = UnknownRank(rank: int32) | RankTwice(rank: int32) | UnknownTeam(teamId: string)
                           | TeamTwice(teamId: string) | RanksUnassigned

  // ------------------------------------------------------------------
  // Assignments
  // ------------------------------------------------------------------

  predicate HasRank(prizes: seq<Prize>, rank: int)
  {
    exists i :: 0 <= i < |prizes| && prizes[i].rank == rank
  }

  predicate HasTeam(teams: seq<Team>, id: string)
  {
    exists i :: 0 <= i < |teams| && teams[i].id == id
  }

  predicate DistinctRanks(prizes: seq<Prize>)
  {
    forall i, j :: 0 <= i < j < |prizes| ==> prizes[i].rank != prizes[j].rank
  }

  /** No rank and no team occurs twice. */
  predicate Injective(a: seq<Assignment>)
  {
    forall i, j :: 0 <= i < j < |a| ==> a[i].rank != a[j].rank && a[i].teamId != a[j].teamId
  }

  /** Every assignment names a prize and a team of the event. */
  predicate Known(a: seq<Assignment>, event: EventForRelease)
  {
    forall i :: 0 <= i < |a| ==> HasRank(event.prizes, a[i].rank) && HasTeam(event.teams, a[i].teamId)
  }

  predicate Assigns(a: seq<Assignment>, rank: int)
  {
    exists i :: 0 <= i < |a| && a[i].rank == rank
  }

  /** A bijection from the prize ranks of the event to distinct teams of the event. */
  predicate Bijection(a: seq<Assignment>, event: EventForRelease)
  {
    && Known(a, event) && Injective(a) && DistinctRanks(event.prizes)
    && forall i :: 0 <= i < |event.prizes| ==> Assigns(a, event.prizes[i].rank)
  }

  ghost function RanksOf(prizes: seq<Prize>): (s: set<int>)
    ensures forall r :: r in s <==> HasRank(prizes, r)
    ensures |s| <= |prizes|
    ensures |s| == |prizes| <==> DistinctRanks(prizes)
  {
    if prizes == [] then {}
    else
      var n := |prizes| - 1;
      var before := RanksOf(prizes[..n]);
      LastRank(prizes);
      before + {prizes[n].rank as int}
  }

  lemma LastRank(prizes: seq<Prize>)
    requires prizes != []
    ensures forall r :: HasRank(prizes, r) <==> HasRank(prizes[..|prizes| - 1], r) || prizes[|prizes| - 1].rank == r
    ensures DistinctRanks(prizes) <==>
              DistinctRanks(prizes[..|prizes| - 1]) && !HasRank(prizes[..|prizes| - 1], prizes[|prizes| - 1].rank)
  {
    var n := |prizes| - 1;
    forall r
      ensures HasRank(prizes, r) <==> HasRank(prizes[..n], r) || prizes[n].rank == r
    {
      if HasRank(prizes, r) {
        var i :| 0 <= i < |prizes| && prizes[i].rank == r;
        assert i < n ==> prizes[..n][i].rank == r;
      }
      if HasRank(prizes[..n], r) {
        var i :| 0 <= i < n && prizes[..n][i].rank == r;
        assert prizes[i].rank == r;
      }
    }
    if HasRank(prizes[..n], prizes[n].rank) {
      var i :| 0 <= i < n && prizes[..n][i].rank == prizes[n].rank;
      assert !DistinctRanks(prizes) by { assert prizes[i].rank == prizes[n].rank; }
    }
    if !HasRank(prizes[..n], prizes[n].rank) {
      forall i | 0 <= i < n
        ensures prizes[i].rank != prizes[n].rank
      {
        assert prizes[..n][i] == prizes[i];
      }
    }
  }

  ghost function AssignedRanks(a: seq<Assignment>): (s: set<int>)
    ensures forall r :: r in s <==> Assigns(a, r)
  {
    set i | 0 <= i < |a| :: a[i].rank as int
  }

  lemma {:induction false} AssignedCount(a: seq<Assignment>)
    requires Injective(a)
    ensures |AssignedRanks(a)| == |a|
  {
    if a != [] {
      var n := |a| - 1;
      AssignedCount(a[..n]);
      LastAssigned(a);
    }
  }

  lemma LastAssigned(a: seq<Assignment>)
    requires Injective(a) && a != []
    ensures var n := |a| - 1;
      && AssignedRanks(a) == AssignedRanks(a[..n]) + {a[n].rank as int}
      && a[n].rank as int !in AssignedRanks(a[..n])
  {
    var n := |a| - 1;
    forall i | 0 <= i < n
      ensures a[..n][i].rank != a[n].rank
    {
      assert a[i].rank != a[n].rank;
    }
  }

  /** Counting suffices: known, injective assignments as many as prizes are a bijection. */
  lemma CountMakesBijection(a: seq<Assignment>, event: EventForRelease)
    requires Known(a, event) && Injective(a)
    ensures |a| == |event.prizes| <==> Bijection(a, event)
  {
    var covered, ranks := AssignedRanks(a), RanksOf(event.prizes);
    AssignedCount(a);
    forall r | r in covered
      ensures r in ranks
    {
      var i :| 0 <= i < |a| && a[i].rank == r;
    }
    SubsetCount(covered, ranks);
    if |a| == |event.prizes| {
      assert covered == ranks;
      forall i | 0 <= i < |event.prizes|
        ensures Assigns(a, event.prizes[i].rank)
      {
        assert HasRank(event.prizes, event.prizes[i].rank);
        assert (event.prizes[i].rank as int) in ranks;
      }
    }
    if Bijection(a, event) {
      forall r | r in ranks
        ensures r in covered
      {
        var i :| 0 <= i < |event.prizes| && event.prizes[i].rank == r;
        assert Assigns(a, event.prizes[i].rank);
      }
      SubsetCount(ranks, covered);
    }
  }

  method ValidateAssignments(a: seq<Assignment>, event: EventForRelease) returns (error: Option<AssignmentError>)
    ensures error.None? <==> Bijection(a, event)
  {
    var validRanks := CollectRanks(event.prizes);
    var validTeams := CollectTeams(event.teams);
    var rankSeen: set<int> := {};
    var teamSeen: set<string> := {};
    for i := 0 to |a|
      invariant forall k :: 0 <= k < i ==> HasRank(event.prizes, a[k].rank) && HasTeam(event.teams, a[k].teamId)
      invariant Injective(a[..i])
      invariant rankSeen == AssignedRanks(a[..i])
      invariant forall t :: t in teamSeen <==> exists k :: 0 <= k < i && a[k].teamId == t
    {
      if a[i].rank as int !in validRanks {
        return Some(UnknownRank(a[i].rank));
      }
      if a[i].rank as int in rankSeen {
        return Some(RankTwice(a[i].rank));
      }
      assert AssignedRanks(a[..i + 1]) == AssignedRanks(a[..i]) + {a[i].rank as int};
      rankSeen := rankSeen + {a[i].rank as int};
      if a[i].teamId !in validTeams {
        return Some(UnknownTeam(a[i].teamId));
      }
      if a[i].teamId in teamSeen {
        return Some(TeamTwice(a[i].teamId));
      }
      teamSeen := teamSeen + {a[i].teamId};
    }
    assert a[..|a|] == a;
    AssignedCount(a);
    CountMakesBijection(a, event);
    if |rankSeen| != |event.prizes| {
      return Some(RanksUnassigned);
    }
    return None;
  }

  method CollectRanks(prizes: seq<Prize>) returns (validRanks: set<int>)
    ensures forall r :: r in validRanks <==> HasRank(prizes, r)
  {
    validRanks := {};
    for i := 0 to |prizes|
      invariant forall r :: r in validRanks <==> exists k :: 0 <= k < i && prizes[k].rank == r
    {
      validRanks := validRanks + {prizes[i].rank as int};
    }
  }

  method CollectTeams(teams: seq<Team>) returns (validTeams: set<string>)
    ensures forall t :: t in validTeams <==> HasTeam(teams, t)
  {
    validTeams := {};
    for i := 0 to |teams|
      invariant forall t :: t in validTeams <==> exists k :: 0 <= k < i && teams[k].id == t
    {
      validTeams := validTeams + {teams[i].id};
    }
  }

  // ------------------------------------------------------------------
  // Allocation input
  // ------------------------------------------------------------------

  /** The last team covered to a rank. */
  function TeamIdOf(a: seq<Assignment>, rank: int): string
  {
    if a == [] then ""
    else if a[|a| - 1].rank == rank then a[|a| - 1].teamId
    else TeamIdOf(a[..|a| - 1], rank)
  }

  /** The last team with an id; an unknown id gives an empty team. */
  function TeamById(teams: seq<Team>, id: string): Team
  {
    if teams == [] then Team("", [])
    else if teams[|teams| - 1].id == id then teams[|teams| - 1]
    else TeamById(teams[..|teams| - 1], id)
  }

  function AssignedTeam(event: EventForRelease, a: seq<Assignment>, rank: int): Team
  {
    TeamById(event.teams, TeamIdOf(a, rank))
  }

  function MembersOf(team: Team): (m: seq<Member>)
    ensures |m| == |team.members|
    ensures forall j :: 0 <= j < |m| ==>
              m[j] == Member(team.members[j].wallet, team.members[j].ordinal, team.members[j].share)
  {
    seq(|team.members|, j requires 0 <= j < |team.members| =>
      Member(team.members[j].wallet, team.members[j].ordinal, team.members[j].share))
  }

  /** All prize amounts are readable. */
  predicate AmountsReadable(prizes: seq<Prize>)
  {
    forall i :: 0 <= i < |prizes| ==> AmountToStroops(prizes[i].amount).Success?
  }

  function PositionsOf(prizes: seq<Prize>): (p: seq<Position>)
    requires AmountsReadable(prizes)
    ensures |p| == |prizes|
    ensures forall i :: 0 <= i < |p| ==>
              p[i] == Position(ToUint32(prizes[i].rank), AmountToStroops(prizes[i].amount).value)
  {
    seq(|prizes|, i requires 0 <= i < |prizes| =>
      Position(ToUint32(prizes[i].rank), AmountToStroops(prizes[i].amount).value))
  }

  function TeamsOf(event: EventForRelease, a: seq<Assignment>): (t: seq<WinningTeam>)
    ensures |t| == |event.prizes|
    ensures forall i :: 0 <= i < |t| ==>
              var rank := event.prizes[i].rank;
              t[i] == WinningTeam(ToUint32(rank), MembersOf(AssignedTeam(event, a, rank)))
  {
    seq(|event.prizes|, i requires 0 <= i < |event.prizes| =>
      WinningTeam(ToUint32(event.prizes[i].rank), MembersOf(AssignedTeam(event, a, event.prizes[i].rank))))
  }

  method IndexAssignments(a: seq<Assignment>) returns (rankToTeamId: map<int, string>)
    ensures forall r :: TeamIdOf(a, r) == if r in rankToTeamId then rankToTeamId[r] else ""
  {
    rankToTeamId := map[];
    for i := 0 to |a|
      invariant forall r :: TeamIdOf(a[..i], r) == if r in rankToTeamId then rankToTeamId[r] else ""
    {
      assert a[..i + 1][..i] == a[..i];
      rankToTeamId := rankToTeamId[a[i].rank as int := a[i].teamId];
    }
    assert a[..|a|] == a;
  }

  method IndexTeamsById(teams: seq<Team>) returns (teamById: map<string, Team>)
    ensures forall id :: TeamById(teams, id) == if id in teamById then teamById[id] else Team("", [])
  {
    teamById := map[];
    for i := 0 to |teams|
      invariant forall id :: TeamById(teams[..i], id) == if id in teamById then teamById[id] else Team("", [])
    {
      assert teams[..i + 1][..i] == teams[..i];
      teamById := teamById[teams[i].id := teams[i]];
    }
    assert teams[..|teams|] == teams;
  }

  datatype AllocationInput = AllocationInput(positions: seq<Position>, teams: seq<WinningTeam>, reward: int64)

  method BuildAllocationInput(event: EventForRelease, a: seq<Assignment>)
    returns (r: Result<AllocationInput, AmountError>)
    ensures r.Success? <==> AmountsReadable(event.prizes)
    ensures r.Success? ==>
              r.value == AllocationInput(PositionsOf(event.prizes), TeamsOf(event, a),
                                         Wrap(Sum(Amounts(PositionsOf(event.prizes)))))
  {
    hide Sum, AmountToStroops, TeamById, TeamIdOf, Wrap;
    var rankToTeamId := IndexAssignments(a);
    var teamById := IndexTeamsById(event.teams);
    var positions: seq<Position> := [];
    var winningTeams: seq<WinningTeam> := [];
    var reward: int64 := 0;
    WrapOfNothing();
    for i := 0 to |event.prizes|
      invariant AmountsReadable(event.prizes[..i])
      invariant positions == PositionsOf(event.prizes[..i])
      invariant winningTeams == TeamsOf(event, a)[..i]
      invariant reward == Wrap(Sum(Amounts(positions)))
    {
      var p := event.prizes[i];
      var stroops := AmountToStroops(p.amount);
      if stroops.Failure? {
        return Failure(stroops.error);
      }
      var before := Amounts(positions);
      positions := positions + [Position(ToUint32(p.rank), stroops.value)];
      assert Amounts(positions)[..i] == before;
      assert Amounts(positions)[..i + 1] == Amounts(positions);
      SumPrefixStep(Amounts(positions), i);
      WrapAdd(Sum(before), stroops.value);
      reward := Wrap(reward as int + stroops.value);
      var teamId := if p.rank as int in rankToTeamId then rankToTeamId[p.rank as int] else "";
      var team := if teamId in teamById then teamById[teamId] else Team("", []);
      var members := CopyMembers(team);
      winningTeams := winningTeams + [WinningTeam(ToUint32(p.rank), members)];
    }
    assert event.prizes[..|event.prizes|] == event.prizes;
    return Success(AllocationInput(positions, winningTeams, reward));
  }

  /** The reward a create build asks for; a release build of the same prizes arrives at the same reward. */
  method SumPrizes(prizes: seq<Prize>) returns (r: Result<int64, AmountError>)
    ensures r.Success? <==> AmountsReadable(prizes)
    ensures r.Success? ==> r.value == Wrap(Sum(Amounts(PositionsOf(prizes))))
  {
    hide Sum, AmountToStroops, Wrap;
    WrapOfNothing();
    var reward: int64 := 0;
    ghost var amounts: seq<int> := [];
    for i := 0 to |prizes|
      invariant AmountsReadable(prizes[..i])
      invariant amounts == Amounts(PositionsOf(prizes[..i]))
      invariant reward == Wrap(Sum(amounts))
    {
      var stroops := AmountToStroops(prizes[i].amount);
      if stroops.Failure? {
        return Failure(stroops.error);
      }
      WrapAdd(Sum(amounts), stroops.value);
      SumPrefixStep(amounts + [stroops.value as int], i);
      assert (amounts + [stroops.value as int])[..i] == amounts;
      amounts := amounts + [stroops.value as int];
      assert amounts[..i + 1] == amounts;
      reward := Wrap(reward as int + stroops.value);
    }
    assert prizes[..|prizes|] == prizes;
    return Success(reward);
  }

  lemma WrapOfNothing()
    ensures Wrap(Sum([])) == 0
  {}

  method CopyMembers(team: Team) returns (members: seq<Member>)
    ensures members == MembersOf(team)
  {
    members := [];
    for j := 0 to |team.members|
      invariant members == MembersOf(team)[..j]
    {
      var m := team.members[j];
      members := members + [Member(m.wallet, m.ordinal, m.share)];
    }
  }

  function Texts(prizes: seq<Prize>): (t: seq<string>)
    ensures |t| == |prizes|
  {
    seq(|prizes|, i requires 0 <= i < |prizes| => prizes[i].amount)
  }

  /** The total that the browser shows for untrimmed amounts is the reward that the server asks for, if it fits. */
  lemma {:induction false} BrowserTotalIsReward(prizes: seq<Prize>, total: nat)
    requires forall i :: 0 <= i < |prizes| ==> Trim(prizes[i].amount) == prizes[i].amount
    requires SumUsdcAmounts(Texts(prizes)) == Some(total) && total <= INT64_MAX
    ensures AmountsReadable(prizes)
    ensures Wrap(Sum(Amounts(PositionsOf(prizes)))) == Sum(Amounts(PositionsOf(prizes))) == total
  {
    hide ParseUsdcAmount, AmountToStroops, Trim;
    if prizes != [] {
      var n := |prizes| - 1;
      assert Texts(prizes)[..n] == Texts(prizes[..n]);
      var v := ParseUsdcAmount(prizes[n].amount).value;
      BrowserTotalIsReward(prizes[..n], total - v);
      ServerFollowsBrowser(prizes[n].amount, v);
      assert AmountsReadable(prizes) by {
        forall i | 0 <= i < |prizes|
          ensures AmountToStroops(prizes[i].amount).Success?
        {
          assert i < n ==> prizes[..n][i] == prizes[i];
        }
      }
      assert Amounts(PositionsOf(prizes))[..n] == Amounts(PositionsOf(prizes[..n]));
    }
  }

  // ------------------------------------------------------------------
  // From winners back to rows
  // ------------------------------------------------------------------

  /** The id of the last prize with a rank. */
  function PrizeIdOf(prizes: seq<Prize>, rank: int): Option<string>
  {
    if prizes == [] then None
    else if prizes[|prizes| - 1].rank == rank then Some(prizes[|prizes| - 1].id)
    else PrizeIdOf(prizes[..|prizes| - 1], rank)
  }

  datatype MemberInfo = MemberInfo(teamId: string, memberId: string)

  /** The last member of a team with an address. */
  function MemberIn(team: Team, members: seq<TeamMember>, address: Address): Option<MemberInfo>
  {
    if members == [] then None
    else if members[|members| - 1].wallet == address then Some(MemberInfo(team.id, members[|members| - 1].id))
    else MemberIn(team, members[..|members| - 1], address)
  }

  function MemberAt(teams: seq<Team>, address: Address): Option<MemberInfo>
  {
    if teams == [] then None
    else
      var team := teams[|teams| - 1];
      var here := MemberIn(team, team.members, address);
      if here.Some? then here else MemberAt(teams[..|teams| - 1], address)
  }

  predicate Mapped(event: EventForRelease, w: Winner, row: ReleaseWinner)
  {
    var info, prizeId := MemberAt(event.teams, w.address), PrizeIdOf(event.prizes, w.place);
    && info.Some? && prizeId.Some?
    && row == ReleaseWinner(prizeId.value, info.value.teamId, info.value.memberId, w.address, w.amount, w.place)
  }

  method IndexPrizes(prizes: seq<Prize>) returns (prizeIdByRank: map<int, string>)
    ensures forall r :: PrizeIdOf(prizes, r) == if r in prizeIdByRank then Some(prizeIdByRank[r]) else None
  {
    prizeIdByRank := map[];
    for i := 0 to |prizes|
      invariant forall r :: PrizeIdOf(prizes[..i], r) == if r in prizeIdByRank then Some(prizeIdByRank[r]) else None
    {
      assert prizes[..i + 1][..i] == prizes[..i];
      prizeIdByRank := prizeIdByRank[prizes[i].rank as int := prizes[i].id];
    }
    assert prizes[..|prizes|] == prizes;
  }

  function Lookup(m: map<Address, MemberInfo>, address: Address): Option<MemberInfo>
  {
    if address in m then Some(m[address]) else None
  }

  method IndexMembers(teams: seq<Team>) returns (memberByAddress: map<Address, MemberInfo>)
    ensures forall x :: Lookup(memberByAddress, x) == MemberAt(teams, x)
  {
    memberByAddress := map[];
    for i := 0 to |teams|
      invariant forall x :: Lookup(memberByAddress, x) == MemberAt(teams[..i], x)
    {
      assert teams[..i + 1][..i] == teams[..i];
      memberByAddress := AddMembers(memberByAddress, teams[i]);
    }
    assert teams[..|teams|] == teams;
  }

  method AddMembers(before: map<Address, MemberInfo>, team: Team) returns (memberByAddress: map<Address, MemberInfo>)
    ensures forall x :: Lookup(memberByAddress, x) ==
                        var here := MemberIn(team, team.members, x); if here.Some? then here else Lookup(before, x)
  {
    memberByAddress := before;
    for j := 0 to |team.members|
      invariant forall x :: Lookup(memberByAddress, x) ==
                  var here := MemberIn(team, team.members[..j], x); if here.Some? then here else Lookup(before, x)
    {
      assert team.members[..j + 1][..j] == team.members[..j];
      memberByAddress := memberByAddress[team.members[j].wallet := MemberInfo(team.id, team.members[j].id)];
    }
    assert team.members[..|team.members|] == team.members;
  }

  /** Joins winners back to prizes and members; None if one does not match. */
  method MapWinners(event: EventForRelease, winners: seq<Winner>) returns (r: Option<seq<ReleaseWinner>>)
    ensures r.Some? <==> forall i :: 0 <= i < |winners| ==>
                           MemberAt(event.teams, winners[i].address).Some?
                             && PrizeIdOf(event.prizes, winners[i].place).Some?
    ensures r.Some? ==>
              |r.value| == |winners| && forall i :: 0 <= i < |winners| ==> Mapped(event, winners[i], r.value[i])
  {
    hide MemberAt, PrizeIdOf;
    var prizeIdByRank := IndexPrizes(event.prizes);
    var memberByAddress := IndexMembers(event.teams);
    var out: seq<ReleaseWinner> := [];
    for i := 0 to |winners|
      invariant |out| == i
      invariant forall k :: 0 <= k < i ==> Mapped(event, winners[k], out[k])
    {
      var w := winners[i];
      assert Lookup(memberByAddress, w.address) == MemberAt(event.teams, w.address);
      if w.address !in memberByAddress {
        return None;
      }
      if w.place as int !in prizeIdByRank {
        assert PrizeIdOf(event.prizes, w.place).None?;
        return None;
      }
      var info := memberByAddress[w.address];
      var prizeId := prizeIdByRank[w.place as int];
      out := out + [ReleaseWinner(prizeId, info.teamId, info.memberId, w.address, w.amount, w.place)];
    }
    return Some(out);
  }

  // ------------------------------------------------------------------
  // Release build, end to end
  // ------------------------------------------------------------------

  /** A wallet address is in one team of the event, once. */
  predicate UniqueAddresses(event: EventForRelease)
  {
    forall t, m, t', m' ::
      0 <= t < |event.teams| && 0 <= m < |event.teams[t].members|
      && 0 <= t' < |event.teams| && 0 <= m' < |event.teams[t'].members|
      && event.teams[t].members[m].wallet == event.teams[t'].members[m'].wallet
      ==> t == t' && m == m'
  }

  predicate NaturalRanks(prizes: seq<Prize>)
  {
    forall i :: 0 <= i < |prizes| ==> prizes[i].rank >= 0
  }

  /** Converting ranks to unsigned places keeps them apart. */
  lemma PlacesDistinct(event: EventForRelease, a: seq<Assignment>)
    requires DistinctRanks(event.prizes)
    ensures DistinctPlaces(TeamsOf(event, a))
  {
    var teams := TeamsOf(event, a);
    forall i, j | 0 <= i < j < |teams|
      ensures teams[i].place != teams[j].place
    {
      PlaceInjective(event.prizes[i].rank, event.prizes[j].rank);
    }
  }

  lemma PlaceInjective(x: int32, y: int32)
    ensures ToUint32(x) == ToUint32(y) ==> x == y
  {}

  /** Every line is a member's line at some position. */
  lemma {:induction false} LineOrigin(positions: seq<Position>, teams: seq<WinningTeam>, i: nat)
    returns (k: nat, j: nat)
    requires i < |Allocation(positions, teams)|
    ensures k < |positions| && TeamFor(teams, positions[k].place).Some?
    ensures var members := TeamFor(teams, positions[k].place).value.members;
      j < |members| && Allocation(positions, teams)[i].place == positions[k].place
      && Allocation(positions, teams)[i].address == members[j].address
  {
    hide Lines, Lowest;
    var n := |positions| - 1;
    var before := Allocation(positions[..n], teams);
    if i < |before| {
      k, j := LineOrigin(positions[..n], teams, i);
    } else {
      k, j := n, i - |before|;
    }
  }

  lemma {:induction false} TotalIsSum(winners: seq<Winner>)
    ensures Total(WinnerPayees(winners)) == Sum(WinnerAmounts(winners))
  {
    if winners != [] {
      var n := |winners| - 1;
      TotalIsSum(winners[..n]);
      assert WinnerPayees(winners)[..n] == WinnerPayees(winners[..n]);
      assert WinnerAmounts(winners)[..n] == WinnerAmounts(winners[..n]);
    }
  }

  lemma {:induction false} MemberFound(teams: seq<Team>, t: nat, j: nat)
    requires t < |teams| && j < |teams[t].members|
    requires UniqueAddresses(EventForRelease([], teams))
    ensures MemberAt(teams, teams[t].members[j].wallet) == Some(MemberInfo(teams[t].id, teams[t].members[j].id))
  {
    var n, address := |teams| - 1, teams[t].members[j].wallet;
    MemberInTeam(teams[n], teams[n].members, address);
    if t < n {
      MemberFound(teams[..n], t, j);
    }
  }

  lemma {:induction false} MemberInTeam(team: Team, members: seq<TeamMember>, address: Address)
    ensures MemberIn(team, members, address).None? <==> forall i :: 0 <= i < |members| ==> members[i].wallet != address
    ensures MemberIn(team, members, address).Some? ==>
              exists i :: 0 <= i < |members| && members[i].wallet == address
                          && MemberIn(team, members, address).value == MemberInfo(team.id, members[i].id)
  {
    if members != [] {
      var n := |members| - 1;
      MemberInTeam(team, members[..n], address);
      if members[n].wallet != address && MemberIn(team, members[..n], address).Some? {
        var i :| 0 <= i < n && members[..n][i].wallet == address
                 && MemberIn(team, members[..n], address).value == MemberInfo(team.id, members[..n][i].id);
        assert members[i] == members[..n][i];
      }
    }
  }

  lemma {:induction false} TeamFound(teams: seq<Team>, id: string) returns (t: nat)
    requires HasTeam(teams, id)
    ensures t < |teams| && teams[t].id == id && TeamById(teams, id) == teams[t]
  {
    var n := |teams| - 1;
    if teams[n].id == id {
      t := n;
    } else {
      var i :| 0 <= i < |teams| && teams[i].id == id;
      assert teams[..n][i].id == id;
      t := TeamFound(teams[..n], id);
    }
  }

  lemma {:induction false} AssignmentFound(a: seq<Assignment>, rank: int) returns (i: nat)
    requires Assigns(a, rank)
    ensures i < |a| && a[i].rank == rank && TeamIdOf(a, rank) == a[i].teamId
  {
    var n := |a| - 1;
    if a[n].rank == rank {
      i := n;
    } else {
      var k :| 0 <= k < |a| && a[k].rank == rank;
      assert a[..n][k].rank == rank;
      i := AssignmentFound(a[..n], rank);
    }
  }

  lemma {:induction false} PrizeFound(prizes: seq<Prize>, k: nat)
    requires k < |prizes| && DistinctRanks(prizes)
    ensures PrizeIdOf(prizes, prizes[k].rank) == Some(prizes[k].id)
  {
    if k < |prizes| - 1 {
      PrizeFound(prizes[..|prizes| - 1], k);
    }
  }

  /** The line of a prize with a negative rank cannot be mapped back. */
  lemma {:induction false} NegativeRankUnmapped(prizes: seq<Prize>, rank: int32)
    requires rank < 0
    ensures PrizeIdOf(prizes, ToUint32(rank)) == None
  {
    if prizes != [] {
      NegativeRankUnmapped(prizes[..|prizes| - 1], rank);
    }
  }

  /** What the build was given, and that the allocator accepted it. */
  ghost predicate Built(event: EventForRelease, a: seq<Assignment>, reward: int64)
  {
    && Bijection(a, event) && AmountsReadable(event.prizes)
    && Accepts(reward, PositionsOf(event.prizes), TeamsOf(event, a))
  }

  ghost function BuiltWinners(event: EventForRelease, a: seq<Assignment>): seq<Winner>
    requires AmountsReadable(event.prizes)
  {
    Allocation(PositionsOf(event.prizes), TeamsOf(event, a))
  }

  lemma AcceptedTeam(event: EventForRelease, a: seq<Assignment>, reward: int64, k: nat)
    requires Built(event, a, reward) && k < |event.prizes|
    ensures var p, teams := PositionsOf(event.prizes), TeamsOf(event, a);
      TeamFor(teams, p[k].place) == Some(teams[k]) && teams[k].members != []
  {
    hide TeamFor, TeamValid;
    var p, teams := PositionsOf(event.prizes), TeamsOf(event, a);
    PlacesDistinct(event, a);
    TeamForUnique(teams, k);
    assert PositionValid(p[k], teams);
    TeamHasMembers(teams[k].members);
  }

  /** An accepted build has at most twenty-five lines. */
  lemma WinnersFew(event: EventForRelease, a: seq<Assignment>, reward: int64)
    requires Built(event, a, reward)
    ensures |BuiltWinners(event, a)| <= MAX_WINNERS
  {
    hide Accepts, Allocation;
    var positions := PositionsOf(event.prizes);
    forall i, j | 0 <= i < j < |positions|
      ensures positions[i].place != positions[j].place
    {
      PlaceInjective(event.prizes[i].rank, event.prizes[j].rank);
    }
    AllocationFew(reward, positions, TeamsOf(event, a));
  }

  /**
   The winners of an accepted build pass the contract's checks for the sum of the prizes,
   and for the reward the build computed exactly if that sum fits in 64 bits.
   */
  lemma WinnersPassContract(event: EventForRelease, a: seq<Assignment>, reward: int64)
    requires Built(event, a, reward)
    ensures var payees, prizes := WinnerPayees(BuiltWinners(event, a)), Sum(Amounts(PositionsOf(event.prizes)));
      && ValidWinners(payees, prizes)
      && (ValidWinners(payees, reward) <==> prizes <= INT64_MAX)
  {
    hide Sum, Total, TeamFor, MemberCount, PositionValid, Allocation, Bijection;
    var p, teams := PositionsOf(event.prizes), TeamsOf(event, a);
    WinnersFew(event, a, reward);
    AllocationAddsUp(p, teams);
    AllocationPaysReward(reward, p, teams);
    TotalIsSum(BuiltWinners(event, a));
  }

  /**
   Each line goes to a member of the team that was assigned to its prize, and mapping it
   back finds that prize, that team and that member.
   */
  lemma WinnersMapBack(event: EventForRelease, a: seq<Assignment>, reward: int64, i: nat)
    returns (k: nat, t: nat, j: nat)
    requires Built(event, a, reward) && UniqueAddresses(event) && NaturalRanks(event.prizes)
    requires i < |BuiltWinners(event, a)|
    ensures k < |event.prizes| && t < |event.teams| && j < |event.teams[t].members|
    ensures TeamIdOf(a, event.prizes[k].rank) == event.teams[t].id
    ensures var w, member := BuiltWinners(event, a)[i], event.teams[t].members[j];
      && w.place == event.prizes[k].rank && w.address == member.wallet
      && PrizeIdOf(event.prizes, w.place) == Some(event.prizes[k].id)
      && MemberAt(event.teams, w.address) == Some(MemberInfo(event.teams[t].id, member.id))
  {
    hide TeamFor, Accepts, Allocation, TeamById, TeamIdOf, MemberAt, PrizeIdOf;
    var p, teams := PositionsOf(event.prizes), TeamsOf(event, a);
    k, j := LineOrigin(p, teams, i);
    AcceptedTeam(event, a, reward, k);
    assert Assigns(a, event.prizes[k].rank);
    var x := AssignmentFound(a, event.prizes[k].rank);
    assert HasTeam(event.teams, a[x].teamId);
    t := TeamFound(event.teams, a[x].teamId);
    MemberFound(event.teams, t, j);
    PrizeFound(event.prizes, k);
  }

  // ------------------------------------------------------------------
  // One line per address
  // ------------------------------------------------------------------

  /** No address is in two of the winning teams, or twice in one. */
  ghost predicate OwnAddresses(positions: seq<Position>, teams: seq<WinningTeam>)
  {
    forall k, j, k', j' ::
      0 <= k < |positions| && 0 <= k' < |positions|
      && IsMember(teams, positions[k].place, j) && IsMember(teams, positions[k'].place, j')
      && AddressOf(teams, positions[k].place, j) == AddressOf(teams, positions[k'].place, j')
      ==> k == k' && j == j'
  }

  predicate IsMember(teams: seq<WinningTeam>, place: uint32, j: int)
  {
    TeamFor(teams, place).Some? && 0 <= j < |TeamFor(teams, place).value.members|
  }

  function AddressOf(teams: seq<WinningTeam>, place: uint32, j: int): Address
    requires IsMember(teams, place, j)
  {
    TeamFor(teams, place).value.members[j].address
  }

  predicate DistinctWinners(winners: seq<Winner>)
  {
    forall i, j :: 0 <= i < j < |winners| ==> winners[i].address != winners[j].address
  }

  lemma {:induction false} LinesDistinct(positions: seq<Position>, teams: seq<WinningTeam>)
    requires OwnAddresses(positions, teams)
    ensures DistinctWinners(Allocation(positions, teams))
  {
    hide TeamFor, Lines, Lowest;
    if positions != [] {
      var n := |positions| - 1;
      OwnPrefix(positions, teams);
      LinesDistinct(positions[..n], teams);
      var before, all := Allocation(positions[..n], teams), Allocation(positions, teams);
      forall x, y | 0 <= x < y < |all|
        ensures all[x].address != all[y].address
      {
        if y >= |before| {
          assert IsMember(teams, positions[n].place, y - |before|);
          assert all[y].address == AddressOf(teams, positions[n].place, y - |before|);
          if x < |before| {
            var k, j := LineOrigin(positions[..n], teams, x);
            assert IsMember(teams, positions[k].place, j)
                   && before[x].address == AddressOf(teams, positions[k].place, j);
          } else {
            assert IsMember(teams, positions[n].place, x - |before|);
            assert all[x].address == AddressOf(teams, positions[n].place, x - |before|);
          }
        }
      }
    }
  }

  lemma OwnPrefix(positions: seq<Position>, teams: seq<WinningTeam>)
    requires OwnAddresses(positions, teams) && positions != []
    ensures OwnAddresses(positions[..|positions| - 1], teams)
  {
    hide TeamFor;
  }

  /** The team of the event that wins prize k. */
  lemma WinningTeamOf(event: EventForRelease, a: seq<Assignment>, reward: int64, k: nat) returns (t: nat)
    requires Built(event, a, reward) && k < |event.prizes|
    ensures t < |event.teams| && TeamIdOf(a, event.prizes[k].rank) == event.teams[t].id
    ensures TeamFor(TeamsOf(event, a), PositionsOf(event.prizes)[k].place).Some?
    ensures TeamFor(TeamsOf(event, a), PositionsOf(event.prizes)[k].place).value.members == MembersOf(event.teams[t])
  {
    hide TeamFor, Accepts, TeamById, TeamIdOf;
    AcceptedTeam(event, a, reward, k);
    assert Assigns(a, event.prizes[k].rank);
    var x := AssignmentFound(a, event.prizes[k].rank);
    assert HasTeam(event.teams, a[x].teamId);
    t := TeamFound(event.teams, a[x].teamId);
  }

  /** Distinct prizes are won by distinct teams. */
  lemma TeamsDiffer(event: EventForRelease, a: seq<Assignment>, k: nat, k': nat)
    requires Bijection(a, event) && k < |event.prizes| && k' < |event.prizes|
    requires TeamIdOf(a, event.prizes[k].rank) == TeamIdOf(a, event.prizes[k'].rank)
    ensures k == k'
  {
    hide TeamIdOf;
    assert Assigns(a, event.prizes[k].rank) && Assigns(a, event.prizes[k'].rank);
    var x := AssignmentFound(a, event.prizes[k].rank);
    var x' := AssignmentFound(a, event.prizes[k'].rank);
    assert x == x';
  }

  /** The list of a build pays every address at most once. */
  lemma WinnersDistinct(event: EventForRelease, a: seq<Assignment>, reward: int64)
    requires Built(event, a, reward) && UniqueAddresses(event)
    ensures DistinctWinners(BuiltWinners(event, a))
  {
    hide TeamFor, Accepts, TeamById, TeamIdOf, Bijection, Allocation;
    var p, teams := PositionsOf(event.prizes), TeamsOf(event, a);
    forall k, j, k', j' | 0 <= k < |p| && 0 <= k' < |p| && IsMember(teams, p[k].place, j)
           && IsMember(teams, p[k'].place, j')
                          && AddressOf(teams, p[k].place, j) == AddressOf(teams, p[k'].place, j')
      ensures k == k' && j == j'
    {
      var t := WinningTeamOf(event, a, reward, k);
      var t' := WinningTeamOf(event, a, reward, k');
      assert event.teams[t].members[j].wallet == event.teams[t'].members[j'].wallet;
      TeamsDiffer(event, a, k, k');
    }
    LinesDistinct(p, teams);
  }

  /** Every line of a build is a positive 64-bit amount. */
  lemma {:induction false} WinnerAmountsFit(positions: seq<Position>, teams: seq<WinningTeam>)
    ensures forall i :: 0 <= i < |Allocation(positions, teams)| ==>
              -INT64_MAX - 1 <= Allocation(positions, teams)[i].amount <= INT64_MAX
  {
    hide TeamFor, Lowest;
    if positions != [] {
      WinnerAmountsFit(positions[..|positions| - 1], teams);
    }
  }
}
