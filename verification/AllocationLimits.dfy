/**
 Inputs at which the 64-bit arithmetic and the checks of the allocator do not keep what
 they promise: each is accepted, and the promise fails for it.
 */
module AllocationLimits {
  import opened Wrappers
  import opened Decimal
  import opened Int64
  import opened EscrowState
  import opened EscrowSteps
  import opened Allocate
  import opened AmountText
  import opened ReleaseAllocation

  // ------------------------------------------------------------------
  // A product that overflows
  // ------------------------------------------------------------------

  const HALVES: seq<Member> := [Member(Address(1), 0, 5000), Member(Address(2), 1, 5000)]

  /** Four quadrillion units split evenly between two: the second member is paid a thirteenth of its half. */
  lemma OverflowMisallocates()
    ensures var amount, positions, teams :=
              4_000_000_000_000_000, [Position(1, 4_000_000_000_000_000)], [WinningTeam(1, HALVES)];
      && Accepts(amount, positions, teams)
      && |Allocation(positions, teams)| == 2
      && Allocation(positions, teams)[1] == Winner(1, 155325592629044, Address(2))
      && Ideal(amount, 5000) == 2_000_000_000_000_000
      && !Apportioned(amount, HALVES)
  {
    HalvesOverflow();
    hide Lines, TeamValid, Lowest;
    var amount: int64 := 4_000_000_000_000_000;
    var positions, teams := [Position(1, amount)], [WinningTeam(1, HALVES)];
    assert positions[..0] == [] && teams[..0] == [];
    SinglePosition(positions);
    assert TeamFor(teams, 1) == Some(teams[0]);
    TeamSizes(HALVES, LONER);
    assert PositionValid(positions[0], teams);
    assert Allocation(positions, teams) == TeamWinners(positions[0], HALVES);
  }

  lemma SinglePosition(positions: seq<Position>)
    requires |positions| == 1
    ensures Sum(Amounts(positions)) == positions[0].amount
  {
    assert Amounts(positions) == [positions[0].amount as int];
    SumSingle(positions[0].amount);
  }

  lemma HalvesOverflow()
    ensures var amount := 4_000_000_000_000_000;
      && TeamValid(HALVES) && Payable(amount, HALVES) && !Apportioned(amount, HALVES)
      && Lines(amount, HALVES)[1] == 155325592629044
  {
    var amount: int64 := 4_000_000_000_000_000;
    var s := Shares(HALVES);
    assert s == [5000, 5000] && s[..1] == [5000] && s[..1][..0] == [];
    assert Turns(amount * 5000) == 1;
    var f := Floors(amount, HALVES);
    assert f == [155325592629044, 155325592629044] && f[..1] == [155325592629044] && f[..1][..0] == [];
    assert HALVES[..1] == [HALVES[0]];
  }

  // ------------------------------------------------------------------
  // A place named twice
  // ------------------------------------------------------------------

  const CROWD: seq<Member> := seq(20, i requires 0 <= i < 20 => Member(Address(i), i, 500))
  const LONER: seq<Member> := [Member(Address(20), 0, 10000)]

  /** Two positions for one place pay its team of twenty twice: forty lines from twenty-one members. */
  lemma RepeatedPlaceExceedsCap()
    ensures var positions, teams :=
              [Position(1, 10000), Position(1, 10000)], [WinningTeam(1, CROWD), WinningTeam(2, LONER)];
      Accepts(20000, positions, teams) && |Allocation(positions, teams)| == 40
  {
    var p := Position(1, 10000);
    var positions, teams := [p, p], [WinningTeam(1, CROWD), WinningTeam(2, LONER)];
    CrowdPaid();
    hide Lines, TeamValid, Lowest;
    assert positions[..1] == [p] && [p][..0] == [];
    assert teams[..1] == [teams[0]] && [teams[0]][..0] == [];
    assert TeamFor(teams, 1) == Some(teams[0]);
    TeamSizes(CROWD, LONER);
    var amounts := Amounts(positions);
    SumBounds(amounts, 10000, 10000);
    assert Allocation([p], teams) == TeamWinners(p, CROWD);
    assert Allocation(positions, teams) == Allocation([p], teams) + TeamWinners(p, CROWD);
  }

  lemma TeamSizes(m: seq<Member>, n: seq<Member>)
    ensures MemberCount([WinningTeam(1, m)]) == |m|
    ensures MemberCount([WinningTeam(1, m), WinningTeam(2, n)]) == |m| + |n|
  {
    var t, u := WinningTeam(1, m), WinningTeam(2, n);
    assert [t][..0] == [] && [t, u][..1] == [t];
  }

  lemma CrowdPaid()
    ensures TeamValid(CROWD) && Payable(10000, CROWD)
  {
    hide Lowest;
    SumBounds(Shares(CROWD), 500, 500);
    SumBounds(Floors(10000, CROWD), 500, 500);
  }

  // ------------------------------------------------------------------
  // A reward that wraps
  // ------------------------------------------------------------------

  /** A team of one. */
  lemma SoleMember(amount: int64, m: Member)
    requires amount > 0 && m.share == 10000
    ensures TeamValid([m]) && Lines(amount, [m]) == [amount as int] && Payable(amount, [m])
  {
    hide Floor64;
    SumSingle(10000);
    assert Shares([m]) == [10000];
    var f := Floors(amount, [m]);
    assert f == [f[0]];
    SumSingle(f[0]);
    LowestLine(amount, [m]);
    assert Lowest([m]) == 0;
  }

  /** The most that Decimal(18,7) holds. */
  const TOP_PRIZE: int64 := 999_999_999_999_999_999
  const WRAPPED_REWARD: int64 := 553_255_926_290_448_365

  function TopPrize(i: int32): Prize
    requires i >= 0
  {
    Prize(Digits(i), i, StroopsToAmount(TOP_PRIZE))
  }

  function Soloist(i: int32): Team
    requires i >= 0
  {
    Team(Digits(i), [TeamMember(Digits(i), Address(i), 0, 10000)])
  }

  /** Nineteen prizes of 99999999999.9999999 and as many teams of one. */
  function TopEvent(): EventForRelease
  {
    EventForRelease(seq(19, i requires 0 <= i < 19 => TopPrize(i)), seq(19, i requires 0 <= i < 19 => Soloist(i)))
  }

  /** Team i wins prize i. */
  function TopAssignments(): seq<Assignment>
  {
    seq(19, i requires 0 <= i < 19 => Assignment(i, Digits(i)))
  }

  lemma DigitsInjective(i: nat, j: nat)
    requires Digits(i) == Digits(j)
    ensures i == j
  {}

  lemma TopKnown()
    ensures Known(TopAssignments(), TopEvent())
  {
    hide Digits, StroopsToAmount;
    var event, a := TopEvent(), TopAssignments();
    forall i | 0 <= i < 19
      ensures HasRank(event.prizes, a[i].rank) && HasTeam(event.teams, a[i].teamId)
    {
      assert event.prizes[i].rank == i && event.teams[i].id == Digits(i) && a[i].rank == i;
    }
  }

  lemma TopInjective()
    ensures Injective(TopAssignments())
  {
    hide Digits;
    var a := TopAssignments();
    forall i, j | 0 <= i < j < 19
      ensures a[i].rank != a[j].rank && a[i].teamId != a[j].teamId
    {
      if a[i].teamId == a[j].teamId { DigitsInjective(i, j); }
    }
  }

  lemma TopBijection()
    ensures Bijection(TopAssignments(), TopEvent())
  {
    TopKnown();
    TopInjective();
    CountMakesBijection(TopAssignments(), TopEvent());
  }

  lemma TopTeam(i: int32)
    requires 0 <= i < 19
    ensures AssignedTeam(TopEvent(), TopAssignments(), i) == Soloist(i)
  {
    TopBijection();
    hide Digits, TeamById, TeamIdOf;
    var event, a := TopEvent(), TopAssignments();
    assert a[i].rank == i;
    var k := AssignmentFound(a, i);
    assert event.teams[i].id == Digits(i);
    var t := TeamFound(event.teams, Digits(i));
    DigitsInjective(t, i);
  }

  lemma {:induction false} TeamsOfOne(teams: seq<WinningTeam>)
    requires forall i :: 0 <= i < |teams| ==> |teams[i].members| == 1
    ensures MemberCount(teams) == |teams|
  {
    if teams != [] {
      TeamsOfOne(teams[..|teams| - 1]);
    }
  }

  lemma TopPosition(i: int32)
    requires 0 <= i < 19
    requires AmountsReadable(TopEvent().prizes)
    ensures var teams := TeamsOf(TopEvent(), TopAssignments());
      && PositionsOf(TopEvent().prizes)[i] == Position(i, TOP_PRIZE)
      && teams[i] == WinningTeam(i, [Member(Address(i), 0, 10000)])
      && PositionValid(PositionsOf(TopEvent().prizes)[i], teams)
  {
    TopBijection();
    hide Digits, StroopsToAmount, AmountToStroops, AssignedTeam, TeamFor, TeamValid, Payable;
    var event, a := TopEvent(), TopAssignments();
    StroopsRoundTrip(TOP_PRIZE);
    TopTeam(i);
    var teams := TeamsOf(event, a);
    assert teams[i].members == [Member(Address(i), 0, 10000)];
    PlacesDistinct(event, a);
    TeamForUnique(teams, i);
    SoleMember(TOP_PRIZE, teams[i].members[0]);
  }

  lemma TopBuilt()
    ensures Built(TopEvent(), TopAssignments(), WRAPPED_REWARD)
  {
    var event, a := TopEvent(), TopAssignments();
    TopReadable();
    TopBijection();
    DistinctTop();
    hide Digits, StroopsToAmount, AmountToStroops, PositionValid, TeamFor, AssignedTeam, Bijection, DistinctRanks;
    var positions, teams := PositionsOf(event.prizes), TeamsOf(event, a);
    forall i | 0 <= i < 19
      ensures positions[i].amount == TOP_PRIZE && |teams[i].members| == 1 && PositionValid(positions[i], teams)
    {
      TopPosition(i);
    }
    TeamsOfOne(teams);
    PlacesDistinct(event, a);
    SumBounds(Amounts(positions), TOP_PRIZE, TOP_PRIZE);
    assert Sum(Amounts(positions)) == WRAPPED_REWARD + TWO_64;
    WrapShift(WRAPPED_REWARD, 1);
  }

  lemma TopUnique()
    ensures UniqueAddresses(TopEvent()) && NaturalRanks(TopEvent().prizes)
  {
    hide Digits, StroopsToAmount;
  }

  lemma TopSum()
    requires AmountsReadable(TopEvent().prizes)
    ensures Sum(Amounts(PositionsOf(TopEvent().prizes))) > INT64_MAX
  {
    hide Digits, StroopsToAmount, AmountToStroops;
    StroopsRoundTrip(TOP_PRIZE);
    SumBounds(Amounts(PositionsOf(TopEvent().prizes)), TOP_PRIZE, TOP_PRIZE);
  }

  /**
   A release build that is accepted although its list does not sum to the reward it was
   accepted for: the sum of the prizes has wrapped to another positive amount.
   */
  lemma WrappedRewardRefused()
    ensures var event, a := TopEvent(), TopAssignments();
      && UniqueAddresses(event) && NaturalRanks(event.prizes)
      && Built(event, a, WRAPPED_REWARD)
      && !ValidWinners(WinnerPayees(BuiltWinners(event, a)), WRAPPED_REWARD)
  {
    TopUnique();
    TopBuilt();
    hide Built, ValidWinners, BuiltWinners, TopEvent, TopAssignments;
    TopReadable();
    TopSum();
    WinnersPassContract(TopEvent(), TopAssignments(), WRAPPED_REWARD);
  }

  lemma DistinctTop()
    ensures DistinctRanks(TopEvent().prizes)
  {
    TopBijection();
  }

  lemma TopReadable()
    ensures AmountsReadable(TopEvent().prizes)
  {
    hide Digits, StroopsToAmount, AmountToStroops;
    StroopsRoundTrip(TOP_PRIZE);
  }
}
