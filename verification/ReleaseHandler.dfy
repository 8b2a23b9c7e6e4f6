/**
 The release build handler: its four stages and the capacity check, one after the other.
 */
module ReleaseHandler {
  import opened Wrappers
  import opened Int64
  import opened EscrowState
  import opened Allocate
  import opened AmountText
  import opened ReleaseAllocation
  import Trustline

  datatype BuildError =
    | NoAssignments
    | AssignmentsInvalid(assignment: AssignmentError)
    | AmountUnreadable(amount: AmountError)
    | AllocationFailed(allocation: AllocationError)
    | WinnersUnmapped
    | CannotReceive(outcome: Trustline.Outcome)

  /** How the service prints addresses. */
  ghost predicate Injective(strkey: Address -> string)
  {
    forall x, y :: strkey(x) == strkey(y) ==> x == y
  }

  predicate AmountsFit(rows: seq<ReleaseWinner>)
  {
    forall i :: 0 <= i < |rows| ==> -INT64_MAX - 1 <= rows[i].stroops <= INT64_MAX
  }

  /** What the rows are about to be paid. */
  function PayoutsOf(rows: seq<ReleaseWinner>, strkey: Address -> string): (p: seq<Trustline.Payout>)
    requires AmountsFit(rows)
    ensures |p| == |rows|
    ensures forall i :: 0 <= i < |p| ==> p[i] == Trustline.Payout(strkey(rows[i].address), rows[i].stroops)
  {
    seq(|rows|, i requires 0 <= i < |rows| => Trustline.Payout(strkey(rows[i].address), rows[i].stroops))
  }

  /** The sum of the prizes as the build computes it. */
  function RewardOf(event: EventForRelease): int64
    requires AmountsReadable(event.prizes)
  {
    Wrap(Sum(Amounts(PositionsOf(event.prizes))))
  }

  /** The first three stages accept. */
  ghost predicate Accepted(event: EventForRelease, a: seq<Assignment>)
  {
    a != [] && AmountsReadable(event.prizes) && Built(event, a, RewardOf(event))
  }

  /** Each line of the allocation with the rows it belongs to. */
  ghost predicate RowsFor(event: EventForRelease, a: seq<Assignment>, rows: seq<ReleaseWinner>)
    requires AmountsReadable(event.prizes)
  {
    var winners := BuiltWinners(event, a);
    |rows| == |winners| && forall i :: 0 <= i < |winners| ==> Mapped(event, winners[i], rows[i])
  }

  lemma RowsFit(event: EventForRelease, a: seq<Assignment>, rows: seq<ReleaseWinner>)
    requires AmountsReadable(event.prizes) && RowsFor(event, a, rows)
    ensures AmountsFit(rows)
  {
    hide Allocation;
    WinnerAmountsFit(PositionsOf(event.prizes), TeamsOf(event, a));
  }

  /** Mapping never fails on an accepted build of an event that its schema allows. */
  lemma AlwaysMapped(event: EventForRelease, a: seq<Assignment>)
    requires Accepted(event, a) && UniqueAddresses(event) && NaturalRanks(event.prizes)
    ensures var winners := BuiltWinners(event, a);
      forall i :: 0 <= i < |winners| ==>
        MemberAt(event.teams, winners[i].address).Some? && PrizeIdOf(event.prizes, winners[i].place).Some?
  {
    hide Built, BuiltWinners, MemberAt, PrizeIdOf;
    var winners := BuiltWinners(event, a);
    forall i | 0 <= i < |winners|
      ensures MemberAt(event.teams, winners[i].address).Some? && PrizeIdOf(event.prizes, winners[i].place).Some?
    {
      var k, t, j := WinnersMapBack(event, a, RewardOf(event), i);
    }
  }

  /** The list has one line per address, so no need overflows and the capacity check is exact. */
  lemma CapacityExact(event: EventForRelease, a: seq<Assignment>, rows: seq<ReleaseWinner>, strkey: Address -> string,
                      src: Trustline.AccountSource, asset: Trustline.Asset)
    requires Accepted(event, a) && UniqueAddresses(event) && RowsFor(event, a, rows) && Injective(strkey)
    ensures AmountsFit(rows)
    ensures var payouts := PayoutsOf(rows, strkey);
      && Trustline.NeedsFit(payouts)
      && (Trustline.RequireOutcome(src, asset, payouts) == Trustline.Accepted <==>
           Trustline.Covered(src, asset, payouts))
  {
    hide Built, BuiltWinners, MemberAt, PrizeIdOf, Trustline.RequireOutcome, Trustline.Covered;
    RowsFit(event, a, rows);
    WinnersDistinct(event, a, RewardOf(event));
    var payouts, winners := PayoutsOf(rows, strkey), BuiltWinners(event, a);
    forall i, j | 0 <= i < j < |payouts|
      ensures payouts[i].address != payouts[j].address
    {
      assert Mapped(event, winners[i], rows[i]) && Mapped(event, winners[j], rows[j]);
    }
    forall x | Trustline.Listed(payouts, x)
      ensures Trustline.NeedOf(payouts, x) <= INT64_MAX
    {
      Trustline.SingleNeeds(payouts, x);
    }
    Trustline.RequireExact(src, asset, payouts);
  }

  /** Validate, convert, allocate, map back and check capacity; the rows are what is then saved. */
  method BuildRelease(event: EventForRelease, a: seq<Assignment>, strkey: Address -> string,
                      src: Trustline.AccountSource, asset: Trustline.Asset)
    returns (r: Result<seq<ReleaseWinner>, BuildError>)
    ensures r.Success? ==>
              && Accepted(event, a) && RowsFor(event, a, r.value) && AmountsFit(r.value)
              && Trustline.RequireOutcome(src, asset, PayoutsOf(r.value, strkey)) == Trustline.Accepted
    ensures r.Success? && UniqueAddresses(event) && Injective(strkey) ==>
              Trustline.Covered(src, asset, PayoutsOf(r.value, strkey))
    ensures r.Failure? ==>
              match r.error
              case NoAssignments => a == []
              case AssignmentsInvalid(_) => !Bijection(a, event)
              case AmountUnreadable(_) => !AmountsReadable(event.prizes)
              case AllocationFailed(e) =>
                AmountsReadable(event.prizes)
                && ErrorTrue(e, RewardOf(event), PositionsOf(event.prizes), TeamsOf(event, a))
              case WinnersUnmapped => Accepted(event, a) && !(UniqueAddresses(event) && NaturalRanks(event.prizes))
              case CannotReceive(outcome) =>
                Accepted(event, a) && outcome != Trustline.Accepted
                && (UniqueAddresses(event) && Injective(strkey) ==>
                      exists rows :: RowsFor(event, a, rows) && AmountsFit(rows)
                                     && !Trustline.Covered(src, asset, PayoutsOf(rows, strkey)))
  {
    hide Bijection, Accepts, Allocation, Sum, ErrorTrue, AmountToStroops, MemberAt, PrizeIdOf, Trustline.RequireOutcome,
         Trustline.Covered, Trustline.NeedsFit, TeamsOf, PositionsOf;
    if |a| == 0 {
      return Failure(NoAssignments);
    }
    var invalid := ValidateAssignments(a, event);
    if invalid.Some? {
      return Failure(AssignmentsInvalid(invalid.value));
    }
    var input := BuildAllocationInput(event, a);
    if input.Failure? {
      return Failure(AmountUnreadable(input.error));
    }
    var winners := AllocateWinners(input.value.reward, input.value.positions, input.value.teams);
    if winners.Failure? {
      return Failure(AllocationFailed(winners.error));
    }
    assert Accepted(event, a) && winners.value == BuiltWinners(event, a);
    if UniqueAddresses(event) && NaturalRanks(event.prizes) {
      AlwaysMapped(event, a);
    }
    var rows := MapWinners(event, winners.value);
    if rows.None? {
      return Failure(WinnersUnmapped);
    }
    RowsFit(event, a, rows.value);
    var payouts := ListPayouts(rows.value, strkey);
    if UniqueAddresses(event) && Injective(strkey) { CapacityExact(event, a, rows.value, strkey, src, asset); }
    var outcome := Trustline.Require(src, asset, payouts);
    if outcome != Trustline.Accepted {
      return Failure(CannotReceive(outcome));
    }
    return Success(rows.value);
  }

  method ListPayouts(rows: seq<ReleaseWinner>, strkey: Address -> string) returns (payouts: seq<Trustline.Payout>)
    requires AmountsFit(rows)
    ensures payouts == PayoutsOf(rows, strkey)
  {
    payouts := [];
    for i := 0 to |rows|
      invariant payouts == PayoutsOf(rows, strkey)[..i]
    {
      payouts := payouts + [Trustline.Payout(strkey(rows[i].address), rows[i].stroops)];
    }
  }
}
