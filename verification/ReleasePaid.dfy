/**
 From the service to the ledger: the list of an accepted build, submitted by the judge of a
 live event that holds the sum of the prizes, is paid out row by row.
 */
module ReleasePaid {
  import opened Wrappers
  import opened Int64
  import opened EscrowState
  import opened EscrowSteps
  import opened Allocate
  import opened ReleaseAllocation
  import opened ReleaseHandler
  import opened ReleaseLines
  import opened EscrowLiveness
  import E = EscrowEffects

  /** With one line per address, an address is paid its own line. */
  lemma {:induction false} WonOnce(winners: seq<Winner>, i: nat)
    requires DistinctWinners(winners) && i < |winners|
    ensures E.Won(winners, winners[i].address) == winners[i].amount
  {
    if i > 0 {
      WonOnce(winners[1..], i - 1);
    } else {
      WonNothing(winners[1..], winners[0].address);
    }
  }

  lemma {:induction false} WonNothing(winners: seq<Winner>, who: Address)
    requires forall i :: 0 <= i < |winners| ==> winners[i].address != who
    ensures E.Won(winners, who) == 0
  {
    if winners != [] {
      WonNothing(winners[1..], who);
    }
  }

  /** The sum of the prizes, as the organizer wrote them. */
  function PrizeSum(event: EventForRelease): int
    requires AmountsReadable(event.prizes)
  {
    Sum(Amounts(PositionsOf(event.prizes)))
  }

  /** The contract accepts the list for the sum of the prizes. */
  lemma BuiltPayable(event: EventForRelease, a: seq<Assignment>)
    requires Accepted(event, a)
    ensures E.Payable(BuiltWinners(event, a), PrizeSum(event))
  {
    hide BuiltWinners, Built, E.Payable;
    WinnersPassContract(event, a, RewardOf(event));
    E.PayableIsValid(BuiltWinners(event, a), PrizeSum(event));
  }

  /**
   The judge's release of an accepted build succeeds, ends the event, and pays to the wallet
   of every row exactly what the row says.
   */
  lemma RowsArePaid(event: EventForRelease, a: seq<Assignment>, rows: seq<ReleaseWinner>, s: State,
                    auth: set<Address>, id: EventId, i: nat)
    requires Accepted(event, a) && RowsFor(event, a, rows) && UniqueAddresses(event) && i < |rows|
    requires Sound(s) && id in s.events && s.events[id].state == InProgress && s.events[id].reward == PrizeSum(event)
    requires E.Signed(s, auth, s.events[id].judge, s.events[id].admin)
    ensures var e := s.events[id];
      var r := Next(s, Invoke(ReleaseReward(e.judge, id, BuiltWinners(event, a)), auth));
      && r.Some? && id in r.value.events && r.value.events[id].state == Ended
      && (rows[i].address != s.self ==>
            BalanceOf(r.value.ledger, e.token, rows[i].address)
            == BalanceOf(s.ledger, e.token, rows[i].address) + rows[i].stroops)
  {
    hide BuiltWinners, Built, Sound, E.Payable, E.Won, Next, BalanceOf, PrizeSum, E.Signed, UniqueAddresses, MemberAt,
         PrizeIdOf;
    BuiltPayable(event, a);
    var winners := BuiltWinners(event, a);
    E.ReleaseEffect(s, auth, s.events[id].judge, id, winners);
    WinnersDistinct(event, a, RewardOf(event));
    WonOnce(winners, i);
    assert Mapped(event, winners[i], rows[i]);
  }
}
