/**
 Each call of the contract in the plain terms of its caller: exactly when it succeeds, and
 what it does to wallets, events and token balances. The lists of winners and
 participants are summed here line by line, by address.
 */
module EscrowEffects {
  import opened Wrappers
  import opened EscrowState
  import opened EscrowSteps
  import opened EscrowHistory
  import opened EscrowSolvency
  import opened EscrowLiveness

  // ------------------------------------------------------------------
  // Plain terms
  // ------------------------------------------------------------------

  /** The call is signed by somebody who is not stopped, and not by the contract itself. */
  predicate Signed(s: State, auth: set<Address>, signer: Address, organizer: Address)
  {
    signer in auth && s.self !in auth && !s.gov.paused && organizer !in s.gov.pausedAdmins
  }

  predicate NotStarted(e: Event)
  {
    e.state in {EventState.Created, EventState.WaitingForStart}
  }

  predicate OrganizedBy(s: State, id: EventId, admin: Address)
  {
    id in s.events && s.events[id].admin == admin
  }

  predicate Accepted(g: Governance, token: Address)
  {
    g.whitelistEnabled ==> token in g.allowedTokens
  }

  /** Some amount of a token goes from one holder to another, and nothing else moves. */
  ghost predicate Moved(l: Ledger, l': Ledger, token: Address, from: Address, to: Address, amount: int)
  {
    forall t, who :: BalanceOf(l', t, who) ==
      BalanceOf(l, t, who) - (if t == token && who == from then amount else 0)
                           + (if t == token && who == to then amount else 0)
  }

  /** Only this wallet changes. */
  ghost predicate OnlyWallet(s: State, s': State, admin: Address, balance: int)
  {
    && admin in s'.wallets && s'.wallets[admin].balance == balance
    && (admin in s.wallets ==> s'.wallets[admin].token == s.wallets[admin].token)
    && s'.wallets.Keys == s.wallets.Keys + {admin}
    && forall a :: a in s.wallets && a != admin ==> s'.wallets[a] == s.wallets[a]
  }

  /** Only this event changes. */
  ghost predicate OnlyEvent(s: State, s': State, id: EventId, e: Event)
  {
    && id in s'.events && s'.events[id] == e
    && s'.events.Keys == s.events.Keys + {id}
    && forall i :: i in s.events && i != id ==> s'.events[i] == s.events[i]
  }

  lemma TransferMoves(l: Ledger, token: Address, from: Address, to: Address, amount: int)
    ensures var r := Transfer(l, token, from, to, amount);
      && (r.Some? <==> 0 <= amount <= BalanceOf(l, token, from))
      && (r.Some? ==> Moved(l, r.value, token, from, to, amount))
  {
    hide BalanceOf;
    var r := Transfer(l, token, from, to, amount);
    if r.Some? {
      forall t, who
        ensures BalanceOf(r.value, t, who) ==
                  BalanceOf(l, t, who) - (if t == token && who == from then amount else 0)
                                       + (if t == token && who == to then amount else 0)
      {
        TransferBalance(l, token, from, to, amount, r.value, t, who);
      }
    }
  }

  /** The limits are those of the machine types. */
  lemma Limits()
    ensures I128_MAX + 1 == 0x8000_0000_0000_0000 * 0x1_0000_0000_0000_0000 && U32_MAX + 1 == 0x1_0000_0000
  {}

  // ------------------------------------------------------------------
  // Wallets
  // ------------------------------------------------------------------

  lemma DepositEffect(s: State, auth: set<Address>, admin: Address, token: Address, amount: i128)
    ensures var r := Next(s, Invoke(DepositFunds(admin, token, amount), auth));
      && (r.Some? <==>
            && Signed(s, auth, admin, admin) && Accepted(s.gov, token)
            && 0 < amount <= BalanceOf(s.ledger, token, admin)
            && (admin in s.wallets ==> s.wallets[admin].token == token) && s.Balance(admin) + amount <= I128_MAX)
      && (r.Some? ==>
            && Moved(s.ledger, r.value.ledger, token, admin, s.self, amount)
            && OnlyWallet(s, r.value, admin, s.Balance(admin) + amount) && r.value.wallets[admin].token == token
            && r.value.events == s.events)
  {
    hide Transfer, BalanceOf, Moved;
    TransferMoves(s.ledger, token, admin, s.self, amount);
  }

  /** In every reachable state a withdrawal succeeds within the balance, and its amount goes to the organizer. */
  lemma WithdrawEffect(s: State, auth: set<Address>, admin: Address, amount: i128)
    requires Sound(s)
    ensures var r := Next(s, Invoke(WithdrawFunds(admin, amount), auth));
      && (r.Some? <==> Signed(s, auth, admin, admin) && 0 < amount <= s.Balance(admin))
      && (r.Some? ==>
            && Moved(s.ledger, r.value.ledger, s.wallets[admin].token, s.self, admin, amount)
            && OnlyWallet(s, r.value, admin, s.Balance(admin) - amount)
            && r.value.events == s.events)
  {
    hide Sound, Transfer, BalanceOf, Moved;
    if admin in s.wallets {
      HoldingCoversWallet(s, admin);
      TransferMoves(s.ledger, s.wallets[admin].token, s.self, admin, amount);
    }
  }

  // ------------------------------------------------------------------
  // Lifecycle
  // ------------------------------------------------------------------

  /** A new event has exactly the terms of the call; its reward leaves the organizer's wallet, not the contract. */
  lemma CreateEffect(s: State, auth: set<Address>, admin: Address, judge: Address, namedResolver: Option<Address>,
                     token: Address, reward: i128, id: EventId, deadline: Option<nat>)
    ensures var r := Next(s, Invoke(CreateEvent(admin, judge, namedResolver, token, reward, id, deadline), auth));
      && (r.Some? <==>
            && Signed(s, auth, admin, admin) && Accepted(s.gov, token) && id !in s.events
            && (deadline.Some? ==> deadline.value > s.clock)
            && (namedResolver.Some? || s.gov.defaultResolver.Some?)
            && admin in s.wallets && s.wallets[admin].token == token && 0 < reward <= s.wallets[admin].balance
            && s.Count(admin) < U32_MAX)
      && (r.Some? ==>
            && CreatedAs(r.value, id, admin, judge, namedResolver, s.gov.defaultResolver, token, reward, deadline)
            && OnlyEvent(s, r.value, id, r.value.events[id])
            && OnlyWallet(s, r.value, admin, s.Balance(admin) - reward)
            && r.value.ledger == s.ledger)
  {}

  /** The event has these terms, the default resolver standing in for one not named. */
  predicate CreatedAs(s: State, id: EventId, admin: Address, judge: Address, namedResolver: Option<Address>,
                      defaultResolver: Option<Address>, token: Address, reward: i128, deadline: Option<nat>)
  {
    && id in s.events
    && var e := s.events[id];
      && e.admin == admin && e.judge == judge && e.token == token && e.reward == reward && e.deadline == deadline
      && Some(e.resolver) == (if namedResolver.Some? then namedResolver else defaultResolver)
      && e.state == EventState.Created && e.judgingDeadline == None
  }

  lemma WaitEffect(s: State, auth: set<Address>, admin: Address, id: EventId)
    ensures var r := Next(s, Invoke(SetEventWaitingForStart(admin, id), auth));
      && (r.Some? <==>
            Signed(s, auth, admin, admin) && OrganizedBy(s, id, admin) && s.events[id].state == EventState.Created)
      && (r.Some? ==>
            && OnlyEvent(s, r.value, id, s.events[id].(state := WaitingForStart))
            && r.value.wallets == s.wallets && r.value.ledger == s.ledger)
  {}

  /** The whole reward is back in the organizer's wallet; no tokens move. */
  ghost predicate RefundedTo(s: State, s': State, id: EventId)
    requires id in s.events
  {
    && OnlyEvent(s, s', id, s.events[id].(state := Cancelled))
    && OnlyWallet(s, s', s.events[id].admin, s.Balance(s.events[id].admin) + s.events[id].reward)
    && s'.ledger == s.ledger
  }

  lemma RefundEffect(s: State, id: EventId)
    requires id in s.events && s.events[id].admin in s.wallets
    ensures var r := RefundStep(s, id);
      && (r.Some? <==> s.Balance(s.events[id].admin) + s.events[id].reward <= I128_MAX)
      && (r.Some? ==> RefundedTo(s, r.value, id))
  {}

  /** Anyone can expire an event that has not started by its deadline, paused or not. */
  lemma ExpireEffect(s: State, auth: set<Address>, id: EventId)
    requires Sound(s)
    ensures var r := Next(s, Invoke(ExpireEvent(id), auth));
      && (r.Some? <==>
            && s.self !in auth && id in s.events && NotStarted(s.events[id])
            && s.events[id].deadline.Some? && s.clock >= s.events[id].deadline.value
            && s.Balance(s.events[id].admin) + s.events[id].reward <= I128_MAX)
      && (r.Some? ==> RefundedTo(s, r.value, id))
  {
    if id in s.events {
      HasWallet(s, id);
      RefundEffect(s, id);
      hide Sound, RefundStep, RefundedTo;
    }
  }

  lemma CancelEffect(s: State, auth: set<Address>, admin: Address, id: EventId)
    requires Sound(s)
    ensures var r := Next(s, Invoke(SetEventCancelled(admin, id), auth));
      && (r.Some? <==>
            && Signed(s, auth, admin, admin) && OrganizedBy(s, id, admin) && NotStarted(s.events[id])
            && s.Balance(admin) + s.events[id].reward <= I128_MAX)
      && (r.Some? ==> RefundedTo(s, r.value, id))
  {
    if id in s.events {
      HasWallet(s, id);
      RefundEffect(s, id);
      hide Sound, RefundStep, RefundedTo;
    }
  }

  /** Organizer and resolver together move part of the reserve back to the wallet before the start. */
  lemma EmergencyEffect(s: State, auth: set<Address>, admin: Address, resolver: Address, id: EventId, amount: i128)
    requires Sound(s)
    ensures var r := Next(s, Invoke(EmergencyWithdraw(admin, resolver, id, amount), auth));
      && (r.Some? <==>
            && Signed(s, auth, admin, admin) && resolver in auth && OrganizedBy(s, id, admin)
            && s.events[id].resolver == resolver && NotStarted(s.events[id]) && 0 < amount <= s.events[id].reward
            && s.Balance(admin) + amount <= I128_MAX)
      && (r.Some? ==>
            && OnlyEvent(s, r.value, id, s.events[id].(reward := s.events[id].reward - amount))
            && OnlyWallet(s, r.value, admin, s.Balance(admin) + amount)
            && r.value.ledger == s.ledger)
  {
    if id in s.events {
      HasWallet(s, id);
    }
    hide Sound;
  }

  // ------------------------------------------------------------------
  // Going live
  // ------------------------------------------------------------------

  /** The fee is the reward's share in basis points, rounded down. */
  predicate IsFee(fee: int, rate: int, reward: int)
  {
    0 <= fee && fee * 10000 <= reward * rate < (fee + 1) * 10000
  }

  lemma FeeIs(rate: u32, reward: money)
    ensures GoLiveFee(rate, reward).Some? <==> reward * rate <= I128_MAX
    ensures GoLiveFee(rate, reward).Some? ==> IsFee(GoLiveFee(rate, reward).value, rate, reward)
  {
    assert reward * rate >= 0;
  }

  /** Only one number is the fee. */
  lemma FeeUnique(fee: int, fee': int, rate: int, reward: int)
    requires IsFee(fee, rate, reward) && IsFee(fee', rate, reward)
    ensures fee == fee'
  {}

  function RateNow(s: State): int
  {
    match s.gov.feeBps
    case None => 50
    case Some(bps) => bps
  }

  lemma ChargeEffect(s: State, id: EventId, fee: money)
    requires Sound(s) && id in s.events
    ensures var r, e := ChargeStep(s, id, fee), s.events[id];
      && (r.Some? <==> (fee > 0 ==> s.gov.treasury.Some? && fee <= s.Balance(e.admin)))
      && (r.Some? && fee == 0 ==> r.value == s)
      && (r.Some? && fee > 0 ==>
            && Moved(s.ledger, r.value.ledger, e.token, s.self, s.gov.treasury.value, fee)
            && OnlyWallet(s, r.value, e.admin, s.Balance(e.admin) - fee)
            && r.value.events == s.events)
  {
    HasWallet(s, id);
    assert TokensMatch(s);
    hide Sound, Transfer, BalanceOf, Moved;
    var e := s.events[id];
    HoldingCoversWallet(s, e.admin);
    if s.gov.treasury.Some? {
      TransferMoves(s.ledger, e.token, s.self, s.gov.treasury.value, fee);
    }
  }

  /** The start succeeds exactly if its fee is a 128-bit product and can be charged; the reward stays untouched. */
  lemma StartEffect(s: State, auth: set<Address>, admin: Address, id: EventId, judgingDeadline: nat, fee: int)
    requires Sound(s) && id in s.events && IsFee(fee, RateNow(s), s.events[id].reward)
    ensures var r, e := Next(s, Invoke(SetEventInProgress(admin, id, judgingDeadline), auth)), s.events[id];
      && (r.Some? <==>
            && Signed(s, auth, admin, admin) && OrganizedBy(s, id, admin) && NotStarted(e)
            && judgingDeadline > s.clock && e.reward * RateNow(s) <= I128_MAX
            && (fee > 0 ==> s.gov.treasury.Some? && fee <= s.Balance(admin)))
      && (r.Some? ==> OnlyEvent(s, r.value, id, e.(state := InProgress, judgingDeadline := Some(judgingDeadline))))
      && (r.Some? && fee == 0 ==> r.value.wallets == s.wallets && r.value.ledger == s.ledger)
      && (r.Some? && fee > 0 ==>
            && Moved(s.ledger, r.value.ledger, e.token, s.self, s.gov.treasury.value, fee)
            && OnlyWallet(s, r.value, admin, s.Balance(admin) - fee))
  {
    hide Sound, ChargeStep, GoLiveFee, Moved, IsFee;
    var due := GoLiveFee(s.gov.FeeRate(), s.events[id].reward);
    FeeIs(s.gov.FeeRate(), s.events[id].reward);
    if due.Some? {
      FeeUnique(fee, due.value, RateNow(s), s.events[id].reward);
      ChargeEffect(s, id, due.value);
    }
  }

  // ------------------------------------------------------------------
  // Payouts
  // ------------------------------------------------------------------

  function SumOfAmounts(winners: seq<Winner>): int
  {
    if winners == [] then 0 else winners[0].amount + SumOfAmounts(winners[1..])
  }

  /** What the list names for one address. */
  function Won(winners: seq<Winner>, who: Address): int
  {
    if winners == [] then 0
    else (if winners[0].address == who then winners[0].amount else 0) + Won(winners[1..], who)
  }

  function SumOfShares(participants: seq<Participant>): int
  {
    if participants == [] then 0 else participants[0].amount + SumOfShares(participants[1..])
  }

  function Shared(participants: seq<Participant>, who: Address): int
  {
    if participants == [] then 0
    else (if participants[0].address == who then participants[0].amount else 0) + Shared(participants[1..], who)
  }

  lemma {:induction false} TotalFirst(payees: seq<Payee>, who: Address)
    requires payees != []
    ensures Total(payees) == payees[0].amount + Total(payees[1..])
    ensures TotalTo(payees, who)
         == (if payees[0].address == who then payees[0].amount else 0) + TotalTo(payees[1..], who)
  {
    if |payees| > 1 {
      var n := |payees| - 1;
      TotalFirst(payees[..n], who);
      assert payees[..n][1..] == payees[1..][..n - 1];
    }
  }

  lemma {:induction false} WinnersTotal(winners: seq<Winner>, who: Address)
    ensures Total(WinnerPayees(winners)) == SumOfAmounts(winners)
    ensures TotalTo(WinnerPayees(winners), who) == Won(winners, who)
  {
    if winners != [] {
      TotalFirst(WinnerPayees(winners), who);
      assert WinnerPayees(winners)[1..] == WinnerPayees(winners[1..]);
      WinnersTotal(winners[1..], who);
    }
  }

  lemma {:induction false} ParticipantsTotal(participants: seq<Participant>, who: Address)
    ensures Total(ParticipantPayees(participants)) == SumOfShares(participants)
    ensures TotalTo(ParticipantPayees(participants), who) == Shared(participants, who)
  {
    if participants != [] {
      TotalFirst(ParticipantPayees(participants), who);
      assert ParticipantPayees(participants)[1..] == ParticipantPayees(participants[1..]);
      ParticipantsTotal(participants[1..], who);
    }
  }

  /** At most 25 lines, every amount positive, the sum exactly the reward. */
  predicate Payable(winners: seq<Winner>, reward: int)
  {
    |winners| <= 25 && (forall i :: 0 <= i < |winners| ==> winners[i].amount > 0) && SumOfAmounts(winners) == reward
  }

  lemma PayableIsValid(winners: seq<Winner>, reward: int)
    ensures Payable(winners, reward) <==> ValidWinners(WinnerPayees(winners), reward)
  {
    WinnersTotal(winners, Address(0));
    WinnersPositive(winners);
    hide SumOfAmounts, Total, AllPositive;
  }

  lemma WinnersPositive(winners: seq<Winner>)
    ensures AllPositive(WinnerPayees(winners)) <==> forall i :: 0 <= i < |winners| ==> winners[i].amount > 0
  {
    var payees := WinnerPayees(winners);
    if AllPositive(payees) {
      assert forall i :: 0 <= i < |winners| ==> winners[i].amount == payees[i].amount;
    }
  }

  /** In the event's token everyone receives what the lines name for them; the contract pays the reward. */
  ghost predicate Distributed(s: State, s': State, id: EventId, winners: seq<Winner>)
    requires id in s.events
  {
    && OnlyEvent(s, s', id, s.events[id].(state := Ended))
    && s'.wallets == s.wallets
    && forall t, who :: BalanceOf(s'.ledger, t, who) == BalanceOf(s.ledger, t, who) +
         if t != s.events[id].token then 0
         else Won(winners, who) - if who == s.self then s.events[id].reward else 0
  }

  /** Whatever the state, a payout that succeeds distributes the list. */
  lemma PayoutDistributes(s: State, id: EventId, winners: seq<Winner>, s': State)
    requires id in s.events && PayoutStep(s, id, WinnerPayees(winners)) == Some(s')
    ensures Payable(winners, s.events[id].reward) && Distributed(s, s', id, winners)
  {
    hide Payable, ValidWinners, TransferAll, BalanceOf;
    var e, payees := s.events[id], WinnerPayees(winners);
    PayableIsValid(winners, e.reward);
    forall t, who
      ensures BalanceOf(s'.ledger, t, who) == BalanceOf(s.ledger, t, who) +
                if t != e.token then 0 else Won(winners, who) - if who == s.self then e.reward else 0
    {
      TransferAllBalance(s.ledger, e.token, s.self, payees, s'.ledger, t, who);
      WinnersTotal(winners, who);
      ValidTotal(payees, e.reward);
    }
  }

  /** ... by a release or a settlement, from any state. */
  lemma ReleaseDistributes(s: State, auth: set<Address>, caller: Address, id: EventId, winners: seq<Winner>)
    ensures var r := ReleaseStep(s, auth, caller, id, winners); r.Some? ==>
              && id in s.events && s.events[id].judge == caller && caller in auth
              && Payable(winners, s.events[id].reward) && Distributed(s, r.value, id, winners)
    ensures var r := ResolveStep(s, auth, caller, id, winners); r.Some? ==>
              && id in s.events && s.events[id].resolver == caller && caller in auth
              && Payable(winners, s.events[id].reward) && Distributed(s, r.value, id, winners)
  {
    hide Payable, PayoutStep, Distributed;
    if id in s.events && PayoutStep(s, id, WinnerPayees(winners)).Some? {
      PayoutDistributes(s, id, winners, PayoutStep(s, id, WinnerPayees(winners)).value);
    }
  }

  lemma PayoutEffect(s: State, id: EventId, winners: seq<Winner>)
    requires Sound(s) && id in s.events && s.events[id].state == InProgress
    ensures var r := PayoutStep(s, id, WinnerPayees(winners));
      && (r.Some? <==> Payable(winners, s.events[id].reward))
      && (r.Some? ==> Distributed(s, r.value, id, winners))
  {
    hide Sound, Payable, ValidWinners, PayoutStep, Distributed;
    var e, payees := s.events[id], WinnerPayees(winners);
    PayableIsValid(winners, e.reward);
    if ValidWinners(payees, e.reward) {
      PayoutSucceeds(s, id, payees);
    }
    if PayoutStep(s, id, payees).Some? {
      PayoutDistributes(s, id, winners, PayoutStep(s, id, payees).value);
    }
  }

  lemma ValidTotal(payees: seq<Payee>, reward: int)
    requires ValidWinners(payees, reward)
    ensures Total(payees) == reward
  {}

  /** The judge alone releases the reward of a live event, exactly to a payable list. */
  lemma ReleaseEffect(s: State, auth: set<Address>, judge: Address, id: EventId, winners: seq<Winner>)
    requires Sound(s)
    ensures var r := Next(s, Invoke(ReleaseReward(judge, id, winners), auth));
      && (r.Some? <==>
            && id in s.events && Signed(s, auth, judge, s.events[id].admin) && s.events[id].judge == judge
            && s.events[id].state == EventState.InProgress && Payable(winners, s.events[id].reward))
      && (r.Some? ==> Distributed(s, r.value, id, winners))
  {
    hide Sound, Payable, PayoutStep, Distributed;
    if id in s.events && s.events[id].state == InProgress {
      PayoutEffect(s, id, winners);
    }
  }

  /** The resolver alone settles a live event, once its judging deadline has passed. */
  lemma SettlementEffect(s: State, auth: set<Address>, resolver: Address, id: EventId, winners: seq<Winner>)
    requires Sound(s)
    ensures var r := Next(s, Invoke(ResolveDispute(resolver, id, winners), auth));
      && (r.Some? <==>
            && id in s.events && Signed(s, auth, resolver, s.events[id].admin) && s.events[id].resolver == resolver
            && s.events[id].state == EventState.InProgress && Payable(winners, s.events[id].reward)
            && s.events[id].judgingDeadline.Some? && s.clock >= s.events[id].judgingDeadline.value)
      && (r.Some? ==> Distributed(s, r.value, id, winners))
  {
    hide Sound, Payable, PayoutStep, Distributed;
    if id in s.events && s.events[id].state == InProgress {
      PayoutEffect(s, id, winners);
    }
  }

  /** Everyone receives what the lines name for them, out of the organizer's wallet. */
  ghost predicate Compensates(s: State, s': State, id: EventId, participants: seq<Participant>)
    requires id in s.events
  {
    var e := s.events[id];
    && OnlyEvent(s, s', id, e.(state := Compensated))
    && OnlyWallet(s, s', e.admin, s.Balance(e.admin) - SumOfShares(participants))
    && forall t, who :: BalanceOf(s'.ledger, t, who) == BalanceOf(s.ledger, t, who) +
         if t != e.token then 0
         else Shared(participants, who) - if who == s.self then SumOfShares(participants) else 0
  }

  /** The organizer of a cancelled event compensates any participants the wallet can pay. */
  lemma CompensationEffect(s: State, auth: set<Address>, admin: Address, id: EventId, participants: seq<Participant>)
    requires Sound(s)
    ensures var r := Next(s, Invoke(ReleaseCompensation(admin, id, participants), auth));
      && (r.Some? <==>
            && Signed(s, auth, admin, admin) && OrganizedBy(s, id, admin) && s.events[id].state == EventState.Cancelled
            && participants != [] && (forall i :: 0 <= i < |participants| ==> participants[i].amount > 0)
            && SumOfShares(participants) <= s.Balance(admin))
      && (r.Some? ==> Compensates(s, r.value, id, participants))
  {
    var payees := ParticipantPayees(participants);
    ParticipantsPositive(participants);
    ParticipantsTotal(participants, admin);
    hide Sound, AllPositive, SumOfShares, Total, TransferAll, Compensates;
    if s.self !in auth && OrganizerMay(s, auth, admin, id) && AllPositive(payees) {
      CompensationLedger(s, admin, id, participants);
      if SumOfShares(participants) <= s.Balance(admin) && s.events[id].state == Cancelled && participants != [] {
        CompensatedIs(s, auth, admin, id, participants);
      }
    }
  }

  lemma CompensatedIs(s: State, auth: set<Address>, admin: Address, id: EventId, participants: seq<Participant>)
    requires Sound(s) && OrganizerMay(s, auth, admin, id) && s.events[id].state == Cancelled
    requires participants != [] && AllPositive(ParticipantPayees(participants))
    requires SumOfShares(participants) <= s.Balance(admin)
    ensures var r := CompensateStep(s, auth, admin, id, participants);
      r.Some? && Compensates(s, r.value, id, participants)
  {
    ParticipantsTotal(participants, admin);
    TotalNonNegative(ParticipantPayees(participants));
    CompensationLedger(s, admin, id, participants);
    hide Sound, AllPositive, SumOfShares, Total, TransferAll, BalanceOf, Shared, CompensateStep, ParticipantPayees;
    CompensateIs(s, auth, admin, id, participants);
  }

  lemma CompensateIs(s: State, auth: set<Address>, admin: Address, id: EventId, participants: seq<Participant>)
    requires OrganizerMay(s, auth, admin, id) && s.events[id].state == Cancelled && admin in s.wallets
    requires participants != [] && AllPositive(ParticipantPayees(participants))
    requires 0 <= Total(ParticipantPayees(participants)) <= s.Balance(admin)
    requires TransferAll(s.ledger, s.wallets[admin].token, s.self, ParticipantPayees(participants)).Some?
    ensures id in s.events
    ensures var r, payees, w := CompensateStep(s, auth, admin, id, participants), ParticipantPayees(participants),
                                s.wallets[admin];
      && r.Some?
      && r.value.events == s.events[id := s.events[id].(state := Compensated)]
      && r.value.wallets == s.wallets[admin := w.(balance := w.balance - Total(payees))]
      && Some(r.value.ledger) == TransferAll(s.ledger, w.token, s.self, payees)
  {
    hide AllPositive, Total, TransferAll, BalanceOf;
  }

  /** Whatever the state, a compensation that succeeds gives everyone what the lines name, in the wallet's token. */
  lemma CompensationDelivers(s: State, auth: set<Address>, admin: Address, id: EventId, participants: seq<Participant>,
                             who: Address)
    ensures var r := CompensateStep(s, auth, admin, id, participants); r.Some? ==>
              && admin in auth && OrganizedBy(s, id, admin) && admin in s.wallets
              && var t := s.wallets[admin].token;
                 BalanceOf(r.value.ledger, t, who) == BalanceOf(s.ledger, t, who) + Shared(participants, who)
                                                      - if who == s.self then SumOfShares(participants) else 0
  {
    hide TransferAll, BalanceOf, AllPositive, SumOfShares, Shared, Total, TotalTo;
    var r, payees := CompensateStep(s, auth, admin, id, participants), ParticipantPayees(participants);
    if r.Some? {
      var t := s.wallets[admin].token;
      TransferAllBalance(s.ledger, t, s.self, payees, r.value.ledger, t, who);
      ParticipantsTotal(participants, who);
    }
  }

  lemma ParticipantsPositive(participants: seq<Participant>)
    ensures var payees := ParticipantPayees(participants);
      AllPositive(payees) <==> forall i :: 0 <= i < |participants| ==> participants[i].amount > 0
  {
    var payees := ParticipantPayees(participants);
    if AllPositive(payees) {
      assert forall i :: 0 <= i < |participants| ==> participants[i].amount == payees[i].amount;
    }
  }

  lemma CompensationLedger(s: State, admin: Address, id: EventId, participants: seq<Participant>)
    requires Sound(s) && OrganizedBy(s, id, admin) && AllPositive(ParticipantPayees(participants))
    ensures admin in s.wallets && s.wallets[admin].token == s.events[id].token
    ensures SumOfShares(participants) <= s.Balance(admin) ==>
              var r := TransferAll(s.ledger, s.events[id].token, s.self, ParticipantPayees(participants));
              && r.Some?
              && forall t, who :: BalanceOf(r.value, t, who) == BalanceOf(s.ledger, t, who) +
                   if t != s.events[id].token then 0
                   else Shared(participants, who) - if who == s.self then SumOfShares(participants) else 0
  {
    assert TokensMatch(s);
    hide Sound, TransferAll, BalanceOf, AllPositive, SumOfShares, Total;
    var payees, token := ParticipantPayees(participants), s.events[id].token;
    ParticipantsTotal(participants, admin);
    if SumOfShares(participants) <= s.Balance(admin) {
      HoldingCoversWallet(s, admin);
      TransferAllSucceeds(s.ledger, token, s.self, payees);
      var r := TransferAll(s.ledger, token, s.self, payees);
      forall t, who
        ensures BalanceOf(r.value, t, who) == BalanceOf(s.ledger, t, who) +
                  if t != token then 0
                  else Shared(participants, who) - if who == s.self then SumOfShares(participants) else 0
      {
        TransferAllBalance(s.ledger, token, s.self, payees, r.value, t, who);
        ParticipantsTotal(participants, who);
      }
    }
  }
}
