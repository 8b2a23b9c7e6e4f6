/**
 No stranded money: in every reachable state the exits that the contract promises are open.
 */
module EscrowLiveness {
  import opened Wrappers
  import opened MapSums
  import opened EscrowState
  import opened EscrowSteps
  import opened EscrowHistory
  import opened EscrowSolvency
  import opened EscrowConservation

  /** What holds in every reachable state. */
  ghost predicate Sound(s: State)
  {
    Balanced(s) && HistoryPositive(s) && RateBounded(s.gov) && AllBooks(s)
  }

  lemma InitialSound(s: State)
    requires Initial(s)
    ensures Sound(s)
  {}

  lemma AfterSound(s: State, step: Step)
    requires Sound(s)
    ensures Sound(After(s, step)) && After(s, step).self == s.self
  {
    hide Balanced, HistoryPositive, RateBounded, AllBooks, After;
    NextBalanced(s, step);
    AfterHistoryPositive(s, step);
    AfterAllBooks(s, step);
    AfterGrows(s, step);
  }

  lemma {:induction false} RunSound(s: State, steps: seq<Step>)
    requires Sound(s)
    ensures Sound(Run(s, steps)) && Run(s, steps).self == s.self
  {
    hide Sound, After;
    if steps != [] {
      RunSound(s, steps[..|steps| - 1]);
      AfterSound(Run(s, steps[..|steps| - 1]), steps[|steps| - 1]);
    }
  }

  lemma SharesNonNegative(t: Address)
    ensures forall w: AdminWallet :: WalletShare(t)(w) >= 0
    ensures forall e: Event :: EventShare(t)(e) >= 0
  {}

  lemma HoldingCoversAll(s: State, t: Address)
    requires Sound(s)
    ensures s.Holding(t) >= Owed(s, t)
  {
    hide Owed, Gifts;
    GiftsNonNegative(s.history, s.self, t);
    assert Gap(s, t) == 0;
  }

  lemma HoldingCoversWallet(s: State, admin: Address)
    requires Sound(s) && admin in s.wallets
    ensures s.Holding(s.wallets[admin].token) >= s.wallets[admin].balance
  {
    hide Sound;
    var t := s.wallets[admin].token;
    HoldingCoversAll(s, t);
    SharesNonNegative(t);
    SumAtLeast(s.wallets, WalletShare(t), admin);
    SumNonNegative(s.events, EventShare(t));
  }

  lemma HoldingCoversReserve(s: State, id: EventId)
    requires Sound(s) && id in s.events
    ensures s.Holding(s.events[id].token) >= s.events[id].Reserve()
  {
    hide Sound;
    var t := s.events[id].token;
    HoldingCoversAll(s, t);
    SharesNonNegative(t);
    SumAtLeast(s.events, EventShare(t), id);
    SumNonNegative(s.wallets, WalletShare(t));
  }

  /** The reserve of an event and the wallet of its organizer are covered together. */
  lemma HoldingCoversBoth(s: State, id: EventId)
    requires Sound(s) && id in s.events
    ensures s.events[id].admin in s.wallets
    ensures s.Holding(s.events[id].token) >= s.wallets[s.events[id].admin].balance + s.events[id].Reserve()
  {
    var t, admin := s.events[id].token, s.events[id].admin;
    assert TokensMatch(s);
    hide Sound;
    HoldingCoversAll(s, t);
    SharesNonNegative(t);
    SumAtLeast(s.wallets, WalletShare(t), admin);
    SumAtLeast(s.events, EventShare(t), id);
  }

  // ------------------------------------------------------------------
  // Open exits
  // ------------------------------------------------------------------

  /** An organizer who is not paused can withdraw any part of the wallet balance. */
  lemma WithdrawalSucceeds(s: State, auth: set<Address>, admin: Address, amount: i128)
    requires Sound(s) && s.self !in auth && admin in auth && !s.gov.IsPaused(admin)
    requires 0 < amount <= s.Balance(admin)
    ensures Next(s, Invoke(WithdrawFunds(admin, amount), auth)).Some?
  {
    hide Sound, BalanceOf;
    HoldingCoversWallet(s, admin);
    TransferSucceeds(s.ledger, s.wallets[admin].token, s.self, admin, amount);
  }

  lemma PayoutSucceeds(s: State, id: EventId, payees: seq<Payee>)
    requires Sound(s) && id in s.events && s.events[id].state == InProgress && ValidWinners(payees, s.events[id].reward)
    ensures PayoutStep(s, id, payees).Some?
  {
    hide Sound, BalanceOf, TransferAll;
    HoldingCoversReserve(s, id);
    TransferAllSucceeds(s.ledger, s.events[id].token, s.self, payees);
  }

  /** The judge of a live event can release its reward to any valid list. */
  lemma ReleaseSucceeds(s: State, auth: set<Address>, id: EventId, winners: seq<Winner>)
    requires Sound(s) && s.self !in auth && id in s.events && s.events[id].judge in auth
    requires !s.gov.IsPaused(s.events[id].admin) && s.events[id].state == InProgress
    requires ValidWinners(WinnerPayees(winners), s.events[id].reward)
    ensures Next(s, Invoke(ReleaseReward(s.events[id].judge, id, winners), auth)).Some?
  {
    hide Sound, PayoutStep, ValidWinners;
    PayoutSucceeds(s, id, WinnerPayees(winners));
  }

  /** The resolver of a live event can settle it once its judging deadline, which is always set, has passed. */
  lemma SettlementSucceeds(s: State, auth: set<Address>, id: EventId, winners: seq<Winner>)
    requires Sound(s) && s.self !in auth && id in s.events && s.events[id].resolver in auth
    requires !s.gov.IsPaused(s.events[id].admin) && s.events[id].state == InProgress
    requires ValidWinners(WinnerPayees(winners), s.events[id].reward)
    ensures s.events[id].judgingDeadline.Some?
    ensures s.clock >= s.events[id].judgingDeadline.value ==>
              Next(s, Invoke(ResolveDispute(s.events[id].resolver, id, winners), auth)).Some?
  {
    DeadlineSet(s, id);
    hide Sound, PayoutStep, ValidWinners;
    PayoutSucceeds(s, id, WinnerPayees(winners));
  }

  lemma DeadlineSet(s: State, id: EventId)
    requires AllBooks(s) && id in s.events && s.events[id].state == InProgress
    ensures s.events[id].judgingDeadline.Some?
  {
    hide Sum, Count, EventLog;
    assert EventBooks(Find(s, id), EventLog(s.history, id));
  }

  /** The refund of this event does not overflow its organizer's wallet. */
  predicate RefundFits(s: State, id: EventId)
    requires id in s.events
  {
    s.Balance(s.events[id].admin) + s.events[id].reward <= I128_MAX
  }

  /** While the contract's own balance is a 128-bit value no refund overflows. */
  lemma RefundsFit(s: State, id: EventId)
    requires Sound(s) && id in s.events && s.events[id].PreLaunch() && s.Holding(s.events[id].token) <= I128_MAX
    ensures RefundFits(s, id)
  {
    hide Sound, BalanceOf;
    HoldingCoversBoth(s, id);
  }

  /**
   Once its deadline has passed an event that has not started can be expired by anyone,
   paused or not, exactly if the refund fits; it does whenever the contract's balance is
   a 128-bit value.
   */
  lemma ExpirySucceeds(s: State, auth: set<Address>, id: EventId)
    requires Sound(s) && s.self !in auth && id in s.events && s.events[id].PreLaunch()
    requires s.events[id].deadline.Some? && s.clock >= s.events[id].deadline.value
    ensures Next(s, Invoke(ExpireEvent(id), auth)).Some? <==> RefundFits(s, id)
    ensures s.Holding(s.events[id].token) <= I128_MAX ==> RefundFits(s, id)
  {
    if s.Holding(s.events[id].token) <= I128_MAX { RefundsFit(s, id); }
    HasWallet(s, id);
    hide Sound, BalanceOf;
  }

  lemma HasWallet(s: State, id: EventId)
    requires Sound(s) && id in s.events
    ensures s.events[id].admin in s.wallets
  {
    assert TokensMatch(s);
  }

  /** Before the start the organizer can cancel and get the whole reserve back, exactly if it fits. */
  lemma CancellationSucceeds(s: State, auth: set<Address>, id: EventId)
    requires Sound(s) && s.self !in auth && id in s.events && s.events[id].PreLaunch()
    requires s.events[id].admin in auth && !s.gov.IsPaused(s.events[id].admin)
    ensures var r := Next(s, Invoke(SetEventCancelled(s.events[id].admin, id), auth));
      && (r.Some? <==> RefundFits(s, id))
      && (r.Some? ==> r.value.Balance(s.events[id].admin) == s.Balance(s.events[id].admin) + s.events[id].reward)
    ensures s.Holding(s.events[id].token) <= I128_MAX ==> RefundFits(s, id)
  {
    if s.Holding(s.events[id].token) <= I128_MAX { RefundsFit(s, id); }
    HasWallet(s, id);
    hide Sound, BalanceOf;
  }
}
