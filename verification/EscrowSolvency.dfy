/**
 Solvency: for every token, the contract holds exactly what it owes (wallet balances and
 the rewards of events that have not ended) plus what was given to it.
 */
module EscrowSolvency {
  import opened Wrappers
  import opened MapSums
  import opened EscrowState
  import opened EscrowSteps
  import opened EscrowHistory

  // ------------------------------------------------------------------
  // What the contract owes
  // ------------------------------------------------------------------

  ghost function WalletShare(t: Address): AdminWallet -> int
  {
    (w: AdminWallet) => if w.token == t then w.balance else 0
  }

  ghost function EventShare(t: Address): Event -> int
  {
    (e: Event) => if e.token == t then e.Reserve() else 0
  }

  /** Wallet balances in token t plus the rewards of events that have not ended. */
  ghost function Owed(s: State, t: Address): int
  {
    SumOf(s.wallets, WalletShare(t)) + SumOf(s.events, EventShare(t))
  }

  /** What an entry gave to the contract for nothing. */
  function Gift(e: Entry, self: Address, t: Address): int
  {
    match e
    case Gifted(token, units) => if token == t then units else 0
    case FeeCharged(_, _, token, treasury, fee) => if token == t && treasury == self then fee else 0
    case PaidOut(_, token, payees) => if token == t then TotalTo(payees, self) else 0
    case CompensationPaid(_, _, token, payees) => if token == t then TotalTo(payees, self) else 0
    case _ => 0
  }

  function Gifts(h: seq<Entry>, self: Address, t: Address): int
  {
    if h == [] then 0 else Gifts(h[..|h| - 1], self, t) + Gift(h[|h| - 1], self, t)
  }

  /** Holding minus debts minus gifts. */
  ghost function Gap(s: State, t: Address): int
  {
    s.Holding(t) - Owed(s, t) - Gifts(s.history, s.self, t)
  }

  /** Every event is in the token of its organizer's wallet, and the contract has no wallet. */
  ghost predicate TokensMatch(s: State)
  {
    && s.self !in s.wallets
    && forall id :: id in s.events ==>
         s.events[id].admin in s.wallets && s.wallets[s.events[id].admin].token == s.events[id].token
  }

  ghost predicate Balanced(s: State)
  {
    TokensMatch(s) && forall t :: Gap(s, t) == 0
  }

  // ------------------------------------------------------------------
  // Updates
  // ------------------------------------------------------------------

  lemma WalletUpdate(s: State, s': State, admin: Address, w: AdminWallet, t: Address)
    requires s' == s.(wallets := s.wallets[admin := w])
    ensures Owed(s', t) == Owed(s, t) + WalletShare(t)(w)
                           - if admin in s.wallets then WalletShare(t)(s.wallets[admin]) else 0
  {
    SumUpdate(s.wallets, WalletShare(t), admin, w);
  }

  lemma CreditOwed(s: State, admin: Address, amount: int, s': State, t: Address)
    requires amount >= 0 && Credit(s, admin, amount) == Some(s')
    ensures Owed(s', t) == Owed(s, t) + if s.wallets[admin].token == t then amount else 0
  {
    hide Owed;
    WalletUpdate(s, s', admin, s'.wallets[admin], t);
  }

  lemma DebitOwed(s: State, admin: Address, amount: int, s': State, t: Address)
    requires amount >= 0 && Debit(s, admin, amount) == Some(s')
    ensures Owed(s', t) == Owed(s, t) - if s.wallets[admin].token == t then amount else 0
  {
    hide Owed;
    WalletUpdate(s, s', admin, s'.wallets[admin], t);
  }

  lemma EventOwed(s: State, id: EventId, e: Event, t: Address)
    ensures Owed(SetEvent(s, id, e), t) == Owed(s, t) + EventShare(t)(e)
                                           - if id in s.events then EventShare(t)(s.events[id]) else 0
  {
    SumUpdate(s.events, EventShare(t), id, e);
  }

  lemma RecordGifts(h: seq<Entry>, e: Entry, self: Address, t: Address)
    ensures Gifts(h + [e], self, t) == Gifts(h, self, t) + Gift(e, self, t)
  {
    assert (h + [e])[..|h|] == h;
  }

  lemma TransferBalance(l: Ledger, token: Address, from: Address, to: Address, amount: int, l': Ledger,
                        t: Address, who: Address)
    requires Transfer(l, token, from, to, amount) == Some(l')
    ensures BalanceOf(l', t, who) == BalanceOf(l, t, who)
                                     - (if t == token && who == from then amount else 0)
                                     + if t == token && who == to then amount else 0
  {}

  lemma {:induction false} TransferAllBalance(l: Ledger, token: Address, from: Address, payees: seq<Payee>, l': Ledger,
                                              t: Address, who: Address)
    requires TransferAll(l, token, from, payees) == Some(l')
    ensures BalanceOf(l', t, who) == BalanceOf(l, t, who)
                                     - (if t == token && who == from then Total(payees) else 0)
                                     + if t == token then TotalTo(payees, who) else 0
  {
    hide Transfer, BalanceOf;
    if payees != [] {
      var n := |payees| - 1;
      var mid := TransferAll(l, token, from, payees[..n]).value;
      TransferAllBalance(l, token, from, payees[..n], mid, t, who);
      TransferBalance(mid, token, from, payees[n].address, payees[n].amount, l', t, who);
    }
  }

  /** A list of positive payments succeeds once the payer holds the total. */
  lemma {:induction false} TransferAllSucceeds(l: Ledger, token: Address, from: Address, payees: seq<Payee>)
    requires AllPositive(payees) && BalanceOf(l, token, from) >= Total(payees)
    ensures TransferAll(l, token, from, payees).Some?
  {
    hide BalanceOf;
    if payees != [] {
      var n := |payees| - 1;
      TransferAllSucceeds(l, token, from, payees[..n]);
      var mid := TransferAll(l, token, from, payees[..n]).value;
      TransferAllBalance(l, token, from, payees[..n], mid, token, from);
      TotalToNonNegative(payees[..n], from);
      TransferSucceeds(mid, token, from, payees[n].address, payees[n].amount);
    }
  }

  lemma TransferSucceeds(l: Ledger, token: Address, from: Address, to: Address, amount: int)
    requires 0 <= amount <= BalanceOf(l, token, from)
    ensures Transfer(l, token, from, to, amount).Some?
  {}

  lemma {:induction false} TotalToNonNegative(payees: seq<Payee>, who: Address)
    requires AllPositive(payees)
    ensures 0 <= TotalTo(payees, who) <= Total(payees)
  {
    if payees != [] {
      TotalToNonNegative(payees[..|payees| - 1], who);
    }
  }

  // ------------------------------------------------------------------
  // Steps keep the books balanced
  // ------------------------------------------------------------------

  lemma DepositGap(s: State, auth: set<Address>, admin: Address, token: Address, amount: i128, s': State, t: Address)
    requires s.self !in auth && DepositStep(s, auth, admin, token, amount) == Some(s')
    ensures Gap(s', t) == Gap(s, t)
  {
    hide Owed, Gifts, Transfer, BalanceOf;
    var ledger := Transfer(s.ledger, token, admin, s.self, amount).value;
    var wallet := if admin in s.wallets then s.wallets[admin] else AdminWallet(token, 0);
    var known := s.(ledger := ledger, wallets := s.wallets[admin := wallet]);
    var credited := Credit(known, admin, amount).value;
    TransferBalance(s.ledger, token, admin, s.self, amount, ledger, t, s.self);
    OwedIgnores(s, s.(ledger := ledger), t);
    WalletUpdate(s.(ledger := ledger), known, admin, wallet, t);
    CreditOwed(known, admin, amount, credited, t);
    OwedIgnores(credited, s', t);
    RecordGifts(s.history, Deposited(admin, token, amount), s.self, t);
  }

  /** Debts only depend on wallets and events. */
  lemma OwedIgnores(s: State, s': State, t: Address)
    requires s.wallets == s'.wallets && s.events == s'.events
    ensures Owed(s, t) == Owed(s', t)
  {}

  lemma WithdrawGap(s: State, auth: set<Address>, admin: Address, amount: i128, s': State, t: Address)
    requires s.self !in auth && WithdrawStep(s, auth, admin, amount) == Some(s')
    ensures Gap(s', t) == Gap(s, t)
  {
    hide Owed, Gifts, Transfer, BalanceOf;
    var token := s.wallets[admin].token;
    var debited := Debit(s, admin, amount).value;
    DebitOwed(s, admin, amount, debited, t);
    TransferBalance(s.ledger, token, s.self, admin, amount, s'.ledger, t, s.self);
    OwedIgnores(debited, s', t);
    RecordGifts(s.history, Withdrawn(admin, token, amount), s.self, t);
  }

  lemma CreateGap(s: State, auth: set<Address>, admin: Address, judge: Address, namedResolver: Option<Address>,
                  token: Address, reward: i128, id: EventId, deadline: Option<nat>, s': State, t: Address)
    requires CreateStep(s, auth, admin, judge, namedResolver, token, reward, id, deadline) == Some(s')
    ensures Gap(s', t) == Gap(s, t)
  {
    hide Owed, Gifts, BalanceOf;
    var debited := Debit(s, admin, reward).value;
    DebitOwed(s, admin, reward, debited, t);
    var stored := SetEvent(debited, id, s'.events[id]);
    EventOwed(debited, id, s'.events[id], t);
    OwedIgnores(stored, s', t);
    RecordGifts(s.history, Reserved(id, admin, reward), s.self, t);
  }

  lemma RefundGap(s: State, id: EventId, s': State, t: Address)
    requires TokensMatch(s) && id in s.events && s.events[id].Live() && RefundStep(s, id) == Some(s')
    ensures Gap(s', t) == Gap(s, t)
  {
    hide Owed, Gifts, BalanceOf;
    var e := s.events[id];
    var cancelled := SetEvent(s, id, e.(state := Cancelled));
    EventOwed(s, id, e.(state := Cancelled), t);
    CreditOwed(cancelled, e.admin, e.reward, Credit(cancelled, e.admin, e.reward).value, t);
    OwedIgnores(Credit(cancelled, e.admin, e.reward).value, s', t);
    RecordGifts(s.history, Refunded(id, e.admin, e.reward), s.self, t);
  }

  lemma EmergencyGap(s: State, auth: set<Address>, admin: Address, resolver: Address, id: EventId, amount: i128,
                     s': State, t: Address)
    requires TokensMatch(s) && EmergencyStep(s, auth, admin, resolver, id, amount) == Some(s')
    ensures Gap(s', t) == Gap(s, t)
  {
    hide Owed, Gifts, BalanceOf;
    var e := s.events[id];
    var lowered := SetEvent(s, id, e.(reward := e.reward - amount));
    EventOwed(s, id, e.(reward := e.reward - amount), t);
    CreditOwed(lowered, admin, amount, Credit(lowered, admin, amount).value, t);
    OwedIgnores(Credit(lowered, admin, amount).value, s', t);
    RecordGifts(s.history, EmergencyWithdrawn(id, admin, amount), s.self, t);
  }

  lemma ChargeGap(s: State, id: EventId, fee: money, s': State, t: Address)
    requires TokensMatch(s) && id in s.events && ChargeStep(s, id, fee) == Some(s')
    ensures Gap(s', t) == Gap(s, t)
    ensures s'.events == s.events && TokensMatch(s')
  {
    hide Owed, Gifts, Transfer, BalanceOf;
    if fee > 0 {
      var e := s.events[id];
      var debited := Debit(s, e.admin, fee).value;
      DebitOwed(s, e.admin, fee, debited, t);
      TransferBalance(s.ledger, e.token, s.self, s.gov.treasury.value, fee, s'.ledger, t, s.self);
      OwedIgnores(debited, s', t);
      RecordGifts(s.history, FeeCharged(id, e.admin, e.token, s.gov.treasury.value, fee), s.self, t);
    }
  }

  lemma StartGap(s: State, auth: set<Address>, admin: Address, id: EventId, judgingDeadline: nat, s': State, t: Address)
    requires TokensMatch(s) && StartStep(s, auth, admin, id, judgingDeadline) == Some(s')
    ensures Gap(s', t) == Gap(s, t)
  {
    hide Owed, Gifts, BalanceOf, ChargeStep;
    var e := s.events[id];
    var fee := GoLiveFee(s.gov.FeeRate(), e.reward).value;
    var charged := ChargeStep(s, id, fee).value;
    ChargeGap(s, id, fee, charged, t);
    EventOwed(charged, id, s'.events[id], t);
    OwedIgnores(SetEvent(charged, id, s'.events[id]), s', t);
    RecordGifts(charged.history, Started(id, admin, e.token, e.reward), s.self, t);
    ChargeFrame(s, id, fee, charged);
  }

  lemma ChargeFrame(s: State, id: EventId, fee: money, s': State)
    requires id in s.events && ChargeStep(s, id, fee) == Some(s')
    ensures s'.self == s.self && s'.events == s.events
  {}

  lemma PayoutGap(s: State, id: EventId, payees: seq<Payee>, s': State, t: Address)
    requires id in s.events && s.events[id].Live() && PayoutStep(s, id, payees) == Some(s')
    ensures Gap(s', t) == Gap(s, t)
  {
    hide Owed, Gifts, TransferAll, BalanceOf, Total, TotalTo;
    var e := s.events[id];
    EventOwed(s, id, e.(state := Ended), t);
    OwedIgnores(SetEvent(s, id, e.(state := Ended)), s', t);
    TransferAllBalance(s.ledger, e.token, s.self, payees, s'.ledger, t, s.self);
    RecordGifts(s.history, PaidOut(id, e.token, payees), s.self, t);
  }

  lemma CompensateGap(s: State, auth: set<Address>, admin: Address, id: EventId, participants: seq<Participant>,
                      s': State, t: Address)
    requires CompensateStep(s, auth, admin, id, participants) == Some(s')
    ensures Gap(s', t) == Gap(s, t)
  {
    hide Owed, Gifts, TransferAll, BalanceOf, Total, TotalTo;
    var payees, token := ParticipantPayees(participants), s.wallets[admin].token;
    TotalNonNegative(payees);
    var debited := Debit(s, admin, Total(payees)).value;
    DebitOwed(s, admin, Total(payees), debited, t);
    EventOwed(debited, id, s'.events[id], t);
    OwedIgnores(SetEvent(debited, id, s'.events[id]), s', t);
    TransferAllBalance(s.ledger, token, s.self, payees, s'.ledger, t, s.self);
    RecordGifts(s.history, CompensationPaid(id, admin, token, payees), s.self, t);
  }

  lemma OutsideGap(s: State, token: Address, from: Address, to: Address, amount: nat, s': State, t: Address)
    requires OutsideStep(s, token, from, to, amount) == Some(s')
    ensures Gap(s', t) == Gap(s, t)
  {
    hide Owed, Gifts, Transfer, BalanceOf;
    var moved := s.(ledger := s'.ledger);
    TransferBalance(s.ledger, token, from, to, amount, s'.ledger, t, s.self);
    OwedIgnores(s, moved, t);
    OwedIgnores(s, s', t);
    if to == s.self {
      RecordGifts(s.history, Gifted(token, amount), s.self, t);
    }
  }

  lemma CallGap(s: State, auth: set<Address>, call: Call, s': State, t: Address)
    requires TokensMatch(s) && s.self !in auth && Apply(s, auth, call) == Some(s')
    ensures Gap(s', t) == Gap(s, t)
  {
    hide Gap, DepositStep, WithdrawStep, CreateStep, RefundStep, StartStep, EmergencyStep, PayoutStep, CompensateStep;
    match call
    case DepositFunds(admin, token, amount) => DepositGap(s, auth, admin, token, amount, s', t);
    case WithdrawFunds(admin, amount) => WithdrawGap(s, auth, admin, amount, s', t);
    case CreateEvent(admin, judge, resolver, token, reward, id, deadline) =>
      CreateGap(s, auth, admin, judge, resolver, token, reward, id, deadline, s', t);
    case ExpireEvent(id) => RefundGap(s, id, s', t);
    case SetEventWaitingForStart(admin, id) => WaitGap(s, auth, admin, id, s', t);
    case SetEventInProgress(admin, id, judgingDeadline) => StartGap(s, auth, admin, id, judgingDeadline, s', t);
    case SetEventCancelled(admin, id) => RefundGap(s, id, s', t);
    case EmergencyWithdraw(admin, resolver, id, amount) => EmergencyGap(s, auth, admin, resolver, id, amount, s', t);
    case ReleaseCompensation(admin, id, participants) => CompensateGap(s, auth, admin, id, participants, s', t);
    case ReleaseReward(judge, id, winners) => PayoutGap(s, id, WinnerPayees(winners), s', t);
    case ResolveDispute(resolver, id, winners) => PayoutGap(s, id, WinnerPayees(winners), s', t);
    case Govern(change) => QuietGap(s, s', t);
  }

  lemma WaitGap(s: State, auth: set<Address>, admin: Address, id: EventId, s': State, t: Address)
    requires WaitStep(s, auth, admin, id) == Some(s')
    ensures Gap(s', t) == Gap(s, t)
  {
    hide Owed;
    EventOwed(s, id, s'.events[id], t);
  }

  /** Steps that touch no money. */
  lemma QuietGap(s: State, s': State, t: Address)
    requires s' == s.(gov := s'.gov, clock := s'.clock)
    ensures Gap(s', t) == Gap(s, t)
  {}

  lemma NextGap(s: State, step: Step, s': State, t: Address)
    requires TokensMatch(s) && Next(s, step) == Some(s')
    ensures Gap(s', t) == Gap(s, t)
  {
    hide Gap, Apply, OutsideStep;
    match step
    case Invoke(call, auth) => CallGap(s, auth, call, s', t);
    case Outside(token, from, to, amount) => OutsideGap(s, token, from, to, amount, s', t);
    case Tick(now) => QuietGap(s, s', t);
  }

  lemma NextTokensMatch(s: State, step: Step)
    requires TokensMatch(s)
    ensures TokensMatch(After(s, step)) && After(s, step).self == s.self
  {
    hide After;
    AfterGrows(s, step);
  }

  /** Every step keeps the books balanced. */
  lemma NextBalanced(s: State, step: Step)
    requires Balanced(s)
    ensures Balanced(After(s, step))
  {
    hide Gap, Next, TokensMatch;
    NextTokensMatch(s, step);
    forall t
      ensures Gap(After(s, step), t) == 0
    {
      if Next(s, step).Some? {
        NextGap(s, step, After(s, step), t);
      }
    }
  }

  // ------------------------------------------------------------------
  // Main results
  // ------------------------------------------------------------------

  lemma InitialBalanced(s: State)
    requires Initial(s)
    ensures Balanced(s)
  {}

  lemma {:induction false} RunBalanced(s: State, steps: seq<Step>)
    requires Balanced(s)
    ensures Balanced(Run(s, steps)) && Run(s, steps).self == s.self
  {
    hide Balanced, After;
    if steps != [] {
      RunBalanced(s, steps[..|steps| - 1]);
      var mid := Run(s, steps[..|steps| - 1]);
      NextBalanced(mid, steps[|steps| - 1]);
      AfterSelf(mid, steps[|steps| - 1]);
    }
  }

  lemma AfterSelf(s: State, step: Step)
    requires Balanced(s)
    ensures After(s, step).self == s.self
  {
    NextTokensMatch(s, step);
  }

  // ------------------------------------------------------------------
  // Gifts
  // ------------------------------------------------------------------

  /** No transfer in the history is negative. */
  ghost predicate HistoryPositive(s: State)
  {
    forall i :: 0 <= i < |s.history| ==> PositivePayments(s.history[i])
  }

  /** Nothing was ever paid to the contract itself, from outside or as a payee. */
  ghost predicate NothingGiven(s: State, t: Address)
  {
    forall i :: 0 <= i < |s.history| ==> Gift(s.history[i], s.self, t) == 0
  }

  lemma {:induction false} GiftsNonNegative(h: seq<Entry>, self: Address, t: Address)
    requires forall i :: 0 <= i < |h| ==> PositivePayments(h[i])
    ensures Gifts(h, self, t) >= 0
    ensures (forall i :: 0 <= i < |h| ==> Gift(h[i], self, t) == 0) <==> Gifts(h, self, t) == 0
  {
    if h != [] {
      GiftsNonNegative(h[..|h| - 1], self, t);
      GiftNonNegative(h[|h| - 1], self, t);
    }
  }

  lemma GiftNonNegative(e: Entry, self: Address, t: Address)
    requires PositivePayments(e)
    ensures Gift(e, self, t) >= 0
  {
    match e
    case PaidOut(_, _, payees) => TotalToNonNegative(payees, self);
    case CompensationPaid(_, _, _, payees) => TotalToNonNegative(payees, self);
    case _ => {}
  }

  lemma AfterHistoryPositive(s: State, step: Step)
    requires RateBounded(s.gov) && HistoryPositive(s)
    ensures RateBounded(After(s, step).gov) && HistoryPositive(After(s, step))
  {
    hide After, RateBounded, PositivePayments;
    AfterRateBounded(s, step);
    AfterMoves(s, step);
    assert After(s, step).history == s.history + News(s, After(s, step));
    NewsPositive(News(s, After(s, step)));
  }

  lemma NewsPositive(news: seq<Entry>)
    requires NewsShape(news)
    ensures forall i :: 0 <= i < |news| ==> PositivePayments(news[i])
  {}

  lemma {:induction false} RunHistoryPositive(s: State, steps: seq<Step>)
    requires RateBounded(s.gov) && HistoryPositive(s)
    ensures RateBounded(Run(s, steps).gov) && HistoryPositive(Run(s, steps))
  {
    hide After, HistoryPositive, RateBounded;
    if steps != [] {
      RunHistoryPositive(s, steps[..|steps| - 1]);
      AfterHistoryPositive(Run(s, steps[..|steps| - 1]), steps[|steps| - 1]);
    }
  }

  /** After any run the contract can pay all it owes, and holds nothing else exactly if nothing was given to it. */
  lemma Solvency(s: State, steps: seq<Step>, t: Address)
    requires Initial(s)
    ensures var r := Run(s, steps);
      && r.Holding(t) >= Owed(r, t)
      && (r.Holding(t) == Owed(r, t) <==> NothingGiven(r, t))
  {
    hide Owed, Gift, Run;
    InitialBalanced(s);
    RunBalanced(s, steps);
    RunHistoryPositive(s, steps);
    var r := Run(s, steps);
    GiftsNonNegative(r.history, r.self, t);
    assert Gap(r, t) == 0;
  }
}
