/**
 Conservation of money over every run: per event, per wallet and for the fees.
 */
module EscrowConservation {
  import opened Wrappers
  import opened EscrowState
  import opened EscrowSteps
  import opened EscrowHistory
  import opened EscrowSolvency

  datatype Kind = Original | Emergency | Refund | Payout | Start | Fee

  /** The amount an entry contributes to one kind of flow. */
  function AmountOf(e: Entry, kind: Kind): int
  {
    match (kind, e)
    case (Original, Reserved(_, _, reward)) => reward
    case (Emergency, EmergencyWithdrawn(_, _, amount)) => amount
    case (Refund, Refunded(_, _, amount)) => amount
    case (Payout, PaidOut(_, _, payees)) => Total(payees)
    case (Start, Started(_, _, _, reward)) => reward
    case (Fee, FeeCharged(_, _, _, _, fee)) => fee
    case _ => 0
  }

  predicate IsKind(e: Entry, kind: Kind)
  {
    match kind
    case Original => e.Reserved?
    case Emergency => e.EmergencyWithdrawn?
    case Refund => e.Refunded?
    case Payout => e.PaidOut?
    case Start => e.Started?
    case Fee => e.FeeCharged?
  }

  function Sum(log: seq<Entry>, kind: Kind): int
  {
    if log == [] then 0 else Sum(log[..|log| - 1], kind) + AmountOf(log[|log| - 1], kind)
  }

  function Count(log: seq<Entry>, kind: Kind): nat
  {
    if log == [] then 0 else Count(log[..|log| - 1], kind) + if IsKind(log[|log| - 1], kind) then 1 else 0
  }

  lemma SumAppend(log: seq<Entry>, e: Entry)
    ensures forall kind :: Sum(log + [e], kind) == Sum(log, kind) + AmountOf(e, kind)
    ensures forall kind :: Count(log + [e], kind) == Count(log, kind) + if IsKind(e, kind) then 1 else 0
  {
    assert (log + [e])[..|log|] == log;
  }

  // ------------------------------------------------------------------
  // Per event
  // ------------------------------------------------------------------

  /** What the log of an event adds up to, given its present state. */
  ghost predicate EventBooks(found: Option<Event>, log: seq<Entry>)
  {
    match found
    case None => log == []
    case Some(e) =>
      && Count(log, Original) == 1
      && Sum(log, Original) == e.Reserve() + Sum(log, Emergency) + Sum(log, Refund) + Sum(log, Payout)
      && (e.PreLaunch() ==> Count(log, Refund) == Count(log, Payout) == Count(log, Start) == Count(log, Fee) == 0)
      && (e.state == InProgress ==>
            e.judgingDeadline.Some? && Count(log, Refund) == Count(log, Payout) == 0 && Launched(e, log))
      && (e.state == Ended ==>
            Count(log, Refund) == 0 && Count(log, Payout) == 1 && Sum(log, Payout) == e.reward && Launched(e, log))
      && (e.state == Cancelled || e.state == Compensated ==>
            Count(log, Refund) == 1 && Sum(log, Refund) == e.reward
            && Count(log, Payout) == Count(log, Start) == Count(log, Fee) == 0)
  }

  /** Started once with the whole reward, charged at most once and at most 5%. */
  ghost predicate Launched(e: Event, log: seq<Entry>)
  {
    && Count(log, Start) == 1 && Sum(log, Start) == e.reward
    && Count(log, Fee) <= 1 && 0 <= Sum(log, Fee) * 20 <= e.reward
  }

  lemma {:induction false} EmptyKind(log: seq<Entry>, kind: Kind)
    requires Count(log, kind) == 0
    ensures Sum(log, kind) == 0
  {
    if log != [] {
      EmptyKind(log[..|log| - 1], kind);
    }
  }

  lemma AllEmptyKinds(log: seq<Entry>)
    ensures forall kind :: Count(log, kind) == 0 ==> Sum(log, kind) == 0
  {
    forall kind | Count(log, kind) == 0
      ensures Sum(log, kind) == 0
    {
      EmptyKind(log, kind);
    }
  }

  lemma MoveKeepsBooks(e: Option<Event>, e': Option<Event>, id: EventId, log: seq<Entry>, news: seq<Entry>)
    requires EventBooks(e, log) && EventMove(e, e', id, news)
    ensures EventBooks(e', log + news)
  {
    hide Sum, Count, PayoutLog, CompensationLog;
    AllEmptyKinds(log);
    SumEmpty();
    if e.Some? { OneEntryLogs(e.value, id, news); }
    if news == [] {
      assert log + news == log;
    } else if |news| == 1 {
      assert news == [news[0]];
      SumAppend(log, news[0]);
    } else {
      assert log + news == log + [news[0]] + [news[1]];
      SumAppend(log, news[0]);
      SumAppend(log + [news[0]], news[1]);
    }
  }

  lemma OneEntryLogs(e: Event, id: EventId, news: seq<Entry>)
    ensures PayoutLog(e, id, news) ==> |news| == 1 && news[0].PaidOut? && Total(news[0].payees) == e.reward
    ensures CompensationLog(e, id, news) ==> |news| == 1 && news[0].CompensationPaid?
  {}

  lemma SumEmpty()
    ensures forall kind :: Sum([], kind) == 0 && Count([], kind) == 0
  {}

  ghost predicate AllBooks(s: State)
  {
    forall id :: EventBooks(Find(s, id), EventLog(s.history, id))
  }

  lemma AfterAllBooks(s: State, step: Step)
    requires RateBounded(s.gov) && AllBooks(s)
    ensures AllBooks(After(s, step))
  {
    hide EventBooks, EventMove, After, NewsShape, EventLog;
    AfterMoves(s, step);
    var s' := After(s, step);
    forall id
      ensures EventBooks(Find(s', id), EventLog(s'.history, id))
    {
      EventLogConcat(s.history, News(s, s'), id);
      MoveKeepsBooks(Find(s, id), Find(s', id), id, EventLog(s.history, id), EventLog(News(s, s'), id));
    }
  }

  lemma {:induction false} RunAllBooks(s: State, steps: seq<Step>)
    requires RateBounded(s.gov) && AllBooks(s)
    ensures RateBounded(Run(s, steps).gov) && AllBooks(Run(s, steps))
  {
    hide After, AllBooks, RateBounded;
    if steps != [] {
      RunAllBooks(s, steps[..|steps| - 1]);
      var mid := Run(s, steps[..|steps| - 1]);
      AfterAllBooks(mid, steps[|steps| - 1]);
      AfterRateBounded(mid, steps[|steps| - 1]);
    }
  }

  /**
   After any run, the original reward of an event is what is still reserved plus all
   that ever left: emergency withdrawals, the refund and the payout.
   */
  lemma EventConservation(s: State, steps: seq<Step>, id: EventId)
    requires Initial(s)
    ensures var r := Run(s, steps);
      var log := EventLog(r.history, id);
      && EventBooks(Find(r, id), log)
      && Sum(log, Original) == r.Reserve(id) + Sum(log, Emergency) + Sum(log, Refund) + Sum(log, Payout)
  {
    hide Run;
    RunAllBooks(s, steps);
    SumEmpty();
  }

  /** An event that is in progress stays as it is until one payout of exactly its reward ends it for good. */
  lemma {:induction false} LiveLeavesByOnePayout(s: State, steps: seq<Step>, id: EventId)
    requires RateBounded(s.gov) && id in s.events && s.events[id].state == InProgress
    ensures var r := Run(s, steps);
      && RateBounded(r.gov) && s.history <= r.history && id in r.events
      && var since := EventLog(News(s, r), id);
        || (r.events[id] == s.events[id] && since == [])
        || (r.events[id] == s.events[id].(state := Ended) && PayoutLog(s.events[id], id, since))
  {
    hide RateBounded, After, NewsShape, PayoutLog, CompensationLog, StartLog, EventLog;
    if steps == [] {
      assert News(s, Run(s, steps)) == [];
      NoLog(id);
    } else {
      LiveLeavesByOnePayout(s, steps[..|steps| - 1], id);
      var mid, r := Run(s, steps[..|steps| - 1]), Run(s, steps);
      AfterMoves(mid, steps[|steps| - 1]);
      AfterRateBounded(mid, steps[|steps| - 1]);
      assert EventMove(Find(mid, id), Find(r, id), id, EventLog(News(mid, r), id));
      assert News(s, r) == News(s, mid) + News(mid, r);
      EventLogConcat(News(s, mid), News(mid, r), id);
      var before, last := EventLog(News(s, mid), id), EventLog(News(mid, r), id);
      assert before == [] ==> before + last == last;
      assert last == [] ==> before + last == before;
    }
  }

  lemma NoLog(id: EventId)
    ensures EventLog([], id) == []
  {}

  /** A payout delivers to every outsider exactly what the list names for it. */
  lemma PayoutDelivers(s: State, id: EventId, payees: seq<Payee>, s': State, who: Address)
    requires id in s.events && PayoutStep(s, id, payees) == Some(s') && who != s.self
    ensures var t := s.events[id].token;
      BalanceOf(s'.ledger, t, who) == BalanceOf(s.ledger, t, who) + TotalTo(payees, who)
  {
    hide TransferAll, BalanceOf;
    TransferAllBalance(s.ledger, s.events[id].token, s.self, payees, s'.ledger, s.events[id].token, who);
  }

  // ------------------------------------------------------------------
  // Per wallet
  // ------------------------------------------------------------------

  /** What an entry does to a wallet. */
  function WalletEffect(e: Entry, admin: Address): int
  {
    match e
    case Deposited(a, _, amount) => if a == admin then amount else 0
    case Withdrawn(a, _, amount) => if a == admin then 0 - amount else 0
    case Reserved(_, a, reward) => if a == admin then 0 - reward else 0
    case EmergencyWithdrawn(_, a, amount) => if a == admin then amount else 0
    case Refunded(_, a, amount) => if a == admin then amount else 0
    case FeeCharged(_, a, _, _, fee) => if a == admin then 0 - fee else 0
    case CompensationPaid(_, a, _, payees) => if a == admin then -Total(payees) else 0
    case _ => 0
  }

  function WalletSum(h: seq<Entry>, admin: Address): int
  {
    if h == [] then 0 else WalletSum(h[..|h| - 1], admin) + WalletEffect(h[|h| - 1], admin)
  }

  lemma WalletSumAppend(h: seq<Entry>, e: Entry, admin: Address)
    ensures WalletSum(h + [e], admin) == WalletSum(h, admin) + WalletEffect(e, admin)
  {
    assert (h + [e])[..|h|] == h;
  }

  /** A wallet holds exactly what its history adds up to. */
  ghost predicate WalletBooks(s: State)
  {
    forall a :: s.Balance(a) == WalletSum(s.history, a)
  }

  ghost predicate OneWalletEntry(s: State, s': State, e: Entry)
  {
    s'.history == s.history + [e] && forall a :: s'.Balance(a) == s.Balance(a) + WalletEffect(e, a)
  }

  lemma OneWalletEntryKeeps(s: State, s': State, e: Entry)
    requires WalletBooks(s) && OneWalletEntry(s, s', e)
    ensures WalletBooks(s')
  {
    hide WalletSum;
    forall a
      ensures s'.Balance(a) == WalletSum(s'.history, a)
    {
      WalletSumAppend(s.history, e, a);
    }
  }

  ghost predicate WalletsSame(s: State, s': State)
  {
    s'.wallets == s.wallets && s'.history == s.history
  }

  lemma DepositWallet(s: State, auth: set<Address>, admin: Address, token: Address, amount: i128, s': State)
    requires WalletBooks(s) && DepositStep(s, auth, admin, token, amount) == Some(s')
    ensures WalletBooks(s')
  {
    hide WalletBooks, Transfer;
    OneWalletEntryKeeps(s, s', Deposited(admin, token, amount));
  }

  lemma WithdrawWallet(s: State, auth: set<Address>, admin: Address, amount: i128, s': State)
    requires WalletBooks(s) && WithdrawStep(s, auth, admin, amount) == Some(s')
    ensures WalletBooks(s')
  {
    hide WalletBooks, Transfer;
    OneWalletEntryKeeps(s, s', Withdrawn(admin, s.wallets[admin].token, amount));
  }

  lemma CreateWallet(s: State, auth: set<Address>, admin: Address, judge: Address, namedResolver: Option<Address>,
                     token: Address, reward: i128, id: EventId, deadline: Option<nat>, s': State)
    requires WalletBooks(s) && CreateStep(s, auth, admin, judge, namedResolver, token, reward, id, deadline) == Some(s')
    ensures WalletBooks(s')
  {
    hide WalletBooks;
    OneWalletEntryKeeps(s, s', Reserved(id, admin, reward));
  }

  lemma RefundWallet(s: State, id: EventId, s': State)
    requires WalletBooks(s) && id in s.events && RefundStep(s, id) == Some(s')
    ensures WalletBooks(s')
  {
    hide WalletBooks;
    OneWalletEntryKeeps(s, s', Refunded(id, s.events[id].admin, s.events[id].reward));
  }

  lemma EmergencyWallet(s: State, auth: set<Address>, admin: Address, resolver: Address, id: EventId, amount: i128,
                        s': State)
    requires WalletBooks(s) && EmergencyStep(s, auth, admin, resolver, id, amount) == Some(s')
    ensures WalletBooks(s')
  {
    hide WalletBooks;
    OneWalletEntryKeeps(s, s', EmergencyWithdrawn(id, admin, amount));
  }

  lemma ChargeWallet(s: State, id: EventId, fee: money, s': State)
    requires id in s.events && ChargeStep(s, id, fee) == Some(s') && fee > 0
    ensures OneWalletEntry(s, s', FeeCharged(id, s.events[id].admin, s.events[id].token, s.gov.treasury.value, fee))
  {
    hide Transfer;
  }

  lemma StartWallet(s: State, auth: set<Address>, admin: Address, id: EventId, judgingDeadline: nat, s': State)
    requires WalletBooks(s) && StartStep(s, auth, admin, id, judgingDeadline) == Some(s')
    ensures WalletBooks(s')
  {
    hide ChargeStep, GoLiveFee, WalletBooks;
    var fee := GoLiveFee(s.gov.FeeRate(), s.events[id].reward).value;
    var charged := ChargeStep(s, id, fee).value;
    ChargeNews(s, id, fee, charged);
    if fee > 0 {
      ChargeWallet(s, id, fee, charged);
      OneWalletEntryKeeps(s, charged, charged.history[|s.history|]);
    }
    OneWalletEntryKeeps(charged, s', Started(id, admin, s.events[id].token, s.events[id].reward));
  }

  lemma PayoutWallet(s: State, id: EventId, payees: seq<Payee>, s': State)
    requires WalletBooks(s) && id in s.events && PayoutStep(s, id, payees) == Some(s')
    ensures WalletBooks(s')
  {
    hide WalletBooks, TransferAll;
    OneWalletEntryKeeps(s, s', PaidOut(id, s.events[id].token, payees));
  }

  lemma CompensateWallet(s: State, auth: set<Address>, admin: Address, id: EventId, participants: seq<Participant>,
                         s': State)
    requires WalletBooks(s) && CompensateStep(s, auth, admin, id, participants) == Some(s')
    ensures WalletBooks(s')
  {
    hide WalletBooks, TransferAll;
    OneWalletEntryKeeps(s, s', CompensationPaid(id, admin, s.wallets[admin].token, ParticipantPayees(participants)));
  }

  lemma WalletsSameKeeps(s: State, s': State)
    requires WalletBooks(s) && WalletsSame(s, s')
    ensures WalletBooks(s')
  {}

  lemma ApplyWalletBooks(s: State, auth: set<Address>, call: Call, s': State)
    requires WalletBooks(s) && Apply(s, auth, call) == Some(s')
    ensures WalletBooks(s')
  {
    hide WalletBooks, OneWalletEntry, DepositStep, WithdrawStep, CreateStep, RefundStep, StartStep, EmergencyStep,
         PayoutStep, CompensateStep, GovernStep;
    match call
    case DepositFunds(admin, token, amount) => DepositWallet(s, auth, admin, token, amount, s');
    case WithdrawFunds(admin, amount) => WithdrawWallet(s, auth, admin, amount, s');
    case CreateEvent(admin, judge, resolver, token, reward, id, deadline) =>
      CreateWallet(s, auth, admin, judge, resolver, token, reward, id, deadline, s');
    case ExpireEvent(id) => RefundWallet(s, id, s');
    case SetEventWaitingForStart(admin, id) => WalletsSameKeeps(s, s');
    case SetEventInProgress(admin, id, judgingDeadline) => StartWallet(s, auth, admin, id, judgingDeadline, s');
    case SetEventCancelled(admin, id) => RefundWallet(s, id, s');
    case EmergencyWithdraw(admin, resolver, id, amount) => EmergencyWallet(s, auth, admin, resolver, id, amount, s');
    case ReleaseCompensation(admin, id, participants) => CompensateWallet(s, auth, admin, id, participants, s');
    case ReleaseReward(judge, id, winners) => PayoutWallet(s, id, WinnerPayees(winners), s');
    case ResolveDispute(resolver, id, winners) => PayoutWallet(s, id, WinnerPayees(winners), s');
    case Govern(change) => WalletsSameKeeps(s, s');
  }

  lemma AfterWalletBooks(s: State, step: Step)
    requires WalletBooks(s)
    ensures WalletBooks(After(s, step))
  {
    hide WalletBooks, Apply, Transfer;
    var s' := After(s, step);
    if Next(s, step).Some? {
      match step
      case Invoke(call, auth) => ApplyWalletBooks(s, auth, call, s');
      case Outside(token, from, to, amount) =>
        if to == s.self {
          OneWalletEntryKeeps(s, s', Gifted(token, amount));
        } else {
          WalletsSameKeeps(s, s');
        }
      case Tick(_) => WalletsSameKeeps(s, s');
    }
  }

  /** After any run every wallet holds exactly what the history adds up to. */
  lemma {:induction false} WalletConservation(s: State, steps: seq<Step>)
    requires Initial(s)
    ensures WalletBooks(Run(s, steps))
  {
    hide After;
    if steps != [] {
      hide WalletBooks, Initial;
      WalletConservation(s, steps[..|steps| - 1]);
      AfterWalletBooks(Run(s, steps[..|steps| - 1]), steps[|steps| - 1]);
    }
  }

  // ------------------------------------------------------------------
  // Fees
  // ------------------------------------------------------------------

  /** The entries about starts and fees in one token. */
  function InToken(h: seq<Entry>, t: Address): seq<Entry>
  {
    if h == [] then []
    else
      var last := h[|h| - 1];
      InToken(h[..|h| - 1], t) + if (last.Started? || last.FeeCharged?) && last.token == t then [last] else []
  }

  /** In every token, all fees together are at most 5% of the rewards of the events that went live. */
  ghost predicate FeesBounded(h: seq<Entry>)
  {
    forall t :: Sum(InToken(h, t), Fee) * 20 <= Sum(InToken(h, t), Start)
  }

  lemma InTokenAppend(h: seq<Entry>, e: Entry, t: Address)
    ensures InToken(h + [e], t) == InToken(h, t) + if (e.Started? || e.FeeCharged?) && e.token == t then [e] else []
  {
    assert (h + [e])[..|h|] == h;
  }

  /** One entry more, in one token. */
  lemma FeesAppend(h: seq<Entry>, e: Entry, t: Address)
    ensures var now := if e.Started? || e.FeeCharged? then e.token == t else false;
      && Sum(InToken(h + [e], t), Fee) == Sum(InToken(h, t), Fee) + (if now then AmountOf(e, Fee) else 0)
      && Sum(InToken(h + [e], t), Start) == Sum(InToken(h, t), Start) + (if now then AmountOf(e, Start) else 0)
  {
    hide InToken, Sum;
    InTokenAppend(h, e, t);
    SumAppend(InToken(h, t), e);
    assert InToken(h, t) + [] == InToken(h, t);
  }

  lemma NewsFees(h: seq<Entry>, news: seq<Entry>)
    requires FeesBounded(h) && NewsShape(news)
    ensures FeesBounded(h + news)
  {
    hide Sum, InToken, PositivePayments;
    forall t
      ensures Sum(InToken(h + news, t), Fee) * 20 <= Sum(InToken(h + news, t), Start)
    {
      if news == [] {
        assert h + news == h;
      } else if |news| == 1 {
        assert news == [news[0]];
        FeesAppend(h, news[0], t);
      } else {
        assert h + news == h + [news[0]] + [news[1]];
        FeesAppend(h, news[0], t);
        FeesAppend(h + [news[0]], news[1], t);
      }
    }
  }

  lemma {:induction false} TreasuryReceipts(s: State, steps: seq<Step>)
    requires Initial(s)
    ensures RateBounded(Run(s, steps).gov) && FeesBounded(Run(s, steps).history)
  {
    if steps != [] {
      hide After, FeesBounded, RateBounded, NewsShape, Initial;
      TreasuryReceipts(s, steps[..|steps| - 1]);
      var mid, r := Run(s, steps[..|steps| - 1]), Run(s, steps);
      AfterMoves(mid, steps[|steps| - 1]);
      AfterRateBounded(mid, steps[|steps| - 1]);
      NewsFees(mid.history, News(mid, r));
    }
  }

  /**
   Going live costs exactly what was quoted, as long as rate and reward are what they
   were at the quote: the wallet pays it, the treasury gets it, the reward is untouched.
   */
  lemma QuoteIsCharge(quoted: State, s: State, auth: set<Address>, admin: Address, id: EventId, judgingDeadline: nat,
                      s': State)
    requires id in quoted.events && StartStep(s, auth, admin, id, judgingDeadline) == Some(s')
    requires quoted.gov.FeeRate() == s.gov.FeeRate() && quoted.events[id].reward == s.events[id].reward
    ensures QuoteGoLiveFee(quoted, id).Some?
    ensures var fee := QuoteGoLiveFee(quoted, id).value;
      && s'.Balance(admin) == s.Balance(admin) - fee
      && s'.Reserve(id) == s.Reserve(id)
      && (fee > 0 && s.gov.treasury.Some? && s.gov.treasury.value != s.self ==>
            var t, treasury := s.events[id].token, s.gov.treasury.value;
            BalanceOf(s'.ledger, t, treasury) == BalanceOf(s.ledger, t, treasury) + fee)
  {
    hide GoLiveFee, Transfer, BalanceOf;
    var e := s.events[id];
    var fee := GoLiveFee(s.gov.FeeRate(), e.reward).value;
    if fee > 0 {
      TransferBalance(s.ledger, e.token, s.self, s.gov.treasury.value, fee, s'.ledger, e.token, s.gov.treasury.value);
    }
  }
}
