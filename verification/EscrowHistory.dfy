/**
 What each step adds to the history, event by event: the life of an event as a small
 state machine whose moves say exactly which money moved.
 */
module EscrowHistory {
  import opened Wrappers
  import opened EscrowState
  import opened EscrowSteps

  // ------------------------------------------------------------------
  // Logs
  // ------------------------------------------------------------------

  predicate About(e: Entry, id: EventId)
  {
    match e
    case Reserved(i, _, _) => i == id
    case EmergencyWithdrawn(i, _, _) => i == id
    case Refunded(i, _, _) => i == id
    case Started(i, _, _, _) => i == id
    case FeeCharged(i, _, _, _, _) => i == id
    case PaidOut(i, _, _) => i == id
    case CompensationPaid(i, _, _, _) => i == id
    case _ => false
  }

  /** The entries about one event, in order. */
  function EventLog(h: seq<Entry>, id: EventId): (log: seq<Entry>)
  {
    if h == [] then []
    else EventLog(h[..|h| - 1], id) + if About(h[|h| - 1], id) then [h[|h| - 1]] else []
  }

  lemma {:induction false} EventLogConcat(g: seq<Entry>, h: seq<Entry>, id: EventId)
    ensures EventLog(g + h, id) == EventLog(g, id) + EventLog(h, id)
  {
    if h == [] {
      assert g + h == g;
    } else {
      assert (g + h)[..|g + h| - 1] == g + h[..|h| - 1];
      EventLogConcat(g, h[..|h| - 1], id);
    }
  }

  /** What a step appended. */
  function News(s: State, s': State): (news: seq<Entry>)
    requires s.history <= s'.history
    ensures s'.history == s.history + news
  {
    s'.history[|s.history|..]
  }

  function Find(s: State, id: EventId): Option<Event>
  {
    if id in s.events then Some(s.events[id]) else None
  }

  // ------------------------------------------------------------------
  // The life of an event
  // ------------------------------------------------------------------

  predicate PositivePayments(e: Entry)
  {
    match e
    case PaidOut(_, _, payees) => AllPositive(payees)
    case CompensationPaid(_, _, _, payees) => AllPositive(payees)
    case _ => true
  }

  /** A fee is at most 5% of the reward, and is charged together with the start. */
  predicate StartLog(e: Event, id: EventId, log: seq<Entry>)
  {
    || log == [Started(id, e.admin, e.token, e.reward)]
    || (&& |log| == 2 && log[0].FeeCharged? && log[1] == Started(id, e.admin, e.token, e.reward)
        && log[0].id == id && log[0].admin == e.admin && log[0].token == e.token && log[0].fee * 20 <= e.reward)
  }

  predicate PayoutLog(e: Event, id: EventId, log: seq<Entry>)
  {
    && |log| == 1 && log[0].PaidOut? && log[0].id == id && log[0].token == e.token
    && ValidWinners(log[0].payees, e.reward)
  }

  predicate CompensationLog(e: Event, id: EventId, log: seq<Entry>)
  {
    |log| == 1 && log[0].CompensationPaid? && log[0].id == id && log[0].admin == e.admin && AllPositive(log[0].payees)
  }

  /** The moves an event can make, with the entries that record them. */
  predicate EventMove(e: Option<Event>, e': Option<Event>, id: EventId, log: seq<Entry>)
  {
    match (e, e')
    case (None, None) => log == []
    case (None, Some(n)) =>
      n.state == Created && n.judgingDeadline == None && n.reward > 0 && log == [Reserved(id, n.admin, n.reward)]
    case (Some(_), None) => false
    case (Some(o), Some(n)) =>
      || (n == o && log == [])
      || (o.state == Created && n == o.(state := WaitingForStart) && log == [])
      || (o.PreLaunch() && n.reward < o.reward && n == o.(reward := n.reward)
          && log == [EmergencyWithdrawn(id, o.admin, o.reward - n.reward)])
      || (o.PreLaunch() && n == o.(state := Cancelled) && log == [Refunded(id, o.admin, o.reward)])
      || (o.PreLaunch() && n.judgingDeadline.Some?
          && n == o.(state := InProgress, judgingDeadline := n.judgingDeadline) && StartLog(o, id, log))
      || (o.state == InProgress && n == o.(state := Ended) && PayoutLog(o, id, log))
      || (o.state == Cancelled && n == o.(state := Compensated) && CompensationLog(o, id, log))
  }

  /** Every event makes one of its moves, and the entries about it say which. */
  ghost predicate Moves(s: State, s': State)
  {
    && s.history <= s'.history
    && forall id :: EventMove(Find(s, id), Find(s', id), id, EventLog(News(s, s'), id))
  }

  /** A fee entry is followed by the start it belongs to. */
  predicate NewsShape(news: seq<Entry>)
  {
    || news == []
    || (|news| == 1 && !news[0].FeeCharged? && PositivePayments(news[0]))
    || (|news| == 2 && news[0].FeeCharged? && news[1].Started? && news[0].id == news[1].id
        && news[0].token == news[1].token && news[0].fee * 20 <= news[1].reward)
  }

  ghost predicate RateBounded(g: Governance)
  {
    g.FeeRate() <= MAX_FEE_BPS
  }

  // ------------------------------------------------------------------
  // Steps
  // ------------------------------------------------------------------

  lemma LogOfOne(e: Entry, id: EventId)
    ensures EventLog([e], id) == if About(e, id) then [e] else []
  {
    assert [e][..0] == [];
  }

  lemma LogOfTwo(e: Entry, f: Entry, id: EventId)
    ensures EventLog([e, f], id) == (if About(e, id) then [e] else []) + (if About(f, id) then [f] else [])
  {
    LogOfOne(e, id);
    assert [e, f][..1] == [e];
  }

  /** A step that records one entry and touches at most the event it is about. */
  lemma OneEntry(s: State, s': State, e: Entry, id: EventId)
    requires s'.history == s.history + [e]
    requires forall i :: i != id ==> Find(s', i) == Find(s, i)
    requires forall i :: About(e, i) ==> i == id
    requires EventMove(Find(s, id), Find(s', id), id, if About(e, id) then [e] else [])
    requires !e.FeeCharged? && PositivePayments(e)
    ensures Moves(s, s') && NewsShape(News(s, s'))
  {
    hide EventLog, StartLog, PayoutLog, CompensationLog, PositivePayments, Event.PreLaunch;
    assert News(s, s') == [e];
    forall i
      ensures EventMove(Find(s, i), Find(s', i), i, EventLog(News(s, s'), i))
    {
      LogOfOne(e, i);
    }
  }

  lemma DepositMoves(s: State, auth: set<Address>, admin: Address, token: Address, amount: i128, s': State)
    requires DepositStep(s, auth, admin, token, amount) == Some(s')
    ensures Moves(s, s') && NewsShape(News(s, s'))
  {
    hide Transfer, EventLog, Moves, NewsShape;
    OneEntry(s, s', Deposited(admin, token, amount), EventId(0));
  }

  lemma WithdrawMoves(s: State, auth: set<Address>, admin: Address, amount: i128, s': State)
    requires WithdrawStep(s, auth, admin, amount) == Some(s')
    ensures Moves(s, s') && NewsShape(News(s, s'))
  {
    hide Transfer, EventLog, Moves, NewsShape;
    OneEntry(s, s', Withdrawn(admin, s.wallets[admin].token, amount), EventId(0));
  }

  lemma CreateMoves(s: State, auth: set<Address>, admin: Address, judge: Address, namedResolver: Option<Address>,
                    token: Address, reward: i128, id: EventId, deadline: Option<nat>, s': State)
    requires CreateStep(s, auth, admin, judge, namedResolver, token, reward, id, deadline) == Some(s')
    ensures Moves(s, s') && NewsShape(News(s, s'))
  {
    hide EventLog, Moves, NewsShape;
    OneEntry(s, s', Reserved(id, admin, reward), id);
  }

  lemma RefundMoves(s: State, id: EventId, s': State)
    requires id in s.events && s.events[id].PreLaunch() && RefundStep(s, id) == Some(s')
    ensures Moves(s, s') && NewsShape(News(s, s'))
  {
    hide EventLog, Moves, NewsShape;
    OneEntry(s, s', Refunded(id, s.events[id].admin, s.events[id].reward), id);
  }

  lemma EmergencyMoves(s: State, auth: set<Address>, admin: Address, resolver: Address, id: EventId, amount: i128,
                       s': State)
    requires EmergencyStep(s, auth, admin, resolver, id, amount) == Some(s')
    ensures Moves(s, s') && NewsShape(News(s, s'))
  {
    hide EventLog, Moves, NewsShape;
    OneEntry(s, s', EmergencyWithdrawn(id, admin, amount), id);
  }

  lemma PayoutMoves(s: State, id: EventId, payees: seq<Payee>, s': State)
    requires id in s.events && s.events[id].state == InProgress && PayoutStep(s, id, payees) == Some(s')
    ensures Moves(s, s') && NewsShape(News(s, s'))
  {
    hide EventLog, Moves, NewsShape, TransferAll;
    OneEntry(s, s', PaidOut(id, s.events[id].token, payees), id);
  }

  lemma CompensateMoves(s: State, auth: set<Address>, admin: Address, id: EventId, participants: seq<Participant>,
                        s': State)
    requires CompensateStep(s, auth, admin, id, participants) == Some(s')
    ensures Moves(s, s') && NewsShape(News(s, s'))
  {
    hide EventLog, Moves, NewsShape, TransferAll;
    OneEntry(s, s', CompensationPaid(id, admin, s.wallets[admin].token, ParticipantPayees(participants)), id);
  }

  lemma FeeBound(rate: u32, reward: money)
    requires rate <= MAX_FEE_BPS && reward * rate <= I128_MAX
    ensures FeeOf(rate, reward) * 20 <= reward
  {
    FeeArithmetic(rate, reward, reward * rate);
  }

  lemma FeeArithmetic(rate: int, reward: int, product: int)
    requires 0 <= rate <= 500 && reward >= 0 && product == reward * rate
    ensures product / 10000 * 20 <= reward
  {
    assert product <= reward * 500;
  }

  lemma ChargeNews(s: State, id: EventId, fee: money, s': State)
    requires id in s.events && ChargeStep(s, id, fee) == Some(s')
    ensures s'.events == s.events
    ensures fee == 0 ==> s' == s
    ensures fee > 0 ==>
              s.gov.treasury.Some?
              && s'.history
                 == s.history + [FeeCharged(id, s.events[id].admin, s.events[id].token, s.gov.treasury.value, fee)]
  {
    hide Transfer;
  }

  lemma StartMoves(s: State, auth: set<Address>, admin: Address, id: EventId, judgingDeadline: nat, s': State)
    requires RateBounded(s.gov) && StartStep(s, auth, admin, id, judgingDeadline) == Some(s')
    ensures Moves(s, s') && NewsShape(News(s, s'))
  {
    hide EventLog, ChargeStep, FeeOf, PositivePayments;
    var e := s.events[id];
    var fee := GoLiveFee(s.gov.FeeRate(), e.reward).value;
    FeeBound(s.gov.FeeRate(), e.reward);
    var charged := ChargeStep(s, id, fee).value;
    ChargeNews(s, id, fee, charged);
    var start := Started(id, admin, e.token, e.reward);
    if fee == 0 {
      OneEntry(s, s', start, id) by { StartNotPayment(start); }
    } else {
      var charge := FeeCharged(id, admin, e.token, s.gov.treasury.value, fee);
      assert News(s, s') == [charge, start];
      forall i
        ensures EventMove(Find(s, i), Find(s', i), i, EventLog(News(s, s'), i))
      {
        LogOfTwo(charge, start, i);
      }
    }
  }

  lemma StartNotPayment(e: Entry)
    requires e.Started?
    ensures PositivePayments(e)
  {}

  /** A step that records nothing. */
  lemma NoEntry(s: State, s': State)
    requires s'.history == s.history
    requires forall id :: EventMove(Find(s, id), Find(s', id), id, [])
    ensures Moves(s, s') && NewsShape(News(s, s'))
  {
    hide EventMove;
    assert News(s, s') == [];
  }

  lemma ApplyMoves(s: State, auth: set<Address>, call: Call, s': State)
    requires RateBounded(s.gov) && Apply(s, auth, call) == Some(s')
    ensures Moves(s, s') && NewsShape(News(s, s'))
  {
    hide Moves, NewsShape, DepositStep, WithdrawStep, CreateStep, RefundStep, StartStep, EmergencyStep, PayoutStep,
         CompensateStep, GovernStep;
    match call
    case DepositFunds(admin, token, amount) => DepositMoves(s, auth, admin, token, amount, s');
    case WithdrawFunds(admin, amount) => WithdrawMoves(s, auth, admin, amount, s');
    case CreateEvent(admin, judge, resolver, token, reward, id, deadline) =>
      CreateMoves(s, auth, admin, judge, resolver, token, reward, id, deadline, s');
    case ExpireEvent(id) => RefundMoves(s, id, s');
    case SetEventWaitingForStart(admin, id) => NoEntry(s, s');
    case SetEventInProgress(admin, id, judgingDeadline) => StartMoves(s, auth, admin, id, judgingDeadline, s');
    case SetEventCancelled(admin, id) => RefundMoves(s, id, s');
    case EmergencyWithdraw(admin, resolver, id, amount) => EmergencyMoves(s, auth, admin, resolver, id, amount, s');
    case ReleaseCompensation(admin, id, participants) => CompensateMoves(s, auth, admin, id, participants, s');
    case ReleaseReward(judge, id, winners) => PayoutMoves(s, id, WinnerPayees(winners), s');
    case ResolveDispute(resolver, id, winners) => PayoutMoves(s, id, WinnerPayees(winners), s');
    case Govern(change) => NoEntry(s, s');
  }

  lemma OutsideMoves(s: State, token: Address, from: Address, to: Address, amount: nat, s': State)
    requires OutsideStep(s, token, from, to, amount) == Some(s')
    ensures Moves(s, s') && NewsShape(News(s, s'))
  {
    hide Moves, NewsShape, Transfer, EventLog;
    if to == s.self {
      OneEntry(s, s', Gifted(token, amount), EventId(0));
    } else {
      NoEntry(s, s');
    }
  }

  /** Every step, whoever takes it, moves every event along its state machine. */
  lemma AfterMoves(s: State, step: Step)
    requires RateBounded(s.gov)
    ensures Moves(s, After(s, step)) && NewsShape(News(s, After(s, step)))
  {
    hide Moves, NewsShape, Apply, OutsideStep;
    var s' := After(s, step);
    if Next(s, step).None? {
      NoEntry(s, s');
    } else {
      match step
      case Invoke(call, auth) => ApplyMoves(s, auth, call, s');
      case Outside(token, from, to, amount) => OutsideMoves(s, token, from, to, amount, s');
      case Tick(_) => NoEntry(s, s');
    }
  }

  // ------------------------------------------------------------------
  // The fee ceiling
  // ------------------------------------------------------------------

  /** The stored rate never exceeds the ceiling. */
  lemma AfterRateBounded(s: State, step: Step)
    requires RateBounded(s.gov)
    ensures RateBounded(After(s, step).gov)
  {
    hide DepositStep, WithdrawStep, CreateStep, RefundStep, StartStep, EmergencyStep, PayoutStep, CompensateStep,
         Transfer;
    if Next(s, step).Some? && step.Invoke? {
      ApplyGrows(s, step.auth, step.call);
    }
  }
}
