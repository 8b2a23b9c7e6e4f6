/**
 Organizer isolation: what one organizer's wallet, events and index look like does not
 depend on any other organizer's steps.

 From any run keep only governance, clock and outside transfers, and the successful
 steps on organizer A's wallet and events. The kept steps succeed again and leave A
 with the same wallet, events and index, exactly when each kept deposit is still funded:
 tokens that A received from another organizer's event are gone with that event.
 */
module EscrowIsolation {
  import opened Wrappers
  import opened EscrowState
  import opened EscrowSteps
  import opened EscrowSolvency
  import opened EscrowLiveness

  // ------------------------------------------------------------------
  // Views
  // ------------------------------------------------------------------

  predicate OwnedBy(s: State, id: EventId, a: Address)
  {
    id in s.events && s.events[id].admin == a
  }

  /** s and r agree on governance, time and everything that belongs to organizer a. */
  ghost predicate SameView(s: State, r: State, a: Address)
  {
    && r.self == s.self && r.gov == s.gov && r.clock == s.clock
    && (a in r.wallets <==> a in s.wallets) && (a in s.wallets ==> r.wallets[a] == s.wallets[a])
    && (forall id :: id in r.events && r.events[id].admin == a ==> id in s.events && s.events[id] == r.events[id])
    && (forall id :: id in s.events && s.events[id].admin == a ==> id in r.events && r.events[id] == s.events[id])
    && r.Count(a) == s.Count(a)
    && (forall i :: IndexKey(a, i) in r.eventIndex <==> IndexKey(a, i) in s.eventIndex)
    && (forall i :: IndexKey(a, i) in s.eventIndex ==> r.eventIndex[IndexKey(a, i)] == s.eventIndex[IndexKey(a, i)])
  }

  /** r is a reduced version of s: the same view of a, and no event that s lacks. */
  ghost predicate Mirrors(s: State, r: State, a: Address)
  {
    SameView(s, r, a) && r.events.Keys <= s.events.Keys
  }

  /** The call is on organizer a's wallet or events, or on governance. */
  predicate Concerns(s: State, call: Call, a: Address)
  {
    match call
    case DepositFunds(admin, _, _) => admin == a
    case WithdrawFunds(admin, _) => admin == a
    case CreateEvent(admin, _, _, _, _, _, _) => admin == a
    case ExpireEvent(id) => OwnedBy(s, id, a)
    case SetEventWaitingForStart(_, id) => OwnedBy(s, id, a)
    case SetEventInProgress(_, id, _) => OwnedBy(s, id, a)
    case SetEventCancelled(_, id) => OwnedBy(s, id, a)
    case EmergencyWithdraw(_, _, id, _) => OwnedBy(s, id, a)
    case ReleaseCompensation(_, id, _) => OwnedBy(s, id, a)
    case ReleaseReward(_, id, _) => OwnedBy(s, id, a)
    case ResolveDispute(_, id, _) => OwnedBy(s, id, a)
    case Govern(_) => true
  }

  predicate Kept(s: State, step: Step, a: Address)
  {
    Next(s, step).Some? && (step.Invoke? ==> Concerns(s, step.call, a))
  }

  /** The depositor has the tokens. */
  predicate Funded(r: State, step: Step)
  {
    step.Invoke? && step.call.DepositFunds? ==>
      BalanceOf(r.ledger, step.call.token, step.call.admin) >= step.call.amount
  }

  // ------------------------------------------------------------------
  // Equal updates
  // ------------------------------------------------------------------

  /** What the view of a does not see. */
  lemma Unseen(s: State, r: State, a: Address, ledger: Ledger, ledger': Ledger, h: seq<Entry>, h': seq<Entry>)
    requires Mirrors(s, r, a)
    ensures Mirrors(s.(ledger := ledger, history := h), r.(ledger := ledger', history := h'), a)
  {}

  lemma SameWallet(s: State, r: State, a: Address, w: AdminWallet)
    requires Mirrors(s, r, a)
    ensures Mirrors(s.(wallets := s.wallets[a := w]), r.(wallets := r.wallets[a := w]), a)
  {}

  lemma SameEvent(s: State, r: State, a: Address, id: EventId, e: Event)
    requires Mirrors(s, r, a) && e.admin == a && (id in s.events ==> OwnedBy(s, id, a))
    ensures Mirrors(SetEvent(s, id, e), SetEvent(r, id, e), a)
  {}

  lemma SameIndexEntry(s: State, r: State, a: Address, id: EventId)
    requires Mirrors(s, r, a) && s.Count(a) < U32_MAX
    ensures s.Count(a) == r.Count(a)
    ensures var n := s.Count(a);
      Mirrors(s.(eventIndex := s.eventIndex[IndexKey(a, n) := id], eventsCount := s.eventsCount[a := n + 1]),
              r.(eventIndex := r.eventIndex[IndexKey(a, n) := id], eventsCount := r.eventsCount[a := n + 1]), a)
  {}

  lemma SameParts(s: State, r: State, a: Address)
    requires Mirrors(s, r, a)
    ensures r.gov == s.gov && r.clock == s.clock && r.self == s.self && r.Count(a) == s.Count(a)
    ensures a in r.wallets <==> a in s.wallets
    ensures a in s.wallets ==> r.wallets[a] == s.wallets[a]
    ensures forall id :: OwnedBy(s, id, a) ==> OwnedBy(r, id, a) && r.events[id] == s.events[id]
    ensures forall id :: id in r.events ==> id in s.events
  {}

  // ------------------------------------------------------------------
  // Kept calls
  // ------------------------------------------------------------------

  /** What a deposit needs of the wallet, and what it leaves there. */
  predicate DepositFits(s: State, a: Address, token: Address, amount: i128)
  {
    (a in s.wallets ==> s.wallets[a].token == token) && s.Balance(a) + amount <= I128_MAX
  }

  lemma DepositParts(s: State, auth: set<Address>, a: Address, token: Address, amount: i128)
    ensures var r := DepositStep(s, auth, a, token, amount);
      && (r.Some? <==>
            a in auth && !s.gov.IsPaused(a) && s.gov.TokenAllowed(token) && amount > 0
            && Transfer(s.ledger, token, a, s.self, amount).Some? && DepositFits(s, a, token, amount))
      && (r.Some? ==>
            r.value == s.(wallets := s.wallets[a := AdminWallet(token, s.Balance(a) + amount)],
                          ledger := r.value.ledger, history := r.value.history))
  {
    hide Transfer;
    var r := DepositStep(s, auth, a, token, amount);
    if r.Some? {
      assert r.value.wallets == s.wallets[a := AdminWallet(token, s.Balance(a) + amount)];
    }
  }

  lemma DepositIsolated(s: State, r: State, auth: set<Address>, a: Address, token: Address, amount: i128)
    requires Mirrors(s, r, a) && DepositStep(s, auth, a, token, amount).Some?
    ensures var r' := DepositStep(r, auth, a, token, amount);
      && (r'.Some? <==> BalanceOf(r.ledger, token, a) >= amount)
      && (r'.Some? ==> Mirrors(DepositStep(s, auth, a, token, amount).value, r'.value, a))
  {
    SameParts(s, r, a);
    DepositParts(s, auth, a, token, amount);
    DepositParts(r, auth, a, token, amount);
    hide BalanceOf, Mirrors, DepositStep;
    if BalanceOf(r.ledger, token, a) >= amount {
      TransferSucceeds(r.ledger, token, a, r.self, amount);
      var s', r' := DepositStep(s, auth, a, token, amount).value, DepositStep(r, auth, a, token, amount).value;
      SameWallet(s, r, a, s'.wallets[a]);
      Unseen(s.(wallets := s'.wallets), r.(wallets := r'.wallets), a, s'.ledger, r'.ledger, s'.history, r'.history);
    }
  }

  lemma WithdrawIsolated(s: State, r: State, auth: set<Address>, a: Address, amount: i128)
    requires Mirrors(s, r, a) && Sound(r) && WithdrawStep(s, auth, a, amount).Some?
    ensures var r' := WithdrawStep(r, auth, a, amount);
      r'.Some? && Mirrors(WithdrawStep(s, auth, a, amount).value, r'.value, a)
  {
    hide Sound, BalanceOf, Transfer, Mirrors;
    SameParts(s, r, a);
    HoldingCoversWallet(r, a);
    TransferSucceeds(r.ledger, r.wallets[a].token, r.self, a, amount);
    var s', r' := WithdrawStep(s, auth, a, amount).value, WithdrawStep(r, auth, a, amount).value;
    SameWallet(s, r, a, s'.wallets[a]);
    Unseen(s.(wallets := s'.wallets), r.(wallets := r'.wallets), a, s'.ledger, r'.ledger, s'.history, r'.history);
  }

  lemma CreateIsolated(s: State, r: State, auth: set<Address>, a: Address, judge: Address,
                       namedResolver: Option<Address>,
                       token: Address, reward: i128, id: EventId, deadline: Option<nat>)
    requires Mirrors(s, r, a) && CreateStep(s, auth, a, judge, namedResolver, token, reward, id, deadline).Some?
    ensures var r' := CreateStep(r, auth, a, judge, namedResolver, token, reward, id, deadline);
      r'.Some? && Mirrors(CreateStep(s, auth, a, judge, namedResolver, token, reward, id, deadline).value, r'.value, a)
  {
    hide Mirrors, State.Count;
    SameParts(s, r, a);
    CreateIs(s, auth, a, judge, namedResolver, token, reward, id, deadline);
    CreateIs(r, auth, a, judge, namedResolver, token, reward, id, deadline);
    hide CreateStep;
    var s' := CreateStep(s, auth, a, judge, namedResolver, token, reward, id, deadline).value;
    var w, e := s'.wallets[a], s'.events[id];
    SameWallet(s, r, a, w);
    var s1, r1 := s.(wallets := s.wallets[a := w]), r.(wallets := r.wallets[a := w]);
    SameEvent(s1, r1, a, id, e);
    CountIgnores(s, SetEvent(s1, id, e), a);
    CountIgnores(r, SetEvent(r1, id, e), a);
    SameIndexEntry(SetEvent(s1, id, e), SetEvent(r1, id, e), a, id);
    var r' := CreateStep(r, auth, a, judge, namedResolver, token, reward, id, deadline).value;
    Unseen(s'.(history := s.history), r'.(history := r.history), a, s'.ledger, r'.ledger, s'.history, r'.history);
  }

  /** Success and outcome of create_event, which reads no more of the state than this. */
  lemma CreateIs(s: State, auth: set<Address>, a: Address, judge: Address, namedResolver: Option<Address>,
                 token: Address, reward: i128, id: EventId, deadline: Option<nat>)
    ensures var r := CreateStep(s, auth, a, judge, namedResolver, token, reward, id, deadline);
      && (r.Some? <==>
            && a in auth && !s.gov.IsPaused(a) && s.gov.TokenAllowed(token) && reward > 0
            && (deadline.Some? ==> deadline.value > s.clock) && id !in s.events
            && a in s.wallets && s.wallets[a].token == token && reward <= s.wallets[a].balance
            && (namedResolver.Some? || s.gov.defaultResolver.Some?) && s.Count(a) < U32_MAX)
      && (r.Some? ==>
            var w := s.wallets[a];
            var resolver := if namedResolver.Some? then namedResolver.value else s.gov.defaultResolver.value;
            var e, n := Event(a, judge, token, resolver, reward, Created, deadline, None), s.Count(a);
            r.value == s.(wallets := s.wallets[a := w.(balance := w.balance - reward)], events := s.events[id := e],
                          eventIndex := s.eventIndex[IndexKey(a, n) := id],
                          eventsCount := s.eventsCount[a := n + 1],
                          history := s.history + [Reserved(id, a, reward)]))
  {}

  lemma CountIgnores(s: State, s': State, a: Address)
    requires s.eventsCount == s'.eventsCount
    ensures s.Count(a) == s'.Count(a)
  {}

  lemma RefundIsolated(s: State, r: State, id: EventId, a: Address)
    requires Mirrors(s, r, a) && OwnedBy(s, id, a) && RefundStep(s, id).Some?
    ensures id in r.events
    ensures var r' := RefundStep(r, id);
      r'.Some? && Mirrors(RefundStep(s, id).value, r'.value, a)
  {
    hide Mirrors;
    SameParts(s, r, a);
    var s' := RefundStep(s, id).value;
    SameEvent(s, r, a, id, s'.events[id]);
    SameWallet(SetEvent(s, id, s'.events[id]), SetEvent(r, id, s'.events[id]), a, s'.wallets[a]);
    var r' := RefundStep(r, id).value;
    Unseen(s'.(history := s.history), r'.(history := r.history), a, s'.ledger, r'.ledger, s'.history, r'.history);
  }

  lemma WaitIsolated(s: State, r: State, auth: set<Address>, a: Address, id: EventId)
    requires Mirrors(s, r, a) && WaitStep(s, auth, a, id).Some?
    ensures var r' := WaitStep(r, auth, a, id);
      r'.Some? && Mirrors(WaitStep(s, auth, a, id).value, r'.value, a)
  {
    hide Mirrors;
    SameParts(s, r, a);
    assert OwnedBy(s, id, a);
    SameEvent(s, r, a, id, s.events[id].(state := WaitingForStart));
  }

  lemma EmergencyIsolated(s: State, r: State, auth: set<Address>, a: Address, resolver: Address, id: EventId,
                          amount: i128)
    requires Mirrors(s, r, a) && EmergencyStep(s, auth, a, resolver, id, amount).Some?
    ensures var r' := EmergencyStep(r, auth, a, resolver, id, amount);
      r'.Some? && Mirrors(EmergencyStep(s, auth, a, resolver, id, amount).value, r'.value, a)
  {
    hide Mirrors;
    SameParts(s, r, a);
    assert OwnedBy(s, id, a);
    var s' := EmergencyStep(s, auth, a, resolver, id, amount).value;
    SameEvent(s, r, a, id, s'.events[id]);
    SameWallet(SetEvent(s, id, s'.events[id]), SetEvent(r, id, s'.events[id]), a, s'.wallets[a]);
    var r' := EmergencyStep(r, auth, a, resolver, id, amount).value;
    Unseen(s'.(history := s.history), r'.(history := r.history), a, s'.ledger, r'.ledger, s'.history, r'.history);
  }

  lemma ChargeIsolated(s: State, r: State, id: EventId, fee: money, a: Address)
    requires Mirrors(s, r, a) && Sound(r) && OwnedBy(s, id, a) && ChargeStep(s, id, fee).Some?
    ensures id in r.events
    ensures var r' := ChargeStep(r, id, fee);
      r'.Some? && Mirrors(ChargeStep(s, id, fee).value, r'.value, a)
    ensures ChargeStep(s, id, fee).value.events == s.events
  {
    SameParts(s, r, a);
    TokenOfOrganizer(r, id);
    hide Sound, BalanceOf, Transfer, Mirrors;
    if fee > 0 {
      HoldingCoversWallet(r, a);
      TransferSucceeds(r.ledger, r.events[id].token, r.self, r.gov.treasury.value, fee);
      var s', r' := ChargeStep(s, id, fee).value, ChargeStep(r, id, fee).value;
      SameWallet(s, r, a, s'.wallets[a]);
      Unseen(s.(wallets := s'.wallets), r.(wallets := r'.wallets), a, s'.ledger, r'.ledger, s'.history, r'.history);
    }
  }

  lemma TokenOfOrganizer(r: State, id: EventId)
    requires Sound(r) && id in r.events
    ensures r.events[id].admin in r.wallets && r.wallets[r.events[id].admin].token == r.events[id].token
  {
    assert TokensMatch(r);
  }

  lemma StartIsolated(s: State, r: State, auth: set<Address>, a: Address, id: EventId, judgingDeadline: nat)
    requires Mirrors(s, r, a) && Sound(r) && StartStep(s, auth, a, id, judgingDeadline).Some?
    ensures var r' := StartStep(r, auth, a, id, judgingDeadline);
      r'.Some? && Mirrors(StartStep(s, auth, a, id, judgingDeadline).value, r'.value, a)
  {
    hide Sound, ChargeStep, GoLiveFee, Mirrors;
    assert OwnedBy(s, id, a);
    SameParts(s, r, a);
    var fee := GoLiveFee(s.gov.FeeRate(), s.events[id].reward).value;
    ChargeIsolated(s, r, id, fee, a);
    var s1, r1 := ChargeStep(s, id, fee).value, ChargeStep(r, id, fee).value;
    var s', r' := StartStep(s, auth, a, id, judgingDeadline).value, StartStep(r, auth, a, id, judgingDeadline).value;
    SameEvent(s1, r1, a, id, s'.events[id]);
    Unseen(SetEvent(s1, id, s'.events[id]), SetEvent(r1, id, s'.events[id]), a, s'.ledger, r'.ledger, s'.history,
           r'.history);
  }

  lemma PayoutIsolated(s: State, r: State, id: EventId, payees: seq<Payee>, a: Address)
    requires Mirrors(s, r, a) && Sound(r) && OwnedBy(s, id, a) && s.events[id].state == InProgress
    requires PayoutStep(s, id, payees).Some?
    ensures id in r.events
    ensures var r' := PayoutStep(r, id, payees);
      r'.Some? && Mirrors(PayoutStep(s, id, payees).value, r'.value, a)
  {
    hide Sound, TransferAll, ValidWinners, Mirrors;
    SameParts(s, r, a);
    PayoutSucceeds(r, id, payees);
    var s', r' := PayoutStep(s, id, payees).value, PayoutStep(r, id, payees).value;
    SameEvent(s, r, a, id, s'.events[id]);
    Unseen(SetEvent(s, id, s'.events[id]), SetEvent(r, id, s'.events[id]), a, s'.ledger, r'.ledger, s'.history,
           r'.history);
  }

  lemma CompensateIsolated(s: State, r: State, auth: set<Address>, a: Address, id: EventId,
                           participants: seq<Participant>)
    requires Mirrors(s, r, a) && Sound(r) && CompensateStep(s, auth, a, id, participants).Some?
    ensures var r' := CompensateStep(r, auth, a, id, participants);
      r'.Some? && Mirrors(CompensateStep(s, auth, a, id, participants).value, r'.value, a)
  {
    hide Sound, TransferAll, BalanceOf, Total, AllPositive, Mirrors;
    SameParts(s, r, a);
    assert OwnedBy(s, id, a);
    HoldingCoversWallet(r, a);
    TransferAllSucceeds(r.ledger, r.wallets[a].token, r.self, ParticipantPayees(participants));
    var s' := CompensateStep(s, auth, a, id, participants).value;
    var r' := CompensateStep(r, auth, a, id, participants).value;
    SameWallet(s, r, a, s'.wallets[a]);
    var s1, r1 := s.(wallets := s'.wallets), r.(wallets := r'.wallets);
    SameEvent(s1, r1, a, id, s'.events[id]);
    Unseen(SetEvent(s1, id, s'.events[id]), SetEvent(r1, id, s'.events[id]), a, s'.ledger, r'.ledger, s'.history,
           r'.history);
  }

  lemma CallIsolated(s: State, r: State, auth: set<Address>, call: Call, a: Address)
    requires Mirrors(s, r, a) && Sound(r) && s.self !in auth
    requires Concerns(s, call, a) && Apply(s, auth, call).Some?
    ensures Apply(r, auth, call).Some? <==> Funded(r, Invoke(call, auth))
    ensures Apply(r, auth, call).Some? ==> Mirrors(Apply(s, auth, call).value, Apply(r, auth, call).value, a)
  {
    hide Sound, Mirrors, DepositStep, WithdrawStep, CreateStep, RefundStep, StartStep, EmergencyStep, PayoutStep,
         CompensateStep, GovernStep, WaitStep, BalanceOf;
    CallerIsOwner(s, auth, call, a);
    SameParts(s, r, a);
    match call
    case DepositFunds(admin, token, amount) => DepositIsolated(s, r, auth, a, token, amount);
    case WithdrawFunds(admin, amount) => WithdrawIsolated(s, r, auth, a, amount);
    case CreateEvent(admin, judge, resolver, token, reward, id, deadline) =>
      CreateIsolated(s, r, auth, a, judge, resolver, token, reward, id, deadline);
    case ExpireEvent(id) => RefundIsolated(s, r, id, a);
    case SetEventWaitingForStart(admin, id) => WaitIsolated(s, r, auth, a, id);
    case SetEventInProgress(admin, id, judgingDeadline) => StartIsolated(s, r, auth, a, id, judgingDeadline);
    case SetEventCancelled(admin, id) => RefundIsolated(s, r, id, a);
    case EmergencyWithdraw(admin, resolver, id, amount) => EmergencyIsolated(s, r, auth, a, resolver, id, amount);
    case ReleaseCompensation(admin, id, participants) => CompensateIsolated(s, r, auth, a, id, participants);
    case ReleaseReward(judge, id, winners) => PayoutIsolated(s, r, id, WinnerPayees(winners), a);
    case ResolveDispute(resolver, id, winners) => PayoutIsolated(s, r, id, WinnerPayees(winners), a);
    case Govern(change) => GovernIsolated(s, r, auth, change, a);
  }

  /** An organizer's call that succeeds on a's event is a's own call. */
  lemma CallerIsOwner(s: State, auth: set<Address>, call: Call, a: Address)
    requires Concerns(s, call, a) && Apply(s, auth, call).Some?
    ensures match call
      case SetEventWaitingForStart(admin, _) => admin == a
      case SetEventInProgress(admin, _, _) => admin == a
      case SetEventCancelled(admin, _) => admin == a
      case EmergencyWithdraw(admin, _, _, _) => admin == a
      case ReleaseCompensation(admin, _, _) => admin == a
      case _ => true
  {
    hide DepositStep, WithdrawStep, CreateStep, RefundStep, PayoutStep, GovernStep, GoLiveFee, ChargeStep;
  }

  lemma GovernIsolated(s: State, r: State, auth: set<Address>, change: Change, a: Address)
    requires Mirrors(s, r, a) && Apply(s, auth, Govern(change)).Some?
    ensures Apply(r, auth, Govern(change)).Some?
    ensures Mirrors(Apply(s, auth, Govern(change)).value, Apply(r, auth, Govern(change)).value, a)
  {
    hide GovernStep;
  }

  // ------------------------------------------------------------------
  // Dropped calls
  // ------------------------------------------------------------------

  /** What a step does to organizer a's part of the storage, if anything. */
  ghost predicate Untouched(s: State, s': State, a: Address)
  {
    SameView(s, s', a) && s.events.Keys <= s'.events.Keys
  }

  lemma WalletCallsUntouched(s: State, auth: set<Address>, admin: Address, token: Address, amount: i128, a: Address)
    requires admin != a
    ensures var r := DepositStep(s, auth, admin, token, amount); r.Some? ==> Untouched(s, r.value, a)
    ensures var r := WithdrawStep(s, auth, admin, amount); r.Some? ==> Untouched(s, r.value, a)
  {
    hide Transfer;
  }

  lemma CreateUntouched(s: State, auth: set<Address>, admin: Address, judge: Address, namedResolver: Option<Address>,
                        token: Address, reward: i128, id: EventId, deadline: Option<nat>, a: Address)
    requires admin != a
    ensures var r := CreateStep(s, auth, admin, judge, namedResolver, token, reward, id, deadline);
      r.Some? ==> Untouched(s, r.value, a)
  {}

  lemma RefundUntouched(s: State, id: EventId, a: Address)
    requires id in s.events && s.events[id].admin != a
    ensures var r := RefundStep(s, id); r.Some? ==> Untouched(s, r.value, a)
  {}

  lemma EmergencyUntouched(s: State, auth: set<Address>, admin: Address, resolver: Address, id: EventId, amount: i128,
                           a: Address)
    requires !OwnedBy(s, id, a)
    ensures var r := EmergencyStep(s, auth, admin, resolver, id, amount); r.Some? ==> Untouched(s, r.value, a)
  {}

  lemma WaitUntouched(s: State, auth: set<Address>, admin: Address, id: EventId, a: Address)
    requires !OwnedBy(s, id, a)
    ensures var r := WaitStep(s, auth, admin, id); r.Some? ==> Untouched(s, r.value, a)
  {}

  lemma ChargeUntouched(s: State, id: EventId, fee: money, a: Address)
    requires id in s.events && s.events[id].admin != a
    ensures var r := ChargeStep(s, id, fee); r.Some? ==> Untouched(s, r.value, a) && r.value.events == s.events
  {
    hide Transfer;
  }

  lemma StartUntouched(s: State, auth: set<Address>, admin: Address, id: EventId, judgingDeadline: nat, a: Address)
    requires !OwnedBy(s, id, a)
    ensures var r := StartStep(s, auth, admin, id, judgingDeadline); r.Some? ==> Untouched(s, r.value, a)
  {
    hide ChargeStep, GoLiveFee;
    if OrganizerMay(s, auth, admin, id) {
      var fee := GoLiveFee(s.gov.FeeRate(), s.events[id].reward);
      if fee.Some? {
        ChargeUntouched(s, id, fee.value, a);
      }
    }
  }

  lemma PayoutUntouched(s: State, id: EventId, payees: seq<Payee>, a: Address)
    requires id in s.events && s.events[id].admin != a
    ensures var r := PayoutStep(s, id, payees); r.Some? ==> Untouched(s, r.value, a)
  {
    hide TransferAll, ValidWinners;
  }

  lemma CompensateUntouched(s: State, auth: set<Address>, admin: Address, id: EventId, participants: seq<Participant>,
                            a: Address)
    requires !OwnedBy(s, id, a)
    ensures var r := CompensateStep(s, auth, admin, id, participants); r.Some? ==> Untouched(s, r.value, a)
  {
    hide TransferAll, AllPositive;
  }

  lemma CallUntouched(s: State, auth: set<Address>, call: Call, a: Address)
    requires !Concerns(s, call, a)
    ensures var r := Apply(s, auth, call); r.Some? ==> Untouched(s, r.value, a)
  {
    hide Untouched, DepositStep, WithdrawStep, CreateStep, RefundStep, StartStep, EmergencyStep, PayoutStep,
         CompensateStep, WaitStep;
    match call
    case DepositFunds(admin, token, amount) => WalletCallsUntouched(s, auth, admin, token, amount, a);
    case WithdrawFunds(admin, amount) => WalletCallsUntouched(s, auth, admin, admin, amount, a);
    case CreateEvent(admin, judge, resolver, token, reward, id, deadline) =>
      CreateUntouched(s, auth, admin, judge, resolver, token, reward, id, deadline, a);
    case ExpireEvent(id) => if id in s.events { RefundUntouched(s, id, a); }
    case SetEventWaitingForStart(admin, id) => WaitUntouched(s, auth, admin, id, a);
    case SetEventInProgress(admin, id, judgingDeadline) => StartUntouched(s, auth, admin, id, judgingDeadline, a);
    case SetEventCancelled(admin, id) => if id in s.events { RefundUntouched(s, id, a); }
    case EmergencyWithdraw(admin, resolver, id, amount) => EmergencyUntouched(s, auth, admin, resolver, id, amount, a);
    case ReleaseCompensation(admin, id, participants) => CompensateUntouched(s, auth, admin, id, participants, a);
    case ReleaseReward(judge, id, winners) => if id in s.events { PayoutUntouched(s, id, WinnerPayees(winners), a); }
    case ResolveDispute(resolver, id, winners) =>
      if id in s.events { PayoutUntouched(s, id, WinnerPayees(winners), a); }
  }

  lemma UntouchedMirrors(s: State, s': State, r: State, a: Address)
    requires Mirrors(s, r, a) && Untouched(s, s', a)
    ensures Mirrors(s', r, a)
  {}

  // ------------------------------------------------------------------
  // Steps
  // ------------------------------------------------------------------

  lemma KeptStep(s: State, r: State, step: Step, a: Address)
    requires Mirrors(s, r, a) && Sound(r) && Kept(s, step, a)
    ensures !step.Outside? ==> (Next(r, step).Some? <==> Funded(r, step))
    ensures step.Outside? || Funded(r, step) ==> Mirrors(After(s, step), After(r, step), a)
  {
    hide Sound, Apply, OutsideStep, Concerns, BalanceOf, Mirrors;
    SameParts(s, r, a);
    match step
    case Invoke(call, auth) => CallIsolated(s, r, auth, call, a);
    case Outside(token, from, to, amount) => OutsideIsolated(s, r, step, a);
    case Tick(now) => SameClock(s, r, a, now);
  }

  lemma OutsideParts(s: State, step: Step)
    requires step.Outside?
    ensures var s' := After(s, step); s' == s.(ledger := s'.ledger, history := s'.history)
  {
    hide Transfer;
  }

  lemma OutsideIsolated(s: State, r: State, step: Step, a: Address)
    requires Mirrors(s, r, a) && step.Outside?
    ensures Mirrors(After(s, step), After(r, step), a)
  {
    OutsideParts(s, step);
    OutsideParts(r, step);
    hide After, Mirrors;
    var s', r' := After(s, step), After(r, step);
    Unseen(s, r, a, s'.ledger, r'.ledger, s'.history, r'.history);
  }

  lemma SameClock(s: State, r: State, a: Address, now: nat)
    requires Mirrors(s, r, a)
    ensures Mirrors(s.(clock := now), r.(clock := now), a)
  {}

  lemma DroppedStep(s: State, r: State, step: Step, a: Address)
    requires Mirrors(s, r, a) && !Kept(s, step, a)
    ensures Mirrors(After(s, step), r, a)
  {
    hide Mirrors, Untouched, Apply, Concerns, Transfer;
    if Next(s, step).Some? {
      CallUntouched(s, step.auth, step.call, a);
      UntouchedMirrors(s, After(s, step), r, a);
    }
  }

  // ------------------------------------------------------------------
  // Runs
  // ------------------------------------------------------------------

  /** The run that keeps only what concerns organizer a. */
  function Reduced(s: State, steps: seq<Step>, a: Address): State
  {
    if steps == [] then s
    else
      var n := |steps| - 1;
      var r := Reduced(s, steps[..n], a);
      if Kept(Run(s, steps[..n]), steps[n], a) then After(r, steps[n]) else r
  }

  /** Every kept deposit is funded in the reduced run. */
  predicate DepositsFunded(s: State, steps: seq<Step>, a: Address)
  {
    steps == [] ||
    var n := |steps| - 1;
    && DepositsFunded(s, steps[..n], a)
    && (Kept(Run(s, steps[..n]), steps[n], a) ==> Funded(Reduced(s, steps[..n], a), steps[n]))
  }

  /** Every kept call succeeds in the reduced run. */
  predicate KeptSucceed(s: State, steps: seq<Step>, a: Address)
  {
    steps == [] ||
    var n := |steps| - 1;
    && KeptSucceed(s, steps[..n], a)
    && (Kept(Run(s, steps[..n]), steps[n], a) && !steps[n].Outside? ==> Next(Reduced(s, steps[..n], a), steps[n]).Some?)
  }

  lemma {:induction false} ReducedSound(s: State, steps: seq<Step>, a: Address)
    requires Sound(s)
    ensures Sound(Reduced(s, steps, a))
  {
    hide Sound, Kept, After;
    if steps != [] {
      ReducedSound(s, steps[..|steps| - 1], a);
      AfterSound(Reduced(s, steps[..|steps| - 1], a), steps[|steps| - 1]);
    }
  }

  lemma MirrorsItself(s: State, a: Address)
    ensures Mirrors(s, s, a)
  {}

  /**
   The kept calls all succeed exactly when the kept deposits are funded, and then
   organizer a ends with the same wallet, events and index as in the full run.
   */
  lemma {:induction false} Isolation(s: State, steps: seq<Step>, a: Address)
    requires Sound(s)
    ensures KeptSucceed(s, steps, a) <==> DepositsFunded(s, steps, a)
    ensures DepositsFunded(s, steps, a) ==> SameView(Run(s, steps), Reduced(s, steps, a), a)
    ensures DepositsFunded(s, steps, a) ==> Mirrors(Run(s, steps), Reduced(s, steps, a), a)
  {
    hide Sound, Kept, After, Next, SameView, Funded;
    if steps == [] {
      MirrorsItself(s, a);
    } else {
      var n := |steps| - 1;
      Isolation(s, steps[..n], a);
      var full, r := Run(s, steps[..n]), Reduced(s, steps[..n], a);
      ReducedSound(s, steps[..n], a);
      if DepositsFunded(s, steps[..n], a) {
        if Kept(full, steps[n], a) {
          OutsideFunded(r, steps[n]);
          KeptStep(full, r, steps[n], a);
        } else {
          DroppedStep(full, r, steps[n], a);
        }
      }
    }
  }

  lemma OutsideFunded(r: State, step: Step)
    ensures step.Outside? ==> Funded(r, step)
  {}

  // ------------------------------------------------------------------
  // Why deposits must be funded
  // ------------------------------------------------------------------

  /** One step of both runs. */
  lemma RunsStep(s: State, steps: seq<Step>, step: Step, a: Address)
    ensures Run(s, steps + [step]) == After(Run(s, steps), step)
    ensures Reduced(s, steps + [step], a) ==
              if Kept(Run(s, steps), step, a) then After(Reduced(s, steps, a), step) else Reduced(s, steps, a)
  {
    assert (steps + [step])[..|steps|] == steps;
  }

  const TOKEN: Address := Address(9)
  const BOB: Address := Address(1)
  const ANA: Address := Address(2)
  const EVENT: EventId := EventId(7)

  function Genesis(): State
  {
    State(Address(0), Governance(None, None, None, None, false, {}, false, {}), 0, map[], map[], map[], map[],
          map[Account(TOKEN, BOB) := 10], [])
  }

  const DEPOSIT: Step := Invoke(DepositFunds(BOB, TOKEN, 10), {BOB})
  const CREATE: Step := Invoke(CreateEvent(BOB, BOB, Some(BOB), TOKEN, 10, EVENT, None), {BOB})
  const CANCEL: Step := Invoke(SetEventCancelled(BOB, EVENT), {BOB})
  const COMPENSATE: Step := Invoke(ReleaseCompensation(BOB, EVENT, [Participant(ANA, 10)]), {BOB})
  const REDEPOSIT: Step := Invoke(DepositFunds(ANA, TOKEN, 10), {ANA})

  lemma AfterDeposit()
    ensures var s := After(Genesis(), DEPOSIT);
      && s.wallets == map[BOB := AdminWallet(TOKEN, 10)] && s.events == map[] && s.eventsCount == map[]
      && s.gov == Genesis().gov && s.clock == 0 && s.self == Address(0)
      && BalanceOf(s.ledger, TOKEN, Address(0)) == 10
  {}

  lemma AfterCreate(s: State)
    requires s == After(Genesis(), DEPOSIT)
    ensures var t := After(s, CREATE);
      && t.wallets == map[BOB := AdminWallet(TOKEN, 0)]
      && t.events == map[EVENT := Event(BOB, BOB, TOKEN, BOB, 10, Created, None, None)]
      && t.gov == Genesis().gov && t.clock == 0 && t.self == Address(0) && t.ledger == s.ledger
  {
    AfterDeposit();
  }

  lemma AfterCancel(s: State)
    requires s.wallets == map[BOB := AdminWallet(TOKEN, 0)]
    requires s.events == map[EVENT := Event(BOB, BOB, TOKEN, BOB, 10, Created, None, None)]
    requires s.gov == Genesis().gov && s.self == Address(0)
    ensures var t := After(s, CANCEL);
      && t.wallets == map[BOB := AdminWallet(TOKEN, 10)]
      && t.events == map[EVENT := Event(BOB, BOB, TOKEN, BOB, 10, Cancelled, None, None)]
      && t.gov == s.gov && t.self == s.self && t.ledger == s.ledger
  {}

  lemma AfterCompensate(s: State)
    requires s.wallets == map[BOB := AdminWallet(TOKEN, 10)]
    requires s.events == map[EVENT := Event(BOB, BOB, TOKEN, BOB, 10, Cancelled, None, None)]
    requires s.gov == Genesis().gov && s.self == Address(0) && BalanceOf(s.ledger, TOKEN, Address(0)) == 10
    ensures var t := After(s, COMPENSATE);
      && t.gov == s.gov && t.self == s.self && ANA !in t.wallets && BalanceOf(t.ledger, TOKEN, ANA) >= 10
  {
    hide TransferAll, BalanceOf;
    var payees := ParticipantPayees([Participant(ANA, 10)]);
    assert payees == [Payee(ANA, 10)];
    assert payees[..0] == [];
    assert Total(payees) == 10 && TotalTo(payees, ANA) == 10;
    TransferAllSucceeds(s.ledger, TOKEN, s.self, payees);
    var ledger := TransferAll(s.ledger, TOKEN, s.self, payees).value;
    TransferAllBalance(s.ledger, TOKEN, s.self, payees, ledger, TOKEN, ANA);
  }

  /**
   Ana's deposit is not funded once Bob's steps are gone: Bob compensates her from a
   cancelled event, she deposits what she received, and without Bob she has nothing.
   */
  lemma IsolationNeedsFunding() returns (s: State, steps: seq<Step>)
    ensures Initial(s)
    ensures !DepositsFunded(s, steps, ANA) && !KeptSucceed(s, steps, ANA)
  {
    s := Genesis();
    GenesisInitial();
    hide After, Next, Initial, Genesis;
    var s1 := After(s, DEPOSIT);
    var s2 := After(s1, CREATE);
    var s3 := After(s2, CANCEL);
    var s4 := After(s3, COMPENSATE);
    AfterDeposit();
    AfterCreate(s1);
    AfterCancel(s2);
    AfterCompensate(s3);
    var p0: seq<Step> := [];
    var p1, p2, p3, p4 := p0 + [DEPOSIT], p0 + [DEPOSIT] + [CREATE], p0 + [DEPOSIT] + [CREATE] + [CANCEL],
                          p0 + [DEPOSIT] + [CREATE] + [CANCEL] + [COMPENSATE];
    RunsStep(s, p0, DEPOSIT, ANA);
    RunsStep(s, p1, CREATE, ANA);
    RunsStep(s, p2, CANCEL, ANA);
    RunsStep(s, p3, COMPENSATE, ANA);
    assert Run(s, p4) == s4 && Reduced(s, p4, ANA) == s;
    steps := p4 + [REDEPOSIT];
    assert steps[..4] == p4;
    RedepositWorks(s4);
    RedepositUnfunded();
    assert Kept(s4, REDEPOSIT, ANA);
  }

  lemma GenesisInitial()
    ensures Initial(Genesis())
  {}

  lemma RedepositWorks(s: State)
    requires s.gov == Genesis().gov && s.self == Address(0) && ANA !in s.wallets
             && BalanceOf(s.ledger, TOKEN, ANA) >= 10
    ensures Next(s, REDEPOSIT).Some?
  {
    hide BalanceOf;
    TransferSucceeds(s.ledger, TOKEN, ANA, s.self, 10);
  }

  lemma RedepositUnfunded()
    ensures !Funded(Genesis(), REDEPOSIT) && Next(Genesis(), REDEPOSIT).None?
  {}
}
