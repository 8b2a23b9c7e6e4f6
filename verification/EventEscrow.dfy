/**
 The escrow contract as an object that updates its storage in place, entry point by
 entry point, in the order of the original. A method that returns false has panicked,
 possibly after some writes; `Invoke` is the host, which then reverts them. Each entry
 point is proved to be the step of the same name in EscrowSteps.
 */
module EventEscrow {
  import opened Wrappers
  import opened EscrowState
  import opened EscrowSteps
  import opened EscrowIndex
  import opened EscrowConservation
  import E = EscrowEffects

  class EventEscrow {
    const self: Address
    var gov: Governance
    var clock: nat
    var wallets: map<Address, AdminWallet>
    var events: map<EventId, Event>
    var eventsCount: map<Address, u32>
    var eventIndex: map<IndexKey, EventId>
    /** The token contracts. */
    var ledger: Ledger
    ghost var history: seq<Entry>

    ghost function State(): State
      reads this
    {
      EscrowState.State(self, gov, clock, wallets, events, eventsCount, eventIndex, ledger, history)
    }

    constructor (self: Address, clock: nat, ledger: Ledger)
      requires forall t :: BalanceOf(ledger, t, self) == 0
      ensures Initial(State()) && this.self == self && this.clock == clock && this.ledger == ledger
    {
      this.self := self;
      this.clock := clock;
      this.ledger := ledger;
      gov := Governance(None, None, None, None, false, {}, false, {});
      wallets, events, eventsCount, eventIndex := map[], map[], map[], map[];
      history := [];
    }

    // ----------------------------------------------------------------
    // Token client
    // ----------------------------------------------------------------

    method TokenTransfer(token: Address, from: Address, to: Address, amount: int) returns (ok: bool)
      modifies this`ledger
      ensures ok <==> Transfer(old(ledger), token, from, to, amount).Some?
      ensures ok ==> Some(ledger) == Transfer(old(ledger), token, from, to, amount)
    {
      var r := Transfer(ledger, token, from, to, amount);
      if r.None? {
        return false;
      }
      ledger := r.value;
      return true;
    }

    lemma PrefixFails(l: Ledger, token: Address, from: Address, payees: seq<Payee>, i: nat)
      requires i <= |payees| && TransferAll(l, token, from, payees[..i]).None?
      ensures TransferAll(l, token, from, payees).None?
      decreases |payees|
    {
      if i < |payees| {
        assert payees[..|payees| - 1][..i] == payees[..i];
        PrefixFails(l, token, from, payees[..|payees| - 1], i);
      } else {
        assert payees[..i] == payees;
      }
    }

    /** The transfer loop of payouts and compensations. */
    method TransferToPayees(token: Address, payees: seq<Payee>) returns (ok: bool)
      modifies this`ledger
      ensures ok <==> TransferAll(old(ledger), token, self, payees).Some?
      ensures ok ==> Some(ledger) == TransferAll(old(ledger), token, self, payees)
    {
      hide Transfer;
      for i := 0 to |payees|
        invariant TransferAll(old(ledger), token, self, payees[..i]) == Some(ledger)
      {
        assert payees[..i + 1][..i] == payees[..i];
        var sent := TokenTransfer(token, self, payees[i].address, payees[i].amount);
        if !sent {
          PrefixFails(old(ledger), token, self, payees, i + 1);
          return false;
        }
      }
      assert payees[..|payees|] == payees;
      return true;
    }

    // ----------------------------------------------------------------
    // Wallets
    // ----------------------------------------------------------------

    method DepositFunds(auth: set<Address>, admin: Address, token: Address, amount: i128) returns (ok: bool)
      modifies this
      ensures ok <==> DepositStep(old(State()), auth, admin, token, amount).Some?
      ensures ok ==> Some(State()) == DepositStep(old(State()), auth, admin, token, amount)
    {
      hide Transfer;
      if admin !in auth || gov.IsPaused(admin) || !gov.TokenAllowed(token) || !(amount > 0) {
        return false;
      }
      var sent := TokenTransfer(token, admin, self, amount);
      if !sent {
        return false;
      }
      var wallet := if admin in wallets then wallets[admin] else AdminWallet(token, 0);
      if wallet.token != token || wallet.balance + amount > I128_MAX {
        return false;
      }
      wallet := wallet.(balance := wallet.balance + amount);
      ghost var before := wallets;
      wallets := wallets[admin := wallet];
      assert wallets == before[admin := AdminWallet(token, wallet.balance - amount)][admin := wallet];
      history := history + [Deposited(admin, token, amount)];
      return true;
    }

    method WithdrawFunds(auth: set<Address>, admin: Address, amount: i128) returns (ok: bool)
      modifies this
      ensures ok <==> WithdrawStep(old(State()), auth, admin, amount).Some?
      ensures ok ==> Some(State()) == WithdrawStep(old(State()), auth, admin, amount)
    {
      hide Transfer;
      if admin !in auth || gov.IsPaused(admin) || !(amount > 0) || admin !in wallets {
        return false;
      }
      var wallet := wallets[admin];
      if !(wallet.balance >= amount) {
        return false;
      }
      wallet := wallet.(balance := wallet.balance - amount);
      wallets := wallets[admin := wallet];
      var sent := TokenTransfer(wallet.token, self, admin, amount);
      history := history + [Withdrawn(admin, wallet.token, amount)];
      return sent;
    }

    /** Zero without a wallet; while the books hold, all that the history credited less all that it debited. */
    method GetBalance(admin: Address) returns (balance: money)
      ensures balance == State().Balance(admin)
      ensures WalletBooks(State()) ==> balance == WalletSum(history, admin)
    {
      return if admin in wallets then wallets[admin].balance else 0;
    }

    // ----------------------------------------------------------------
    // Lifecycle
    // ----------------------------------------------------------------

    method CreateEventInternal(auth: set<Address>, admin: Address, judge: Address, namedResolver: Option<Address>,
                               token: Address, reward: i128, id: EventId, deadline: Option<nat>) returns (ok: bool)
      modifies this
      ensures ok <==> CreateStep(old(State()), auth, admin, judge, namedResolver, token, reward, id, deadline).Some?
      ensures ok ==>
                Some(State())
                  == CreateStep(old(State()), auth, admin, judge, namedResolver, token, reward, id, deadline)
      ensures ok ==>
                E.CreatedAs(State(), id, admin, judge, namedResolver, old(gov).defaultResolver, token, reward, deadline)
    {
      if admin !in auth || gov.IsPaused(admin) || !gov.TokenAllowed(token) || !(reward > 0) {
        return false;
      }
      if deadline.Some? && !(deadline.value > clock) {
        return false;
      }
      if id in events || admin !in wallets {
        return false;
      }
      var wallet := wallets[admin];
      if wallet.token != token || !(wallet.balance >= reward) {
        return false;
      }
      wallets := wallets[admin := wallet.(balance := wallet.balance - reward)];
      if namedResolver.None? && gov.defaultResolver.None? {
        return false;
      }
      var resolver := if namedResolver.Some? then namedResolver.value else gov.defaultResolver.value;
      events := events[id := Event(admin, judge, token, resolver, reward, Created, deadline, None)];
      var count := if admin in eventsCount then eventsCount[admin] else 0;
      eventIndex := eventIndex[IndexKey(admin, count) := id];
      if count == U32_MAX {
        return false;
      }
      eventsCount := eventsCount[admin := count + 1];
      history := history + [Reserved(id, admin, reward)];
      return true;
    }

    /** The credit of a refund or an emergency withdrawal. */
    method CreditWallet(admin: Address, amount: money) returns (ok: bool)
      modifies this`wallets
      ensures ok <==> Credit(old(State()), admin, amount).Some?
      ensures ok ==> Some(State()) == Credit(old(State()), admin, amount)
    {
      if admin !in wallets {
        return false;
      }
      var wallet := wallets[admin];
      if wallet.balance + amount > I128_MAX {
        return false;
      }
      wallets := wallets[admin := wallet.(balance := wallet.balance + amount)];
      return true;
    }

    method ExpireEvent(id: EventId) returns (ok: bool)
      modifies this
      ensures ok <==> ExpireStep(old(State()), id).Some?
      ensures ok ==> Some(State()) == ExpireStep(old(State()), id)
    {
      if id !in events {
        return false;
      }
      var event := events[id];
      if !(event.state == Created || event.state == WaitingForStart) || event.deadline.None? {
        return false;
      }
      if !(clock >= event.deadline.value) {
        return false;
      }
      event := event.(state := Cancelled);
      events := events[id := event];
      ok := CreditWallet(event.admin, event.reward);
      history := history + [Refunded(id, event.admin, event.reward)];
    }

    /** The guards of the organizer's entry points on an event. */
    method OrganizersEvent(auth: set<Address>, admin: Address, id: EventId) returns (event: Option<Event>)
      ensures event.Some? <==> OrganizerMay(State(), auth, admin, id)
      ensures event.Some? ==> event.value == events[id]
    {
      if admin !in auth || gov.IsPaused(admin) || id !in events || events[id].admin != admin {
        return None;
      }
      return Some(events[id]);
    }

    method SetEventWaitingForStart(auth: set<Address>, admin: Address, id: EventId) returns (ok: bool)
      modifies this
      ensures ok <==> WaitStep(old(State()), auth, admin, id).Some?
      ensures ok ==> Some(State()) == WaitStep(old(State()), auth, admin, id)
    {
      var event := OrganizersEvent(auth, admin, id);
      if event.None? || event.value.state != Created {
        return false;
      }
      events := events[id := event.value.(state := WaitingForStart)];
      return true;
    }

    method SetEventInProgress(auth: set<Address>, admin: Address, id: EventId, judgingDeadline: nat) returns (ok: bool)
      modifies this
      ensures ok <==> StartStep(old(State()), auth, admin, id, judgingDeadline).Some?
      ensures ok ==> Some(State()) == StartStep(old(State()), auth, admin, id, judgingDeadline)
    {
      hide ChargeStep;
      var found := OrganizersEvent(auth, admin, id);
      if found.None? {
        return false;
      }
      var event := found.value;
      if !(event.state == Created || event.state == WaitingForStart) || !(judgingDeadline > clock) {
        return false;
      }
      var feeBps := if gov.feeBps.Some? then gov.feeBps.value else DEFAULT_FEE_BPS;
      if event.reward * feeBps > I128_MAX {
        return false;
      }
      var fee := FeeOf(feeBps, event.reward);
      ghost var before := State();
      var charged := ChargeFee(id, event, fee);
      if !charged {
        return false;
      }
      ChargeKeepsEvents(before, id, fee);
      event := event.(state := InProgress, judgingDeadline := Some(judgingDeadline));
      events := events[id := event];
      history := history + [Started(id, admin, event.token, event.reward)];
      return true;
    }

    lemma ChargeKeepsEvents(s: State, id: EventId, fee: money)
      requires id in s.events && ChargeStep(s, id, fee).Some?
      ensures ChargeStep(s, id, fee).value.events == s.events
    {}

    /** The go-live fee, from the organizer's free balance to the treasury. */
    method ChargeFee(id: EventId, event: Event, fee: money) returns (ok: bool)
      requires id in events && event == events[id]
      modifies this
      ensures ok <==> ChargeStep(old(State()), id, fee).Some?
      ensures ok ==> Some(State()) == ChargeStep(old(State()), id, fee)
    {
      hide Transfer;
      if fee > 0 {
        if gov.treasury.None? {
          return false;
        }
        var treasury := gov.treasury.value;
        if event.admin !in wallets {
          return false;
        }
        var wallet := wallets[event.admin];
        if !(wallet.balance >= fee) {
          return false;
        }
        wallets := wallets[event.admin := wallet.(balance := wallet.balance - fee)];
        var sent := TokenTransfer(event.token, self, treasury, fee);
        if !sent {
          return false;
        }
        history := history + [FeeCharged(id, event.admin, event.token, treasury, fee)];
      }
      return true;
    }

    method SetEventCancelled(auth: set<Address>, admin: Address, id: EventId) returns (ok: bool)
      modifies this
      ensures ok <==> CancelStep(old(State()), auth, admin, id).Some?
      ensures ok ==> Some(State()) == CancelStep(old(State()), auth, admin, id)
    {
      var found := OrganizersEvent(auth, admin, id);
      if found.None? {
        return false;
      }
      var event := found.value;
      if !(event.state == Created || event.state == WaitingForStart) {
        return false;
      }
      event := event.(state := Cancelled);
      events := events[id := event];
      ok := CreditWallet(admin, event.reward);
      history := history + [Refunded(id, admin, event.reward)];
    }

    method EmergencyWithdraw(auth: set<Address>, admin: Address, resolver: Address, id: EventId, amount: i128)
      returns (ok: bool)
      modifies this
      ensures ok <==> EmergencyStep(old(State()), auth, admin, resolver, id, amount).Some?
      ensures ok ==> Some(State()) == EmergencyStep(old(State()), auth, admin, resolver, id, amount)
    {
      var found := OrganizersEvent(auth, admin, id);
      if found.None? || resolver !in auth || !(amount > 0) {
        return false;
      }
      var event := found.value;
      if event.resolver != resolver || !(event.state == Created || event.state == WaitingForStart)
         || !(amount <= event.reward) {
        return false;
      }
      event := event.(reward := event.reward - amount);
      events := events[id := event];
      ok := CreditWallet(admin, amount);
      history := history + [EmergencyWithdrawn(id, admin, amount)];
    }

    // ----------------------------------------------------------------
    // Rewards
    // ----------------------------------------------------------------

    method CheckAndSum(payees: seq<Payee>) returns (total: Option<money>)
      ensures total.Some? <==> AllPositive(payees) && Total(payees) <= I128_MAX
      ensures total.Some? ==> total.value == Total(payees)
    {
      for i := 0 to |payees|
        invariant forall k :: 0 <= k < i ==> payees[k].amount > 0
      {
        if !(payees[i].amount > 0) {
          return None;
        }
      }
      var sum: money := 0;
      for i := 0 to |payees|
        invariant sum == Total(payees[..i])
      {
        assert payees[..i + 1][..i] == payees[..i];
        if sum + payees[i].amount > I128_MAX {
          TotalGrows(payees, i + 1);
          return None;
        }
        sum := sum + payees[i].amount;
      }
      assert payees[..|payees|] == payees;
      return Some(sum);
    }

    lemma {:induction false} TotalGrows(payees: seq<Payee>, i: nat)
      requires i <= |payees| && AllPositive(payees)
      ensures Total(payees[..i]) <= Total(payees)
      decreases |payees|
    {
      if i < |payees| {
        assert payees[..|payees| - 1][..i] == payees[..i];
        TotalGrows(payees[..|payees| - 1], i);
      } else {
        assert payees[..i] == payees;
      }
    }

    method ValidateAndSumWinners(winners: seq<Winner>, expectedTotal: money) returns (ok: bool)
      ensures ok <==> ValidWinners(WinnerPayees(winners), expectedTotal)
    {
      if !(|winners| <= MAX_WINNERS) {
        return false;
      }
      var total := CheckAndSum(WinnerPayees(winners));
      return total == Some(expectedTotal);
    }

    /** Ends the event and pays its reward out. */
    method PayWinners(id: EventId, event: Event, winners: seq<Winner>) returns (ok: bool)
      requires id in events && event == events[id]
      modifies this
      ensures ok <==> PayoutStep(old(State()), id, WinnerPayees(winners)).Some?
      ensures ok ==> Some(State()) == PayoutStep(old(State()), id, WinnerPayees(winners))
    {
      hide TransferAll, ValidWinners;
      var valid := ValidateAndSumWinners(winners, event.reward);
      if !valid {
        return false;
      }
      events := events[id := event.(state := Ended)];
      ok := TransferToPayees(event.token, WinnerPayees(winners));
      history := history + [PaidOut(id, event.token, WinnerPayees(winners))];
    }

    method ReleaseReward(auth: set<Address>, judge: Address, id: EventId, winners: seq<Winner>) returns (ok: bool)
      modifies this
      ensures ok <==> ReleaseStep(old(State()), auth, judge, id, winners).Some?
      ensures ok ==> Some(State()) == ReleaseStep(old(State()), auth, judge, id, winners)
      ensures ok ==> id in old(events) && E.Distributed(old(State()), State(), id, winners)
    {
      hide PayoutStep, E.Distributed, E.Payable;
      E.ReleaseDistributes(State(), auth, judge, id, winners);
      if judge !in auth || id !in events {
        return false;
      }
      var event := events[id];
      if gov.IsPaused(event.admin) || event.judge != judge || event.state != InProgress {
        return false;
      }
      ok := PayWinners(id, event, winners);
    }

    method ResolveDispute(auth: set<Address>, resolver: Address, id: EventId, winners: seq<Winner>) returns (ok: bool)
      modifies this
      ensures ok <==> ResolveStep(old(State()), auth, resolver, id, winners).Some?
      ensures ok ==> Some(State()) == ResolveStep(old(State()), auth, resolver, id, winners)
      ensures ok ==> id in old(events) && E.Distributed(old(State()), State(), id, winners)
    {
      hide PayoutStep, E.Distributed, E.Payable;
      E.ReleaseDistributes(State(), auth, resolver, id, winners);
      if resolver !in auth || id !in events {
        return false;
      }
      var event := events[id];
      if gov.IsPaused(event.admin) || event.resolver != resolver || event.state != InProgress
         || event.judgingDeadline.None? {
        return false;
      }
      if !(clock >= event.judgingDeadline.value) {
        return false;
      }
      ok := PayWinners(id, event, winners);
    }

    method ReleaseCompensation(auth: set<Address>, admin: Address, id: EventId, participants: seq<Participant>)
      returns (ok: bool)
      modifies this
      ensures ok <==> CompensateStep(old(State()), auth, admin, id, participants).Some?
      ensures ok ==> Some(State()) == CompensateStep(old(State()), auth, admin, id, participants)
    {
      hide TransferAll, AllPositive, Total;
      var found := OrganizersEvent(auth, admin, id);
      if found.None? || found.value.state != Cancelled || |participants| == 0 {
        return false;
      }
      var payees := ParticipantPayees(participants);
      var total := CheckAndSum(payees);
      if total.None? || admin !in wallets {
        return false;
      }
      var wallet := wallets[admin];
      if !(wallet.balance >= total.value) {
        return false;
      }
      wallets := wallets[admin := wallet.(balance := wallet.balance - total.value)];
      ok := TransferToPayees(wallet.token, payees);
      events := events[id := found.value.(state := Compensated)];
      history := history + [CompensationPaid(id, admin, wallet.token, payees)];
    }

    // ----------------------------------------------------------------
    // Governance
    // ----------------------------------------------------------------

    method Govern(auth: set<Address>, change: Change) returns (ok: bool)
      modifies this`gov
      ensures ok <==> GovernStep(old(gov), auth, change).Some?
      ensures ok ==> Some(gov) == GovernStep(old(gov), auth, change)
    {
      match change {
        case InitializeEmergencyAdmin(emergencyAdmin) =>
          if emergencyAdmin !in auth || gov.emergencyAdmin.Some? {
            return false;
          }
          gov := gov.(emergencyAdmin := Some(emergencyAdmin));
          return true;
        case _ =>
      }
      if change.caller !in auth || gov.emergencyAdmin != Some(change.caller) {
        return false;
      }
      match change {
        case InitializeDefaultResolver(_, defaultResolver) =>
          if gov.defaultResolver.Some? {
            return false;
          }
          gov := gov.(defaultResolver := Some(defaultResolver));
        case InitializeTreasury(_, treasury) =>
          if gov.treasury.Some? {
            return false;
          }
          gov := gov.(treasury := Some(treasury));
        case SetFeeBps(_, feeBps) =>
          if !(feeBps <= MAX_FEE_BPS) {
            return false;
          }
          gov := gov.(feeBps := Some(feeBps));
        case SetPaused(_, paused) =>
          gov := gov.(paused := paused);
        case SetAdminPaused(_, target, paused) =>
          gov := gov.(pausedAdmins := if paused then gov.pausedAdmins + {target} else gov.pausedAdmins - {target});
        case SetTokenWhitelistEnabled(_, enabled) =>
          gov := gov.(whitelistEnabled := enabled);
        case SetTokenAllowed(_, token, allowed) =>
          gov := gov.(allowedTokens := if allowed then gov.allowedTokens + {token} else gov.allowedTokens - {token});
      }
      return true;
    }

    // ----------------------------------------------------------------
    // The host
    // ----------------------------------------------------------------

    /** Runs one entry point. */
    method Dispatch(call: Call, auth: set<Address>) returns (ok: bool)
      modifies this
      ensures ok <==> Apply(old(State()), auth, call).Some?
      ensures ok ==> Some(State()) == Apply(old(State()), auth, call)
    {
      hide DepositStep, WithdrawStep, CreateStep, ExpireStep, WaitStep, StartStep, CancelStep, EmergencyStep,
           CompensateStep, ReleaseStep, ResolveStep, GovernStep;
      match call
      case DepositFunds(admin, token, amount) => ok := DepositFunds(auth, admin, token, amount);
      case WithdrawFunds(admin, amount) => ok := WithdrawFunds(auth, admin, amount);
      case CreateEvent(admin, judge, resolver, token, reward, id, deadline) =>
        ok := CreateEventInternal(auth, admin, judge, resolver, token, reward, id, deadline);
      case ExpireEvent(id) => ok := ExpireEvent(id);
      case SetEventWaitingForStart(admin, id) => ok := SetEventWaitingForStart(auth, admin, id);
      case SetEventInProgress(admin, id, judgingDeadline) => ok := SetEventInProgress(auth, admin, id, judgingDeadline);
      case SetEventCancelled(admin, id) => ok := SetEventCancelled(auth, admin, id);
      case EmergencyWithdraw(admin, resolver, id, amount) => ok := EmergencyWithdraw(auth, admin, resolver, id, amount);
      case ReleaseCompensation(admin, id, participants) => ok := ReleaseCompensation(auth, admin, id, participants);
      case ReleaseReward(judge, id, winners) => ok := ReleaseReward(auth, judge, id, winners);
      case ResolveDispute(resolver, id, winners) => ok := ResolveDispute(auth, resolver, id, winners);
      case Govern(change) => ok := Govern(auth, change);
    }

    /** A transaction: a panic reverts every write. */
    method Invoke(call: Call, auth: set<Address>) returns (ok: bool)
      requires self !in auth
      modifies this
      ensures ok <==> Next(old(State()), Step.Invoke(call, auth)).Some?
      ensures State() == After(old(State()), Step.Invoke(call, auth))
    {
      hide Apply;
      var gov', wallets', events' := gov, wallets, events;
      var eventsCount', eventIndex', ledger', clock' := eventsCount, eventIndex, ledger, clock;
      ghost var history' := history;
      ok := Dispatch(call, auth);
      if !ok {
        gov, wallets, events := gov', wallets', events';
        eventsCount, eventIndex, ledger, clock := eventsCount', eventIndex', ledger', clock';
        history := history';
      }
    }

    // ----------------------------------------------------------------
    // Readers
    // ----------------------------------------------------------------

    method QuoteGoLiveFee(id: EventId) returns (fee: Option<money>)
      ensures fee == EscrowSteps.QuoteGoLiveFee(State(), id)
    {
      if id !in events {
        return None;
      }
      var feeBps := if gov.feeBps.Some? then gov.feeBps.value else DEFAULT_FEE_BPS;
      if events[id].reward * feeBps > I128_MAX {
        return None;
      }
      return Some(FeeOf(feeBps, events[id].reward));
    }

    method GetEventsByAdminCount(admin: Address) returns (count: u32)
      ensures count == State().Count(admin)
      ensures IndexHolds(State(), admin) ==> count == |CreatedIds(history, admin)|
    {
      hide CreatedIds;
      return if admin in eventsCount then eventsCount[admin] else 0;
    }

    /** None is a panic on a missing index entry; it cannot happen while the index holds. */
    method GetEventsByAdmin(admin: Address) returns (r: Option<seq<EventId>>)
      ensures IndexHolds(State(), admin) ==> r == Some(CreatedIds(history, admin))
    {
      hide CreatedIds, IndexHolds;
      ghost var ids := CreatedIds(history, admin);
      if IndexHolds(State(), admin) { IndexedAt(State(), admin, 0); }
      var count := GetEventsByAdminCount(admin);
      var result := [];
      for i := 0 to count
        invariant |result| == i
        invariant IndexHolds(State(), admin) ==> count == |ids| && result == ids[0..i]
      {
        if IndexHolds(State(), admin) {
          IndexedAt(State(), admin, i);
          SliceStep(ids, 0, i);
        }
        if IndexKey(admin, i) !in eventIndex {
          return None;
        }
        result := result + [eventIndex[IndexKey(admin, i)]];
      }
      assert IndexHolds(State(), admin) ==> ids[0..count] == ids;
      return Some(result);
    }

    method GetEventsByAdminPage(admin: Address, offset: u32, limit: u32) returns (r: Option<seq<EventId>>)
      ensures IndexHolds(State(), admin) ==> r == Some(Page(CreatedIds(history, admin), offset, limit))
    {
      hide CreatedIds, IndexHolds;
      ghost var ids := CreatedIds(history, admin);
      if IndexHolds(State(), admin) { IndexedAt(State(), admin, 0); }
      var count := GetEventsByAdminCount(admin);
      var requestedEnd := if offset + limit <= U32_MAX then offset + limit else U32_MAX;
      var end := if requestedEnd < count then requestedEnd else count;
      var result := [];
      var i := offset;
      while i < end
        invariant offset <= i && (i <= end || i == offset)
        invariant |result| == i - offset
        invariant IndexHolds(State(), admin) ==> count == |ids|
        invariant IndexHolds(State(), admin) && i <= |ids| ==> result == ids[offset..i]
      {
        if IndexHolds(State(), admin) {
          IndexedAt(State(), admin, i);
          SliceStep(ids, offset, i);
        }
        if IndexKey(admin, i) !in eventIndex {
          return None;
        }
        result := result + [eventIndex[IndexKey(admin, i)]];
        i := i + 1;
      }
      return Some(result);
    }
  }
}
