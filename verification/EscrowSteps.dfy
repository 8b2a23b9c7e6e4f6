/**
 The entry points of the escrow contract as one step function. A panic reverts
 everything, so it is a step that yields no new state.
 */
module EscrowSteps {
  import opened Wrappers
  import opened EscrowState

  datatype Call =
    | DepositFunds(admin: Address, token: Address, amount: i128)
    | WithdrawFunds(admin: Address, amount: i128)
    | CreateEvent(admin: Address, judge: Address, namedResolver: Option<Address>, token: Address, reward: i128,
                  id: EventId, deadline: Option<nat>)
    | ExpireEvent(id: EventId)
    | SetEventWaitingForStart(admin: Address, id: EventId)
    | SetEventInProgress(admin: Address, id: EventId, judgingDeadline: nat)
    | SetEventCancelled(admin: Address, id: EventId)
    | EmergencyWithdraw(admin: Address, resolver: Address, id: EventId, amount: i128)
    | ReleaseCompensation(admin: Address, id: EventId, participants: seq<Participant>)
    | ReleaseReward(judge: Address, id: EventId, winners: seq<Winner>)
    | ResolveDispute(resolver: Address, id: EventId, winners: seq<Winner>)
    | Govern(change: Change)

  datatype Change =
    | InitializeEmergencyAdmin(emergencyAdmin: Address)
    | InitializeDefaultResolver(caller: Address, defaultResolver: Address)
    | InitializeTreasury(caller: Address, treasury: Address)
    | SetFeeBps(caller: Address, feeBps: u32)
    | SetPaused(caller: Address, paused: bool)
    | SetAdminPaused(caller: Address, target: Address, paused: bool)
    | SetTokenWhitelistEnabled(caller: Address, enabled: bool)
    | SetTokenAllowed(caller: Address, token: Address, allowed: bool)

  /** A call with the addresses that authorised it, a transfer between outsiders or into the contract, or time. */
  datatype Step =
    | Invoke(call: Call, auth: set<Address>)
    | Outside(token: Address, from: Address, to: Address, amount: nat)
    | Tick(now: nat)

  // ------------------------------------------------------------------
  // Storage updates
  // ------------------------------------------------------------------

  /** Adds to a wallet; panics on overflow. */
  function Credit(s: State, admin: Address, amount: int): Option<State>
    requires amount >= 0
  {
    if admin !in s.wallets || s.wallets[admin].balance + amount > I128_MAX then None
    else Some(s.(wallets := s.wallets[admin := s.wallets[admin].(balance := s.wallets[admin].balance + amount)]))
  }

  /** Takes from a wallet; panics if the balance does not cover it. */
  function Debit(s: State, admin: Address, amount: int): Option<State>
    requires amount >= 0
  {
    if admin !in s.wallets || s.wallets[admin].balance < amount then None
    else Some(s.(wallets := s.wallets[admin := s.wallets[admin].(balance := s.wallets[admin].balance - amount)]))
  }

  function SetEvent(s: State, id: EventId, e: Event): State
  {
    s.(events := s.events[id := e])
  }

  function Record(s: State, e: Entry): State
  {
    s.(history := s.history + [e])
  }

  // ------------------------------------------------------------------
  // Wallets
  // ------------------------------------------------------------------

  function DepositStep(s: State, auth: set<Address>, admin: Address, token: Address, amount: i128): Option<State>
  {
    if admin !in auth || s.gov.IsPaused(admin) || !s.gov.TokenAllowed(token) || amount <= 0 then None else
      match Transfer(s.ledger, token, admin, s.self, amount)
      case None => None
      case Some(ledger) =>
        var wallet := if admin in s.wallets then s.wallets[admin] else AdminWallet(token, 0);
        if wallet.token != token then None else
          var known := s.(ledger := ledger, wallets := s.wallets[admin := wallet]);
          match Credit(known, admin, amount)
          case None => None
          case Some(s') => Some(Record(s', Deposited(admin, token, amount)))
  }

  function WithdrawStep(s: State, auth: set<Address>, admin: Address, amount: i128): Option<State>
  {
    if admin !in auth || s.gov.IsPaused(admin) || amount <= 0 then None else
      match Debit(s, admin, amount)
      case None => None
      case Some(s') =>
        var token := s.wallets[admin].token;
        match Transfer(s'.ledger, token, s.self, admin, amount)
        case None => None
        case Some(ledger) => Some(Record(s'.(ledger := ledger), Withdrawn(admin, token, amount)))
  }

  // ------------------------------------------------------------------
  // Lifecycle
  // ------------------------------------------------------------------

  function CreateStep(s: State, auth: set<Address>, admin: Address, judge: Address, namedResolver: Option<Address>,
                      token: Address, reward: i128, id: EventId, deadline: Option<nat>): Option<State>
  {
    if || admin !in auth || s.gov.IsPaused(admin) || !s.gov.TokenAllowed(token) || reward <= 0
       || (deadline.Some? && deadline.value <= s.clock)
       || id in s.events
       || admin !in s.wallets || s.wallets[admin].token != token
       || (namedResolver.None? && s.gov.defaultResolver.None?)
       || s.Count(admin) == U32_MAX
    then None else
      match Debit(s, admin, reward)
      case None => None
      case Some(s') =>
        var resolver := if namedResolver.Some? then namedResolver.value else s.gov.defaultResolver.value;
        var count := s.Count(admin);
        var stored := SetEvent(s', id, Event(admin, judge, token, resolver, reward, Created, deadline, None));
        var indexed := stored.(eventIndex := s.eventIndex[IndexKey(admin, count) := id],
                               eventsCount := s.eventsCount[admin := count + 1]);
        Some(Record(indexed, Reserved(id, admin, reward)))
  }

  function ExpireStep(s: State, id: EventId): Option<State>
  {
    if id !in s.events then None else
      var e := s.events[id];
      if !e.PreLaunch() || e.deadline.None? || s.clock < e.deadline.value then None
      else RefundStep(s, id)
  }

  /** The whole reward goes back to the organizer's wallet. */
  function RefundStep(s: State, id: EventId): Option<State>
    requires id in s.events
  {
    var e := s.events[id];
    match Credit(SetEvent(s, id, e.(state := Cancelled)), e.admin, e.reward)
    case None => None
    case Some(s') => Some(Record(s', Refunded(id, e.admin, e.reward)))
  }

  /** The guards shared by the organizer's steps on an event. */
  predicate OrganizerMay(s: State, auth: set<Address>, admin: Address, id: EventId)
  {
    admin in auth && !s.gov.IsPaused(admin) && id in s.events && s.events[id].admin == admin
  }

  function WaitStep(s: State, auth: set<Address>, admin: Address, id: EventId): Option<State>
  {
    if !OrganizerMay(s, auth, admin, id) || s.events[id].state != Created then None
    else Some(SetEvent(s, id, s.events[id].(state := WaitingForStart)))
  }

  /** The fee for going live, or None when the multiplication overflows. */
  function GoLiveFee(rate: u32, reward: money): (fee: Option<money>)
    ensures fee.Some? <==> reward * rate <= I128_MAX
  {
    if reward * rate > I128_MAX then None else Some(FeeOf(rate, reward))
  }

  function FeeOf(rate: u32, reward: money): money
    requires reward * rate <= I128_MAX
  {
    assert 0 <= reward * rate;
    reward * rate / 10000
  }

  function QuoteGoLiveFee(s: State, id: EventId): Option<money>
  {
    if id !in s.events then None else GoLiveFee(s.gov.FeeRate(), s.events[id].reward)
  }

  /** Charges the fee to the wallet and sends it to the treasury; a zero fee needs no treasury. */
  function ChargeStep(s: State, id: EventId, fee: money): Option<State>
    requires id in s.events
  {
    var e := s.events[id];
    if fee == 0 then Some(s)
    else if s.gov.treasury.None? then None
    else
      match Debit(s, e.admin, fee)
      case None => None
      case Some(s') =>
        match Transfer(s'.ledger, e.token, s.self, s.gov.treasury.value, fee)
        case None => None
        case Some(ledger) =>
          Some(Record(s'.(ledger := ledger), FeeCharged(id, e.admin, e.token, s.gov.treasury.value, fee)))
  }

  function StartStep(s: State, auth: set<Address>, admin: Address, id: EventId, judgingDeadline: nat): Option<State>
  {
    if !OrganizerMay(s, auth, admin, id) || !s.events[id].PreLaunch() || judgingDeadline <= s.clock then None else
      var e := s.events[id];
      match GoLiveFee(s.gov.FeeRate(), e.reward)
      case None => None
      case Some(fee) =>
        match ChargeStep(s, id, fee)
        case None => None
        case Some(s') =>
          var live := SetEvent(s', id, e.(state := InProgress, judgingDeadline := Some(judgingDeadline)));
          Some(Record(live, Started(id, admin, e.token, e.reward)))
  }

  function CancelStep(s: State, auth: set<Address>, admin: Address, id: EventId): Option<State>
  {
    if !OrganizerMay(s, auth, admin, id) || !s.events[id].PreLaunch() then None
    else RefundStep(s, id)
  }

  function EmergencyStep(s: State, auth: set<Address>, admin: Address, resolver: Address, id: EventId, amount: i128)
    : Option<State>
  {
    if || !OrganizerMay(s, auth, admin, id) || resolver !in auth || amount <= 0
       || s.events[id].resolver != resolver || !s.events[id].PreLaunch() || amount > s.events[id].reward
    then None else
      var e := s.events[id];
      match Credit(SetEvent(s, id, e.(reward := e.reward - amount)), admin, amount)
      case None => None
      case Some(s') => Some(Record(s', EmergencyWithdrawn(id, admin, amount)))
  }

  // ------------------------------------------------------------------
  // Rewards
  // ------------------------------------------------------------------

  /** At most 25 winners, all amounts positive, the sum exactly the locked reward. */
  predicate ValidWinners(payees: seq<Payee>, reward: int)
  {
    |payees| <= MAX_WINNERS && AllPositive(payees) && Total(payees) == reward
  }

  /** Pays out the whole reward of a live event. */
  function PayoutStep(s: State, id: EventId, payees: seq<Payee>): Option<State>
    requires id in s.events
  {
    var e := s.events[id];
    if !ValidWinners(payees, e.reward) then None else
      match TransferAll(s.ledger, e.token, s.self, payees)
      case None => None
      case Some(ledger) =>
        Some(Record(SetEvent(s, id, e.(state := Ended)).(ledger := ledger), PaidOut(id, e.token, payees)))
  }

  function ReleaseStep(s: State, auth: set<Address>, judge: Address, id: EventId, winners: seq<Winner>): Option<State>
  {
    if judge !in auth || id !in s.events then None else
      var e := s.events[id];
      if s.gov.IsPaused(e.admin) || e.judge != judge || e.state != InProgress then None
      else PayoutStep(s, id, WinnerPayees(winners))
  }

  function ResolveStep(s: State, auth: set<Address>, resolver: Address, id: EventId, winners: seq<Winner>)
    : Option<State>
  {
    if resolver !in auth || id !in s.events then None else
      var e := s.events[id];
      if || s.gov.IsPaused(e.admin) || e.resolver != resolver || e.state != InProgress
         || e.judgingDeadline.None? || s.clock < e.judgingDeadline.value
      then None
      else PayoutStep(s, id, WinnerPayees(winners))
  }

  function CompensateStep(s: State, auth: set<Address>, admin: Address, id: EventId, participants: seq<Participant>)
    : Option<State>
  {
    var payees := ParticipantPayees(participants);
    if || !OrganizerMay(s, auth, admin, id) || s.events[id].state != Cancelled
       || payees == [] || !AllPositive(payees)
    then None else
      TotalNonNegative(payees);
      match Debit(s, admin, Total(payees))
      case None => None
      case Some(s') =>
        var token := s.wallets[admin].token;
        match TransferAll(s'.ledger, token, s.self, payees)
        case None => None
        case Some(ledger) =>
          var paid := SetEvent(s', id, s.events[id].(state := Compensated)).(ledger := ledger);
          Some(Record(paid, CompensationPaid(id, admin, token, payees)))
  }

  // ------------------------------------------------------------------
  // Governance
  // ------------------------------------------------------------------

  function GovernStep(g: Governance, auth: set<Address>, change: Change): Option<Governance>
  {
    match change
    case InitializeEmergencyAdmin(a) =>
      if a in auth && g.emergencyAdmin.None? then Some(g.(emergencyAdmin := Some(a))) else None
    case InitializeDefaultResolver(caller, r) =>
      if caller in auth && g.IsEmergencyAdmin(caller) && g.defaultResolver.None?
      then Some(g.(defaultResolver := Some(r))) else None
    case InitializeTreasury(caller, t) =>
      if caller in auth && g.IsEmergencyAdmin(caller) && g.treasury.None?
      then Some(g.(treasury := Some(t))) else None
    case SetFeeBps(caller, bps) =>
      if caller in auth && g.IsEmergencyAdmin(caller) && bps <= MAX_FEE_BPS
      then Some(g.(feeBps := Some(bps))) else None
    case SetPaused(caller, p) =>
      if caller in auth && g.IsEmergencyAdmin(caller) then Some(g.(paused := p)) else None
    case SetAdminPaused(caller, target, p) =>
      if caller in auth && g.IsEmergencyAdmin(caller)
      then Some(g.(pausedAdmins := if p then g.pausedAdmins + {target} else g.pausedAdmins - {target})) else None
    case SetTokenWhitelistEnabled(caller, enabled) =>
      if caller in auth && g.IsEmergencyAdmin(caller) then Some(g.(whitelistEnabled := enabled)) else None
    case SetTokenAllowed(caller, token, allowed) =>
      if caller in auth && g.IsEmergencyAdmin(caller)
      then Some(g.(allowedTokens := if allowed then g.allowedTokens + {token} else g.allowedTokens - {token})) else None
  }

  // ------------------------------------------------------------------
  // Steps and runs
  // ------------------------------------------------------------------

  function Apply(s: State, auth: set<Address>, call: Call): Option<State>
  {
    match call
    case DepositFunds(admin, token, amount) => DepositStep(s, auth, admin, token, amount)
    case WithdrawFunds(admin, amount) => WithdrawStep(s, auth, admin, amount)
    case CreateEvent(admin, judge, resolver, token, reward, id, deadline) =>
      CreateStep(s, auth, admin, judge, resolver, token, reward, id, deadline)
    case ExpireEvent(id) => ExpireStep(s, id)
    case SetEventWaitingForStart(admin, id) => WaitStep(s, auth, admin, id)
    case SetEventInProgress(admin, id, judgingDeadline) => StartStep(s, auth, admin, id, judgingDeadline)
    case SetEventCancelled(admin, id) => CancelStep(s, auth, admin, id)
    case EmergencyWithdraw(admin, resolver, id, amount) => EmergencyStep(s, auth, admin, resolver, id, amount)
    case ReleaseCompensation(admin, id, participants) => CompensateStep(s, auth, admin, id, participants)
    case ReleaseReward(judge, id, winners) => ReleaseStep(s, auth, judge, id, winners)
    case ResolveDispute(resolver, id, winners) => ResolveStep(s, auth, resolver, id, winners)
    case Govern(change) =>
      match GovernStep(s.gov, auth, change)
      case None => None
      case Some(g) => Some(s.(gov := g))
  }

  /** A transfer between others, or a gift to the contract. */
  function OutsideStep(s: State, token: Address, from: Address, to: Address, amount: nat): Option<State>
  {
    if from == s.self then None else
      match Transfer(s.ledger, token, from, to, amount)
      case None => None
      case Some(ledger) =>
        var moved := s.(ledger := ledger);
        Some(if to == s.self then Record(moved, Gifted(token, amount)) else moved)
  }

  /** One step; None is a panic. Nobody signs for the contract, and it sends tokens only by its own code. */
  function Next(s: State, step: Step): Option<State>
  {
    match step
    case Invoke(call, auth) => if s.self in auth then None else Apply(s, auth, call)
    case Outside(token, from, to, amount) => OutsideStep(s, token, from, to, amount)
    case Tick(now) => if now < s.clock then None else Some(s.(clock := now))
  }

  /** A step that panics changes nothing. */
  function After(s: State, step: Step): State
  {
    match Next(s, step)
    case None => s
    case Some(s') => s'
  }

  function Run(s: State, steps: seq<Step>): State
  {
    if steps == [] then s else After(Run(s, steps[..|steps| - 1]), steps[|steps| - 1])
  }

  // ------------------------------------------------------------------
  // What no step changes
  // ------------------------------------------------------------------

  /** Wallets keep their token, events their parties and token; new ones are in the organizer's token. */
  ghost predicate Grows(s: State, s': State)
  {
    && s'.self == s.self
    && (s.self !in s.wallets ==> s.self !in s'.wallets)
    && (forall a :: a in s.wallets ==> a in s'.wallets && s'.wallets[a].token == s.wallets[a].token)
    && (forall id :: id in s.events ==> id in s'.events && SameTerms(s.events[id], s'.events[id]))
    && (forall id :: id in s'.events && id !in s.events ==> NewEvent(s', id))
  }

  predicate SameTerms(e: Event, e': Event)
  {
    e'.admin == e.admin && e'.judge == e.judge && e'.token == e.token && e'.resolver == e.resolver
      && e'.deadline == e.deadline
  }

  predicate NewEvent(s: State, id: EventId)
    requires id in s.events
  {
    var e := s.events[id];
    e.state == Created && e.admin in s.wallets && s.wallets[e.admin].token == e.token
  }

  /** Entry points other than the governance ones. */
  ghost predicate Keeps(s: State, s': State)
  {
    Grows(s, s') && s'.gov == s.gov && s'.clock == s.clock
  }

  /** ... and create_event: no event appears, and the index stays. */
  ghost predicate Quiet(s: State, s': State)
  {
    Keeps(s, s') && s'.events.Keys == s.events.Keys && s'.eventsCount == s.eventsCount && s'.eventIndex == s.eventIndex
  }

  lemma WalletStepsGrow(s: State, auth: set<Address>, admin: Address, token: Address, amount: i128)
    requires s.self !in auth
    ensures var r := DepositStep(s, auth, admin, token, amount); r.Some? ==> Quiet(s, r.value)
    ensures var r := WithdrawStep(s, auth, admin, amount); r.Some? ==> Quiet(s, r.value)
  {
    hide Transfer;
  }

  lemma CreateGrows(s: State, auth: set<Address>, admin: Address, judge: Address, namedResolver: Option<Address>,
                    token: Address, reward: i128, id: EventId, deadline: Option<nat>)
    ensures var r := CreateStep(s, auth, admin, judge, namedResolver, token, reward, id, deadline);
      r.Some? ==> Keeps(s, r.value)
  {}

  lemma RefundGrows(s: State, id: EventId)
    requires id in s.events
    ensures var r := RefundStep(s, id); r.Some? ==> Quiet(s, r.value)
  {}

  lemma ChargeGrows(s: State, id: EventId, fee: money)
    requires id in s.events
    ensures var r := ChargeStep(s, id, fee); r.Some? ==> Quiet(s, r.value) && r.value.events == s.events
  {
    hide Transfer;
  }

  lemma EmergencyGrows(s: State, auth: set<Address>, admin: Address, resolver: Address, id: EventId, amount: i128)
    ensures var r := EmergencyStep(s, auth, admin, resolver, id, amount); r.Some? ==> Quiet(s, r.value)
  {}

  lemma StartGrows(s: State, auth: set<Address>, admin: Address, id: EventId, judgingDeadline: nat)
    ensures var r := StartStep(s, auth, admin, id, judgingDeadline); r.Some? ==> Quiet(s, r.value)
  {
    hide ChargeStep, GoLiveFee;
    if OrganizerMay(s, auth, admin, id) {
      var fee := GoLiveFee(s.gov.FeeRate(), s.events[id].reward);
      if fee.Some? {
        ChargeGrows(s, id, fee.value);
      }
    }
  }

  lemma PayoutGrows(s: State, id: EventId, payees: seq<Payee>)
    requires id in s.events
    ensures var r := PayoutStep(s, id, payees); r.Some? ==> Quiet(s, r.value)
  {
    hide TransferAll, ValidWinners;
  }

  lemma CompensateGrows(s: State, auth: set<Address>, admin: Address, id: EventId, participants: seq<Participant>)
    ensures var r := CompensateStep(s, auth, admin, id, participants); r.Some? ==> Quiet(s, r.value)
  {
    hide TransferAll, AllPositive;
  }

  lemma ApplyGrows(s: State, auth: set<Address>, call: Call)
    requires s.self !in auth
    ensures var r := Apply(s, auth, call); r.Some? ==> Grows(s, r.value) && (!call.Govern? ==> Keeps(s, r.value))
    ensures var r := Apply(s, auth, call); r.Some? && !call.Govern? && !call.CreateEvent? ==> Quiet(s, r.value)
  {
    hide DepositStep, WithdrawStep, CreateStep, RefundStep, StartStep, EmergencyStep, PayoutStep, CompensateStep,
         GovernStep;
    match call
    case DepositFunds(admin, token, amount) => WalletStepsGrow(s, auth, admin, token, amount);
    case WithdrawFunds(admin, amount) => WalletStepsGrow(s, auth, admin, admin, amount);
    case CreateEvent(admin, judge, resolver, token, reward, id, deadline) =>
      CreateGrows(s, auth, admin, judge, resolver, token, reward, id, deadline);
    case ExpireEvent(id) => if id in s.events { RefundGrows(s, id); }
    case SetEventWaitingForStart(admin, id) => {}
    case SetEventInProgress(admin, id, judgingDeadline) => StartGrows(s, auth, admin, id, judgingDeadline);
    case SetEventCancelled(admin, id) => if id in s.events { RefundGrows(s, id); }
    case EmergencyWithdraw(admin, resolver, id, amount) => EmergencyGrows(s, auth, admin, resolver, id, amount);
    case ReleaseCompensation(admin, id, participants) => CompensateGrows(s, auth, admin, id, participants);
    case ReleaseReward(judge, id, winners) => if id in s.events { PayoutGrows(s, id, WinnerPayees(winners)); }
    case ResolveDispute(resolver, id, winners) => if id in s.events { PayoutGrows(s, id, WinnerPayees(winners)); }
    case Govern(change) => {}
  }

  lemma OutsideGrows(s: State, token: Address, from: Address, to: Address, amount: nat)
    ensures var r := OutsideStep(s, token, from, to, amount); r.Some? ==> Quiet(s, r.value)
  {
    hide Transfer;
  }

  /** No step, successful or not, changes these. */
  lemma AfterGrows(s: State, step: Step)
    ensures Grows(s, After(s, step))
  {
    hide Apply, OutsideStep;
    match step
    case Invoke(call, auth) => if s.self !in auth { ApplyGrows(s, auth, call); }
    case Outside(token, from, to, amount) => OutsideGrows(s, token, from, to, amount);
    case Tick(_) => {}
  }
}
