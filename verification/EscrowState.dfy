/**
 The storage of the shared escrow contract, the token ledgers it moves, and a history
 of what happened to the money.
 */
module EscrowState {
  import opened Wrappers

  datatype Address = Address(key: nat)
  datatype EventId = EventId(bytes: nat)

  const I128_MAX: int := 0x7fff_ffff_ffff_ffff_ffff_ffff_ffff_ffff
  const U32_MAX: nat := 0xffff_ffff

  /** An argument of an entry point. */
  type i128 = x: int | -I128_MAX - 1 <= x <= I128_MAX

  /** A stored amount: the guards keep negative ones out of storage. */
  type money = x: int | 0 <= x <= I128_MAX

  type u32 = x: int | 0 <= x <= U32_MAX

  const MAX_WINNERS: nat := 25
  const MAX_FEE_BPS: u32 := 500
  const DEFAULT_FEE_BPS: u32 := 50

  datatype EventState = Created | WaitingForStart | InProgress | Ended | Compensated | Cancelled

  datatype AdminWallet = AdminWallet(token: Address, balance: money)

  datatype Event = Event(
    admin: Address,
    judge: Address,
    token: Address,
    resolver: Address,
    reward: money,
    state: EventState,
    deadline: Option<nat>,
    judgingDeadline: Option<nat>)
  {
    predicate PreLaunch() { state == Created || state == WaitingForStart }

    predicate Live() { PreLaunch() || state == InProgress }

    /** What the contract still holds for the event. */
    function Reserve(): money { if Live() then reward else 0 }
  }

  datatype Winner = Winner(place: u32, amount: i128, address: Address)
  datatype Participant = Participant(address: Address, amount: i128)

  /** One transfer out of the contract. */
  datatype Payee = Payee(address: Address, amount: i128)

  // ------------------------------------------------------------------
  // Token ledgers
  // ------------------------------------------------------------------

  datatype Account = Account(token: Address, holder: Address)

  type Ledger = map<Account, nat>

  function BalanceOf(l: Ledger, token: Address, holder: Address): nat
  {
    if Account(token, holder) in l then l[Account(token, holder)] else 0
  }

  /** Succeeds iff the payer has the balance. */
  function Transfer(l: Ledger, token: Address, from: Address, to: Address, amount: int): Option<Ledger>
  {
    if amount < 0 || BalanceOf(l, token, from) < amount then None
    else if from == to then Some(l)
    else
      Some(l[Account(token, from) := BalanceOf(l, token, from) - amount]
            [Account(token, to) := BalanceOf(l, token, to) + amount])
  }

  /** All transfers in list order, or none. */
  function TransferAll(l: Ledger, token: Address, from: Address, payees: seq<Payee>): Option<Ledger>
  {
    if payees == [] then Some(l)
    else
      var n := |payees| - 1;
      match TransferAll(l, token, from, payees[..n])
      case None => None
      case Some(l') => Transfer(l', token, from, payees[n].address, payees[n].amount)
  }

  function Total(payees: seq<Payee>): int
  {
    if payees == [] then 0 else Total(payees[..|payees| - 1]) + payees[|payees| - 1].amount
  }

  /** The part of a list that is paid to one address. */
  function TotalTo(payees: seq<Payee>, who: Address): int
  {
    if payees == [] then 0
    else
      var p := payees[|payees| - 1];
      TotalTo(payees[..|payees| - 1], who) + if p.address == who then p.amount else 0
  }

  predicate AllPositive(payees: seq<Payee>)
  {
    forall i :: 0 <= i < |payees| ==> payees[i].amount > 0
  }

  lemma {:induction false} TotalNonNegative(payees: seq<Payee>)
    requires AllPositive(payees)
    ensures Total(payees) >= 0
  {
    if payees != [] {
      TotalNonNegative(payees[..|payees| - 1]);
    }
  }

  function WinnerPayees(winners: seq<Winner>): (p: seq<Payee>)
    ensures |p| == |winners|
  {
    seq(|winners|, i requires 0 <= i < |winners| => Payee(winners[i].address, winners[i].amount))
  }

  function ParticipantPayees(participants: seq<Participant>): (p: seq<Payee>)
    ensures |p| == |participants|
  {
    seq(|participants|, i requires 0 <= i < |participants| => Payee(participants[i].address, participants[i].amount))
  }

  // ------------------------------------------------------------------
  // State
  // ------------------------------------------------------------------

  datatype Governance = Governance(
    emergencyAdmin: Option<Address>,
    defaultResolver: Option<Address>,
    treasury: Option<Address>,
    feeBps: Option<u32>,
    paused: bool,
    pausedAdmins: set<Address>,
    whitelistEnabled: bool,
    allowedTokens: set<Address>)
  {
    function FeeRate(): u32 { if feeBps.Some? then feeBps.value else DEFAULT_FEE_BPS }

    predicate IsPaused(admin: Address) { paused || admin in pausedAdmins }

    predicate TokenAllowed(token: Address) { !whitelistEnabled || token in allowedTokens }

    predicate IsEmergencyAdmin(caller: Address) { emergencyAdmin == Some(caller) }
  }

  /** What a successful step did to the money, in the order in which it happened. */
  datatype Entry =
    | Deposited(admin: Address, token: Address, amount: money)
    | Withdrawn(admin: Address, token: Address, amount: money)
    | Reserved(id: EventId, admin: Address, reward: money)
    | EmergencyWithdrawn(id: EventId, admin: Address, amount: money)
    | Refunded(id: EventId, admin: Address, amount: money)
    | Started(id: EventId, admin: Address, token: Address, reward: money)
    | FeeCharged(id: EventId, admin: Address, token: Address, treasury: Address, fee: money)
    | PaidOut(id: EventId, token: Address, payees: seq<Payee>)
    | CompensationPaid(id: EventId, admin: Address, token: Address, payees: seq<Payee>)
    | Gifted(token: Address, units: nat)

  datatype IndexKey = IndexKey(admin: Address, i: nat)

  datatype State = State(
    self: Address,
    gov: Governance,
    clock: nat,
    wallets: map<Address, AdminWallet>,
    events: map<EventId, Event>,
    eventsCount: map<Address, u32>,
    eventIndex: map<IndexKey, EventId>,
    ledger: Ledger,
    history: seq<Entry>)
  {
    function Count(admin: Address): u32
    {
      if admin in eventsCount then eventsCount[admin] else 0
    }

    /** The contract's own balance of a token. */
    function Holding(token: Address): nat
    {
      BalanceOf(ledger, token, self)
    }

    function Balance(admin: Address): money
    {
      if admin in wallets then wallets[admin].balance else 0
    }

    function Reserve(id: EventId): money
    {
      if id in events then events[id].Reserve() else 0
    }
  }

  /** A contract just deployed: nothing stored, nothing held. */
  ghost predicate Initial(s: State)
  {
    && s.gov == Governance(None, None, None, None, false, {}, false, {})
    && s.wallets == map[] && s.events == map[] && s.eventsCount == map[] && s.eventIndex == map[]
    && s.history == []
    && forall t :: s.Holding(t) == 0
  }
}
