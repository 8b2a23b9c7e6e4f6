/**
 Tokens are only moved: a run changes no token's supply. So where a supply is a 128-bit
 amount, as every supply is, no refund ever overflows and the exits before the start are
 open in every reachable state.
 */
module EscrowSupply {
  import opened Wrappers
  import opened MapSums
  import opened EscrowState
  import opened EscrowSteps
  import opened EscrowLiveness

  ghost function Units(): nat -> int
  {
    (n: nat) => n as int
  }

  ghost function AccountsIn(l: Ledger, t: Address): Ledger
  {
    map a | a in l && a.token == t :: l[a]
  }

  /** All there is of a token. */
  ghost function Supply(l: Ledger, t: Address): int
  {
    SumOf(AccountsIn(l, t), Units())
  }

  lemma SetBalance(l: Ledger, a: Account, n: nat, t: Address)
    ensures Supply(l[a := n], t) == Supply(l, t) + if a.token == t then n - BalanceOf(l, a.token, a.holder) else 0
  {
    if a.token == t {
      assert AccountsIn(l[a := n], t) == AccountsIn(l, t)[a := n];
      SumUpdate(AccountsIn(l, t), Units(), a, n);
    } else {
      assert AccountsIn(l[a := n], t) == AccountsIn(l, t);
    }
  }

  lemma TransferKeepsSupply(l: Ledger, token: Address, from: Address, to: Address, amount: int, t: Address)
    ensures var r := Transfer(l, token, from, to, amount); r.Some? ==> Supply(r.value, t) == Supply(l, t)
  {
    hide Supply;
    if amount >= 0 && BalanceOf(l, token, from) >= amount && from != to {
      var less := l[Account(token, from) := BalanceOf(l, token, from) - amount];
      SetBalance(l, Account(token, from), BalanceOf(l, token, from) - amount, t);
      SetBalance(less, Account(token, to), BalanceOf(l, token, to) + amount, t);
    }
  }

  lemma {:induction false} TransferAllKeepsSupply(l: Ledger, token: Address, from: Address, payees: seq<Payee>,
                                                  t: Address)
    ensures var r := TransferAll(l, token, from, payees); r.Some? ==> Supply(r.value, t) == Supply(l, t)
  {
    hide Supply, Transfer;
    if payees != [] {
      var n := |payees| - 1;
      TransferAllKeepsSupply(l, token, from, payees[..n], t);
      var mid := TransferAll(l, token, from, payees[..n]);
      if mid.Some? {
        TransferKeepsSupply(mid.value, token, from, payees[n].address, payees[n].amount, t);
      }
    }
  }

  lemma WalletStepsKeepSupply(s: State, auth: set<Address>, admin: Address, token: Address, amount: i128, t: Address)
    ensures var r := DepositStep(s, auth, admin, token, amount);
      r.Some? ==> Supply(r.value.ledger, t) == Supply(s.ledger, t)
    ensures var r := WithdrawStep(s, auth, admin, amount);
      r.Some? ==> Supply(r.value.ledger, t) == Supply(s.ledger, t)
  {
    hide Supply, Transfer;
    TransferKeepsSupply(s.ledger, token, admin, s.self, amount, t);
    if admin in s.wallets {
      TransferKeepsSupply(s.ledger, s.wallets[admin].token, s.self, admin, amount, t);
    }
  }

  lemma ChargeKeepsSupply(s: State, id: EventId, fee: money, t: Address)
    requires id in s.events
    ensures var r := ChargeStep(s, id, fee); r.Some? ==> Supply(r.value.ledger, t) == Supply(s.ledger, t)
  {
    hide Supply, Transfer;
    if s.gov.treasury.Some? {
      TransferKeepsSupply(s.ledger, s.events[id].token, s.self, s.gov.treasury.value, fee, t);
    }
  }

  lemma StartKeepsSupply(s: State, auth: set<Address>, admin: Address, id: EventId, judgingDeadline: nat, t: Address)
    ensures var r := StartStep(s, auth, admin, id, judgingDeadline);
      r.Some? ==> Supply(r.value.ledger, t) == Supply(s.ledger, t)
  {
    hide Supply, ChargeStep, GoLiveFee;
    if OrganizerMay(s, auth, admin, id) {
      var fee := GoLiveFee(s.gov.FeeRate(), s.events[id].reward);
      if fee.Some? { ChargeKeepsSupply(s, id, fee.value, t); }
    }
  }

  lemma PayoutKeepsSupply(s: State, id: EventId, payees: seq<Payee>, t: Address)
    requires id in s.events
    ensures var r := PayoutStep(s, id, payees); r.Some? ==> Supply(r.value.ledger, t) == Supply(s.ledger, t)
  {
    hide Supply, TransferAll, ValidWinners;
    TransferAllKeepsSupply(s.ledger, s.events[id].token, s.self, payees, t);
  }

  lemma CompensateKeepsSupply(s: State, auth: set<Address>, admin: Address, id: EventId, participants: seq<Participant>,
                              t: Address)
    ensures var r := CompensateStep(s, auth, admin, id, participants);
      r.Some? ==> Supply(r.value.ledger, t) == Supply(s.ledger, t)
  {
    hide Supply, TransferAll, AllPositive;
    if admin in s.wallets {
      TransferAllKeepsSupply(s.ledger, s.wallets[admin].token, s.self, ParticipantPayees(participants), t);
    }
  }

  /** These touch no ledger. */
  lemma BookStepsKeepLedger(s: State, auth: set<Address>, call: Call)
    requires call.CreateEvent? || call.ExpireEvent? || call.SetEventWaitingForStart? || call.SetEventCancelled?
             || call.EmergencyWithdraw? || call.Govern?
    ensures var r := Apply(s, auth, call); r.Some? ==> r.value.ledger == s.ledger
  {
    hide GovernStep;
  }

  lemma ApplyKeepsSupply(s: State, auth: set<Address>, call: Call, t: Address)
    ensures var r := Apply(s, auth, call); r.Some? ==> Supply(r.value.ledger, t) == Supply(s.ledger, t)
  {
    hide Supply, DepositStep, WithdrawStep, StartStep, PayoutStep, CompensateStep, CreateStep, RefundStep,
         EmergencyStep, WaitStep, GovernStep;
    match call
    case DepositFunds(admin, token, amount) => WalletStepsKeepSupply(s, auth, admin, token, amount, t);
    case WithdrawFunds(admin, amount) => WalletStepsKeepSupply(s, auth, admin, admin, amount, t);
    case SetEventInProgress(admin, id, judgingDeadline) => StartKeepsSupply(s, auth, admin, id, judgingDeadline, t);
    case ReleaseCompensation(admin, id, participants) => CompensateKeepsSupply(s, auth, admin, id, participants, t);
    case ReleaseReward(judge, id, winners) => if id in s.events { PayoutKeepsSupply(s, id, WinnerPayees(winners), t); }
    case ResolveDispute(resolver, id, winners) =>
      if id in s.events { PayoutKeepsSupply(s, id, WinnerPayees(winners), t); }
    case _ => BookStepsKeepLedger(s, auth, call);
  }

  /** No step changes a supply. */
  lemma AfterKeepsSupply(s: State, step: Step, t: Address)
    ensures Supply(After(s, step).ledger, t) == Supply(s.ledger, t)
  {
    hide Supply, Apply, Transfer;
    match step
    case Invoke(call, auth) => ApplyKeepsSupply(s, auth, call, t);
    case Outside(token, from, to, amount) => TransferKeepsSupply(s.ledger, token, from, to, amount, t);
    case Tick(_) => {}
  }

  lemma {:induction false} RunKeepsSupply(s: State, steps: seq<Step>, t: Address)
    ensures Supply(Run(s, steps).ledger, t) == Supply(s.ledger, t)
  {
    hide Supply, After;
    if steps != [] {
      RunKeepsSupply(s, steps[..|steps| - 1], t);
      AfterKeepsSupply(Run(s, steps[..|steps| - 1]), steps[|steps| - 1], t);
    }
  }

  lemma HeldWithinSupply(l: Ledger, t: Address, who: Address)
    ensures BalanceOf(l, t, who) <= Supply(l, t)
  {
    var a := Account(t, who);
    UnitsNonNegative();
    SumNonNegative(AccountsIn(l, t), Units());
    if a in l {
      SumAtLeast(AccountsIn(l, t), Units(), a);
    }
  }

  lemma UnitsNonNegative()
    ensures forall n: nat :: Units()(n) >= 0
  {}

  // ------------------------------------------------------------------
  // Main results
  // ------------------------------------------------------------------

  /** After any run: once its deadline has passed, anyone can expire an event that has not started, paused or not. */
  lemma ExpiryOpen(s: State, steps: seq<Step>, auth: set<Address>, id: EventId)
    requires Initial(s) && forall t :: Supply(s.ledger, t) <= I128_MAX
    requires s.self !in auth && id in Run(s, steps).events && Run(s, steps).events[id].PreLaunch()
    requires var e := Run(s, steps).events[id]; e.deadline.Some? && Run(s, steps).clock >= e.deadline.value
    ensures Next(Run(s, steps), Invoke(ExpireEvent(id), auth)).Some?
  {
    hide Supply, Run, Next, Sound, Initial;
    var r := Run(s, steps);
    InitialSound(s);
    RunSound(s, steps);
    RunKeepsSupply(s, steps, r.events[id].token);
    HeldWithinSupply(r.ledger, r.events[id].token, r.self);
    ExpirySucceeds(r, auth, id);
  }

  /** After any run: before the start the organizer can cancel and get the whole reserve back, unless paused. */
  lemma CancellationOpen(s: State, steps: seq<Step>, auth: set<Address>, id: EventId)
    requires Initial(s) && forall t :: Supply(s.ledger, t) <= I128_MAX
    requires s.self !in auth && id in Run(s, steps).events && Run(s, steps).events[id].PreLaunch()
    requires var e := Run(s, steps).events[id]; e.admin in auth && !Run(s, steps).gov.IsPaused(e.admin)
    ensures var e := Run(s, steps).events[id];
      var r := Next(Run(s, steps), Invoke(SetEventCancelled(e.admin, id), auth));
      r.Some? && r.value.Balance(e.admin) == Run(s, steps).Balance(e.admin) + e.reward
  {
    hide Supply, Run, Next, Sound, Initial;
    var r := Run(s, steps);
    InitialSound(s);
    RunSound(s, steps);
    RunKeepsSupply(s, steps, r.events[id].token);
    HeldWithinSupply(r.ledger, r.events[id].token, r.self);
    CancellationSucceeds(r, auth, id);
  }
}
