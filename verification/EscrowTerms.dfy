/**
 What a successful create_event binds: along every later run the event keeps its terms, and
 each of its exits stays in the hands of the parties that the call named.
 */
module EscrowTerms {
  import opened Wrappers
  import opened EscrowState
  import opened EscrowSteps
  import opened EscrowEffects

  /** The event is there, with the same parties, token and deadline. */
  predicate Bound(s: State, id: EventId, e: Event)
  {
    && id in s.events
    && s.events[id].admin == e.admin && s.events[id].judge == e.judge && s.events[id].resolver == e.resolver
    && s.events[id].token == e.token && s.events[id].deadline == e.deadline
  }

  /** No step changes the terms of an event. */
  lemma {:induction false} TermsStay(s: State, steps: seq<Step>, id: EventId)
    requires id in s.events
    ensures Run(s, steps).self == s.self && Bound(Run(s, steps), id, s.events[id])
  {
    hide After;
    if steps != [] {
      TermsStay(s, steps[..|steps| - 1], id);
      AfterGrows(Run(s, steps[..|steps| - 1]), steps[|steps| - 1]);
    }
  }

  /** What a call that succeeds on the event shows about its signers. */
  predicate InHandsOf(call: Call, auth: set<Address>, clock: nat, id: EventId, admin: Address, judge: Address,
                      resolver: Address, deadline: Option<nat>, judgingDeadline: Option<nat>)
  {
    match call
    case ReleaseReward(caller, i, _) => i == id ==> caller == judge && judge in auth
    case ResolveDispute(caller, i, _) =>
      i == id ==> caller == resolver && resolver in auth && judgingDeadline.Some? && clock >= judgingDeadline.value
    case EmergencyWithdraw(caller, second, i, _) =>
      i == id ==> caller == admin && second == resolver && admin in auth && resolver in auth
    case ExpireEvent(i) => i == id ==> deadline.Some? && clock >= deadline.value
    case SetEventWaitingForStart(caller, i) => i == id ==> caller == admin && admin in auth
    case SetEventInProgress(caller, i, _) => i == id ==> caller == admin && admin in auth
    case SetEventCancelled(caller, i) => i == id ==> caller == admin && admin in auth
    case ReleaseCompensation(caller, i, _) => i == id ==> caller == admin && admin in auth
    case CreateEvent(_, _, _, _, _, i, _) => i != id
    case DepositFunds(caller, _, _) => caller in auth
    case WithdrawFunds(caller, _) => caller in auth
    case Govern(_) => true
  }

  lemma CallShows(s: State, auth: set<Address>, call: Call, id: EventId)
    requires id in s.events && Apply(s, auth, call).Some?
    ensures var e := s.events[id];
      InHandsOf(call, auth, s.clock, id, e.admin, e.judge, e.resolver, e.deadline, e.judgingDeadline)
  {
    hide RefundStep, PayoutStep, ChargeStep, TransferAll, Transfer, GovernStep, GoLiveFee;
  }

  /**
   After a successful create_event and any run from there: a release of the event succeeds
   only with the signature of the judge named in the call, a settlement only with that of
   the named resolver, or of the governance default at the time if none was named, and
   so on for the other exits.
   */
  lemma CreationBinds(s: State, auth: set<Address>, admin: Address, judge: Address, namedResolver: Option<Address>,
                      token: Address, reward: i128, id: EventId, deadline: Option<nat>, steps: seq<Step>,
                      later: Call, laterAuth: set<Address>)
    requires Next(s, Invoke(CreateEvent(admin, judge, namedResolver, token, reward, id, deadline), auth)).Some?
    ensures var created := Next(s, Invoke(CreateEvent(admin, judge, namedResolver, token, reward, id, deadline), auth));
      var r := Run(created.value, steps);
      && (namedResolver.Some? || s.gov.defaultResolver.Some?)
      && id in r.events && r.events[id].token == token
      && var resolver := if namedResolver.Some? then namedResolver.value else s.gov.defaultResolver.value;
         Next(r, Invoke(later, laterAuth)).Some? ==>
           InHandsOf(later, laterAuth, r.clock, id, admin, judge, resolver, deadline, r.events[id].judgingDeadline)
  {
    hide Run, Apply, InHandsOf;
    var created := Next(s, Invoke(CreateEvent(admin, judge, namedResolver, token, reward, id, deadline), auth)).value;
    CreateEffect(s, auth, admin, judge, namedResolver, token, reward, id, deadline);
    TermsStay(created, steps, id);
    var r := Run(created, steps);
    if Next(r, Invoke(later, laterAuth)).Some? {
      CallShows(r, laterAuth, later, id);
    }
  }

  /** The call names the event. */
  predicate Names(call: Call, id: EventId)
  {
    match call
    case CreateEvent(_, _, _, _, _, i, _) => i == id
    case ReleaseReward(_, i, _) => i == id
    case ResolveDispute(_, i, _) => i == id
    case EmergencyWithdraw(_, _, i, _) => i == id
    case ExpireEvent(i) => i == id
    case SetEventWaitingForStart(_, i) => i == id
    case SetEventInProgress(_, i, _) => i == id
    case SetEventCancelled(_, i) => i == id
    case ReleaseCompensation(_, i, _) => i == id
    case _ => false
  }

  /** Only a call that names an event creates it or changes anything of it. */
  lemma OthersLeaveEvent(s: State, step: Step, id: EventId)
    requires step.Invoke? ==> !Names(step.call, id)
    ensures id in After(s, step).events <==> id in s.events
    ensures id in s.events ==> After(s, step).events[id] == s.events[id]
  {
    hide Apply, Names, Transfer;
    if step.Invoke? {
      CallLeaves(s, step.auth, step.call, id);
    }
  }

  predicate SameEvent(s: State, s': State, id: EventId)
  {
    (id in s'.events <==> id in s.events) && (id in s.events ==> s'.events[id] == s.events[id])
  }

  lemma CallLeaves(s: State, auth: set<Address>, call: Call, id: EventId)
    requires !Names(call, id)
    ensures var r := Apply(s, auth, call); r.Some? ==> SameEvent(s, r.value, id)
  {
    hide DepositStep, WithdrawStep, CreateStep, RefundStep, StartStep, EmergencyStep, PayoutStep, CompensateStep,
         GovernStep, SameEvent;
    match call
    case DepositFunds(admin, token, amount) => WalletStepsLeave(s, auth, admin, token, amount, id);
    case WithdrawFunds(admin, amount) => WalletStepsLeave(s, auth, admin, admin, amount, id);
    case CreateEvent(admin, judge, resolver, token, reward, i, deadline) =>
      CreateLeaves(s, auth, admin, judge, resolver, token, reward, i, deadline, id);
    case ExpireEvent(i) => if i in s.events { RefundLeaves(s, i, id); }
    case SetEventWaitingForStart(admin, i) => WaitLeaves(s, auth, admin, i, id);
    case SetEventInProgress(admin, i, judgingDeadline) => StartLeaves(s, auth, admin, i, judgingDeadline, id);
    case SetEventCancelled(admin, i) => if i in s.events { RefundLeaves(s, i, id); }
    case EmergencyWithdraw(admin, resolver, i, amount) => EmergencyLeaves(s, auth, admin, resolver, i, amount, id);
    case ReleaseCompensation(admin, i, participants) => CompensateLeaves(s, auth, admin, i, participants, id);
    case ReleaseReward(judge, i, winners) => if i in s.events { PayoutLeaves(s, i, WinnerPayees(winners), id); }
    case ResolveDispute(resolver, i, winners) => if i in s.events { PayoutLeaves(s, i, WinnerPayees(winners), id); }
    case Govern(change) => GovernLeaves(s, auth, change, id);
  }

  lemma WalletStepsLeave(s: State, auth: set<Address>, admin: Address, token: Address, amount: i128, id: EventId)
    ensures var r := DepositStep(s, auth, admin, token, amount); r.Some? ==> SameEvent(s, r.value, id)
    ensures var r := WithdrawStep(s, auth, admin, amount); r.Some? ==> SameEvent(s, r.value, id)
  {
    hide Transfer;
  }

  lemma CreateLeaves(s: State, auth: set<Address>, admin: Address, judge: Address, namedResolver: Option<Address>,
                     token: Address, reward: i128, i: EventId, deadline: Option<nat>, id: EventId)
    requires i != id
    ensures var r := CreateStep(s, auth, admin, judge, namedResolver, token, reward, i, deadline);
      r.Some? ==> SameEvent(s, r.value, id)
  {}

  lemma RefundLeaves(s: State, i: EventId, id: EventId)
    requires i in s.events && i != id
    ensures var r := RefundStep(s, i); r.Some? ==> SameEvent(s, r.value, id)
  {}

  lemma WaitLeaves(s: State, auth: set<Address>, admin: Address, i: EventId, id: EventId)
    requires i != id
    ensures var r := WaitStep(s, auth, admin, i); r.Some? ==> SameEvent(s, r.value, id)
  {}

  lemma StartLeaves(s: State, auth: set<Address>, admin: Address, i: EventId, judgingDeadline: nat, id: EventId)
    requires i != id
    ensures var r := StartStep(s, auth, admin, i, judgingDeadline); r.Some? ==> SameEvent(s, r.value, id)
  {
    hide ChargeStep, GoLiveFee;
    if OrganizerMay(s, auth, admin, i) {
      var fee := GoLiveFee(s.gov.FeeRate(), s.events[i].reward);
      if fee.Some? {
        ChargeGrows(s, i, fee.value);
      }
    }
  }

  lemma EmergencyLeaves(s: State, auth: set<Address>, admin: Address, resolver: Address, i: EventId, amount: i128,
                        id: EventId)
    requires i != id
    ensures var r := EmergencyStep(s, auth, admin, resolver, i, amount); r.Some? ==> SameEvent(s, r.value, id)
  {}

  lemma PayoutLeaves(s: State, i: EventId, payees: seq<Payee>, id: EventId)
    requires i in s.events && i != id
    ensures var r := PayoutStep(s, i, payees); r.Some? ==> SameEvent(s, r.value, id)
  {
    hide TransferAll, ValidWinners;
  }

  lemma CompensateLeaves(s: State, auth: set<Address>, admin: Address, i: EventId, participants: seq<Participant>,
                         id: EventId)
    requires i != id
    ensures var r := CompensateStep(s, auth, admin, i, participants); r.Some? ==> SameEvent(s, r.value, id)
  {
    hide TransferAll, AllPositive;
  }

  lemma GovernLeaves(s: State, auth: set<Address>, change: Change, id: EventId)
    ensures var r := Apply(s, auth, Govern(change)); r.Some? ==> SameEvent(s, r.value, id)
  {
    hide GovernStep;
  }

  // ------------------------------------------------------------------
  // Governance
  // ------------------------------------------------------------------

  /** Governance changes only by the emergency admin's signature, once there is one. */
  lemma GovernanceSigned(s: State, step: Step)
    requires After(s, step).gov != s.gov
    ensures step.Invoke? && step.call.Govern?
    ensures match s.gov.emergencyAdmin
      case None =>
        && step.call.change.InitializeEmergencyAdmin?
        && step.call.change.emergencyAdmin in step.auth
        && After(s, step).gov == s.gov.(emergencyAdmin := Some(step.call.change.emergencyAdmin))
      case Some(a) => a in step.auth
  {
    hide Apply, OutsideStep;
    GovernanceOnly(s, step);
  }

  lemma GovernanceOnly(s: State, step: Step)
    ensures After(s, step).gov != s.gov ==>
              && step.Invoke? && step.call.Govern?
              && GovernStep(s.gov, step.auth, step.call.change) == Some(After(s, step).gov)
  {
    hide GovernStep, OutsideStep;
    match step
    case Invoke(call, auth) =>
      if s.self !in auth {
        ApplyGrows(s, auth, call);
        if call.Govern? {
          GovernIs(s, auth, call.change);
        }
      }
    case Outside(token, from, to, amount) => OutsideGrows(s, token, from, to, amount);
    case Tick(_) => {}
  }

  lemma GovernIs(s: State, auth: set<Address>, change: Change)
    ensures var r := Apply(s, auth, Govern(change));
      r.Some? ==> Some(r.value.gov) == GovernStep(s.gov, auth, change)
  {
    hide GovernStep;
  }

  /** A value that is there stays. */
  predicate Fixed(a: Option<Address>, b: Option<Address>)
  {
    a.Some? ==> b == a
  }

  /** The three addresses that are set once never change again, whatever happens. */
  lemma {:induction false} SetOnce(s: State, steps: seq<Step>)
    ensures var g, g' := s.gov, Run(s, steps).gov;
      && Fixed(g.emergencyAdmin, g'.emergencyAdmin)
      && Fixed(g.defaultResolver, g'.defaultResolver)
      && Fixed(g.treasury, g'.treasury)
  {
    hide After;
    if steps != [] {
      var mid := Run(s, steps[..|steps| - 1]);
      SetOnce(s, steps[..|steps| - 1]);
      GovernanceOnly(mid, steps[|steps| - 1]);
    }
  }

  /** What a successful governance call leaves, field by field. */
  lemma GovernEffect(s: State, auth: set<Address>, change: Change)
    ensures var r := Next(s, Invoke(Govern(change), auth));
      && (r.Some? <==>
            && s.self !in auth
            && match change
               case InitializeEmergencyAdmin(a) => a in auth && s.gov.emergencyAdmin == None
               case InitializeDefaultResolver(c, _) =>
                 c in auth && Some(c) == s.gov.emergencyAdmin && s.gov.defaultResolver == None
               case InitializeTreasury(c, _) => c in auth && Some(c) == s.gov.emergencyAdmin && s.gov.treasury == None
               case SetFeeBps(c, bps) => c in auth && Some(c) == s.gov.emergencyAdmin && bps <= 500
               case SetPaused(c, _) => c in auth && Some(c) == s.gov.emergencyAdmin
               case SetAdminPaused(c, _, _) => c in auth && Some(c) == s.gov.emergencyAdmin
               case SetTokenWhitelistEnabled(c, _) => c in auth && Some(c) == s.gov.emergencyAdmin
               case SetTokenAllowed(c, _, _) => c in auth && Some(c) == s.gov.emergencyAdmin)
      && (r.Some? ==> r.value == s.(gov := r.value.gov) && Governed(s.gov, change, r.value.gov))
  {}

  ghost predicate Governed(g: Governance, change: Change, g': Governance)
  {
    match change
    case InitializeEmergencyAdmin(a) => g' == g.(emergencyAdmin := Some(a))
    case InitializeDefaultResolver(_, a) => g' == g.(defaultResolver := Some(a))
    case InitializeTreasury(_, a) => g' == g.(treasury := Some(a))
    case SetFeeBps(_, bps) => g' == g.(feeBps := Some(bps))
    case SetPaused(_, p) => g' == g.(paused := p)
    case SetAdminPaused(_, a, p) =>
      g' == g.(pausedAdmins := g'.pausedAdmins) && (a in g'.pausedAdmins <==> p)
      && forall b :: b != a ==> (b in g'.pausedAdmins <==> b in g.pausedAdmins)
    case SetTokenWhitelistEnabled(_, w) => g' == g.(whitelistEnabled := w)
    case SetTokenAllowed(_, t, w) =>
      g' == g.(allowedTokens := g'.allowedTokens) && (t in g'.allowedTokens <==> w)
      && forall u :: u != t ==> (u in g'.allowedTokens <==> u in g.allowedTokens)
  }
}
