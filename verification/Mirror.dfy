/**
 The build/submit protocol between the database and the chain. Handlers read, build,
 save and submit in separate steps; any number of builds and submits for an event may be
 in flight, be rebuilt, fail or never hear back, while the chain moves on. The database
 never runs ahead of the chain.
 */
module Mirror {
  import opened Wrappers
  import opened EscrowState
  import opened EscrowSteps
  import opened EscrowHistory
  import opened ReleaseAllocation
  import opened MirrorDb

  /** What a handler carries between its reads and its writes. */
  datatype Flight =
    | CreateBuilding(row: RowId, create: CreateBuild)
    | StartBuilding(row: RowId, start: StartBuild)
    | ReleaseBuilding(row: RowId, release: ReleaseBuild)
    | CreateSubmitting(row: RowId, create: CreateBuild)
    | StartSubmitting(row: RowId, start: StartBuild)
    | ReleaseSubmitting(row: RowId, release: ReleaseBuild)
  {
    /** The call a submit has verified. */
    function HostFunction(): Call
    {
      match this
      case CreateBuilding(_, b) => b.hostFunction
      case StartBuilding(_, b) => b.hostFunction
      case ReleaseBuilding(_, b) => b.hostFunction
      case CreateSubmitting(_, b) => b.hostFunction
      case StartSubmitting(_, b) => b.hostFunction
      case ReleaseSubmitting(_, b) => b.hostFunction
    }
  }

  /** A signed transaction as a wallet returns it. */
  datatype Envelope = Envelope(source: Address, hostFunction: Call, signatures: nat)

  datatype World = World(
    chain: State,
    db: Db,
    flights: map<nat, Flight>,
    /** The transactions that succeeded on chain. */
    confirmed: map<TxHash, Call>)

  datatype Kind = CREATE | START | RELEASE

  datatype Action =
    // the chain, for whoever calls it
    | ChainStep(step: Step, tx: TxHash)
    // handlers read the database and build or verify
    | BuildCreate(flight: nat, row: RowId, organizer: Address, judge: Address, resolver: Address, token: Address,
                  reward: i128, id: EventId)
    | BuildStart(flight: nat, row: RowId, organizer: Address, judgingDeadline: nat, fee: i128)
    | BuildRelease(flight: nat, row: RowId, judge: Address, winners: seq<Winner>, rows: seq<ReleaseWinner>)
    | Submit(flight: nat, row: RowId, kind: Kind, envelope: Envelope)
    // handlers write the database
    | Save(flight: nat)
    | Confirm(flight: nat, tx: TxHash)
    | MarkFailed(row: RowId, kind: Kind, reason: string)
    | Abandon(flight: nat)
    // the organizer's own steps
    | StartJudging(row: RowId)
    | NewEvent(row: RowId)
    | NewPrize(prizeId: string, row: RowId)

  // ------------------------------------------------------------------
  // Handlers
  // ------------------------------------------------------------------

  /** The guard of every submit: signed, by the right account, and exactly the call that was built. */
  predicate VerifySignedEnvelope(e: Envelope, wantSource: Address, wantHostFunction: Call)
  {
    e.signatures >= 1 && e.source == wantSource && e.hostFunction == wantHostFunction
  }

  predicate RowIs(db: Db, row: RowId, status: EventStatus)
  {
    row in db.events && db.events[row].status == status
  }

  /** The row is in a status and already has its event on chain. */
  predicate OnChainIn(db: Db, row: RowId, status: EventStatus)
  {
    RowIs(db, row, status) && db.events[row].escrowEventId.Some?
  }

  predicate DraftOffChain(db: Db, row: RowId)
  {
    RowIs(db, row, DRAFT) && db.events[row].escrowEventId.None?
  }

  function Launch(w: World, flight: nat, f: Flight): World
  {
    if flight in w.flights then w else w.(flights := w.flights[flight := f])
  }

  /** What a submit loads and verifies; None if a precondition fails. */
  function LoadSubmit(db: Db, row: RowId, kind: Kind, e: Envelope): Option<Flight>
  {
    match kind
    case CREATE =>
      if DraftOffChain(db, row) && row in db.creates && db.creates[row].status == PENDING
         && VerifySignedEnvelope(e, db.creates[row].build.source, db.creates[row].build.hostFunction)
      then Some(CreateSubmitting(row, db.creates[row].build)) else None
    case START =>
      if OnChainIn(db, row, CREATED) && row in db.starts && db.starts[row].status == PENDING
         && VerifySignedEnvelope(e, db.starts[row].build.source, db.starts[row].build.hostFunction)
      then Some(StartSubmitting(row, db.starts[row].build)) else None
    case RELEASE =>
      if OnChainIn(db, row, JUDGING) && row in db.releases && db.releases[row].status == PENDING
         && VerifySignedEnvelope(e, db.releases[row].build.source, db.releases[row].build.hostFunction)
      then Some(ReleaseSubmitting(row, db.releases[row].build)) else None
  }

  /** A transaction either commits or leaves the database as it was. */
  function Commit(db: Db, r: Result<Db, StoreError>): Db
  {
    match r
    case Success(db') => db'
    case Failure(_) => db
  }

  /** The write of a build handler. */
  function SaveBuild(db: Db, f: Flight): Db
  {
    match f
    case CreateBuilding(row, build) => Commit(db, SaveCreate(db, row, build))
    case StartBuilding(row, build) => Commit(db, SaveStart(db, row, build))
    case ReleaseBuilding(row, build) => Commit(db, SaveRelease(db, row, build))
    case _ => db
  }

  /** The write of a submit handler whose transaction was confirmed. */
  function RecordSuccess(db: Db, f: Flight, tx: TxHash): Db
  {
    match f
    case CreateSubmitting(row, build) => Commit(db, ConfirmCreate(db, row, build.escrowEventId))
    case StartSubmitting(row, build) => Commit(db, ConfirmStart(db, row, build.hostFunction))
    case ReleaseSubmitting(row, _) => Commit(db, ConfirmRelease(db, row, tx))
    case _ => db
  }

  function FailedOps<B>(ops: map<RowId, Op<B>>, row: RowId, reason: string): map<RowId, Op<B>>
  {
    match Fail(ops, row, reason)
    case Success(ops') => ops'
    case Failure(_) => ops
  }

  /** The write of a submit handler whose transaction failed. */
  function RecordFailure(db: Db, row: RowId, kind: Kind, reason: string): Db
  {
    match kind
    case CREATE => db.(creates := FailedOps(db.creates, row, reason))
    case START => db.(starts := FailedOps(db.starts, row, reason))
    case RELEASE => db.(releases := FailedOps(db.releases, row, reason))
  }

  // ------------------------------------------------------------------
  // Actions
  // ------------------------------------------------------------------

  function Act(w: World, action: Action): World
  {
    match action
    case ChainStep(step, tx) =>
      var chain := After(w.chain, step);
      if step.Invoke? && Next(w.chain, step).Some? && tx !in w.confirmed
      then w.(chain := chain, confirmed := w.confirmed[tx := step.call])
      else if step.Invoke? then w
      else w.(chain := chain)
    case BuildCreate(flight, row, organizer, judge, resolver, token, reward, id) =>
      if !DraftOffChain(w.db, row) then w
      else
        var call := CreateEvent(organizer, judge, Some(resolver), token, reward, id, None);
        Launch(w, flight, CreateBuilding(row, CreateBuild(call, organizer, id, reward)))
    case BuildStart(flight, row, organizer, judgingDeadline, fee) =>
      if !OnChainIn(w.db, row, CREATED) then w
      else
        var call := SetEventInProgress(organizer, w.db.events[row].escrowEventId.value, judgingDeadline);
        Launch(w, flight, StartBuilding(row, StartBuild(call, organizer, judgingDeadline, fee)))
    case BuildRelease(flight, row, judge, winners, rows) =>
      if !OnChainIn(w.db, row, JUDGING) then w
      else
        var call := ReleaseReward(judge, w.db.events[row].escrowEventId.value, winners);
        Launch(w, flight, ReleaseBuilding(row, ReleaseBuild(call, judge, rows)))
    case Submit(flight, row, kind, envelope) =>
      (match LoadSubmit(w.db, row, kind, envelope)
       case None => w
       case Some(f) => Launch(w, flight, f))
    case Save(flight) =>
      if flight !in w.flights then w
      else w.(db := SaveBuild(w.db, w.flights[flight]), flights := w.flights - {flight})
    case Confirm(flight, tx) =>
      if flight !in w.flights || tx !in w.confirmed || w.confirmed[tx] != w.flights[flight].HostFunction() then w
      else w.(db := RecordSuccess(w.db, w.flights[flight], tx), flights := w.flights - {flight})
    case MarkFailed(row, kind, reason) => w.(db := RecordFailure(w.db, row, kind, reason))
    case Abandon(flight) => w.(flights := w.flights - {flight})
    case StartJudging(row) => w.(db := Commit(w.db, Transition(w.db, row, LIVE, JUDGING)))
    case NewEvent(row) =>
      if row in w.db.events then w
      else w.(db := w.db.(events := w.db.events[row := EventRow(DRAFT, None)]))
    case NewPrize(prizeId, row) =>
      if prizeId in w.db.prizes then w
      else w.(db := w.db.(prizes := w.db.prizes[prizeId := PrizeRow(row, UNASSIGNED, None, None)]))
  }

  function RunActions(w: World, actions: seq<Action>): World
  {
    if actions == [] then w else Act(RunActions(w, actions[..|actions| - 1]), actions[|actions| - 1])
  }

  // ------------------------------------------------------------------
  // What the database may claim
  // ------------------------------------------------------------------

  predicate Running(chain: State, id: EventId)
  {
    id in chain.events && (chain.events[id].state == InProgress || chain.events[id].state == Ended)
  }

  predicate Over(chain: State, id: EventId)
  {
    id in chain.events && chain.events[id].state == Ended
  }

  /** Only a draft has no event on chain; the status never promises more than the chain has done. */
  predicate RowTrue(chain: State, e: EventRow)
  {
    && (e.status == DRAFT <==> e.escrowEventId.None?)
    && (e.escrowEventId.Some? ==>
          && e.escrowEventId.value in chain.events
          && (e.status == LIVE || e.status == JUDGING ==> Running(chain, e.escrowEventId.value))
          && (e.status == COMPLETED ==> Over(chain, e.escrowEventId.value)))
  }

  ghost predicate RowsTrue(chain: State, events: map<RowId, EventRow>)
  {
    forall row :: row in events ==> RowTrue(chain, events[row])
  }

  ghost predicate IdsUnique(events: map<RowId, EventRow>)
  {
    forall row :: row in events && events[row].escrowEventId.Some? ==>
         IdFree(events, row, events[row].escrowEventId.value)
  }

  /** The row's event on chain is the one with this id. */
  predicate Mirrors(events: map<RowId, EventRow>, row: RowId, id: EventId)
  {
    row in events && events[row].escrowEventId == Some(id)
  }

  predicate CreateTrue(b: CreateBuild)
  {
    b.hostFunction.CreateEvent? && b.hostFunction.id == b.escrowEventId
  }

  predicate StartTrue(events: map<RowId, EventRow>, row: RowId, b: StartBuild)
  {
    b.hostFunction.SetEventInProgress? && Mirrors(events, row, b.hostFunction.id)
  }

  predicate ReleaseTrue(events: map<RowId, EventRow>, row: RowId, b: ReleaseBuild)
  {
    b.hostFunction.ReleaseReward? && Mirrors(events, row, b.hostFunction.id)
  }

  predicate FlightTrue(events: map<RowId, EventRow>, f: Flight)
  {
    match f
    case CreateBuilding(_, b) => CreateTrue(b)
    case StartBuilding(row, b) => StartTrue(events, row, b)
    case ReleaseBuilding(row, b) => ReleaseTrue(events, row, b)
    case CreateSubmitting(_, b) => CreateTrue(b)
    case StartSubmitting(row, b) => StartTrue(events, row, b)
    case ReleaseSubmitting(row, b) => ReleaseTrue(events, row, b)
  }

  /** Every saved and every flying build is for the event of its row. */
  ghost predicate BuildsTrue(db: Db)
  {
    && (forall row :: row in db.creates ==> CreateTrue(db.creates[row].build))
    && (forall row :: row in db.starts ==> StartTrue(db.events, row, db.starts[row].build))
    && (forall row :: row in db.releases ==> ReleaseTrue(db.events, row, db.releases[row].build))
  }

  ghost predicate FlightsTrue(w: World)
  {
    forall f :: f in w.flights ==> FlightTrue(w.db.events, w.flights[f])
  }

  /** What a confirmed call has done for good. */
  predicate Happened(chain: State, call: Call)
  {
    && (call.CreateEvent? ==> call.id in chain.events)
    && (call.SetEventInProgress? ==> Running(chain, call.id))
    && (call.ReleaseReward? ==> Over(chain, call.id))
  }

  ghost predicate ConfirmedTrue(w: World)
  {
    forall tx :: tx in w.confirmed ==> Happened(w.chain, w.confirmed[tx])
  }

  /** A completed event has no pending release. */
  ghost predicate CompletedSettled(db: Db)
  {
    forall row :: row in db.events && db.events[row].status == COMPLETED ==>
      row in db.releases && db.releases[row].status != PENDING
  }

  /** The winners of a saved release build belong to prizes of the row. */
  ghost predicate ReleasesOwn(db: Db)
  {
    forall row :: row in db.releases ==> PrizesBelong(db.prizes, row, db.releases[row].build.winners)
  }

  /** The payout is for a prize of the row. */
  predicate PaysFor(db: Db, row: RowId, p: PayoutRow)
  {
    p.prizeId in db.prizes && db.prizes[p.prizeId].event == row
  }

  /** Payouts exist only for completed events, and all those of one event carry one hash. */
  ghost predicate PayoutsTrue(db: Db)
  {
    && (forall i :: 0 <= i < |db.payouts| ==>
          db.payouts[i].prizeId in db.prizes && RowIs(db, db.prizes[db.payouts[i].prizeId].event, COMPLETED))
    && (forall i, j :: 0 <= i < |db.payouts| && 0 <= j < |db.payouts| && SameEvent(db, db.payouts[i], db.payouts[j]) ==>
          db.payouts[i].txHash == db.payouts[j].txHash)
  }

  predicate SameEvent(db: Db, p: PayoutRow, q: PayoutRow)
  {
    p.prizeId in db.prizes && q.prizeId in db.prizes && db.prizes[p.prizeId].event == db.prizes[q.prizeId].event
  }

  ghost predicate DbTrue(chain: State, db: Db)
  {
    && RowsTrue(chain, db.events) && IdsUnique(db.events) && BuildsTrue(db)
    && CompletedSettled(db) && ReleasesOwn(db) && PayoutsTrue(db)
  }

  ghost predicate Faithful(w: World)
  {
    RateBounded(w.chain.gov) && DbTrue(w.chain, w.db) && FlightsTrue(w) && ConfirmedTrue(w)
  }

  /** Ids are set once. */
  ghost predicate IdsKept(events: map<RowId, EventRow>, events': map<RowId, EventRow>)
  {
    forall row :: row in events ==>
      row in events' && (events[row].escrowEventId.Some? ==> events'[row].escrowEventId == events[row].escrowEventId)
  }

  // ------------------------------------------------------------------
  // The chain moves on
  // ------------------------------------------------------------------

  /** What is true of an event stays true. */
  ghost predicate ChainAdvances(s: State, s': State)
  {
    && (forall id :: id in s.events ==> id in s'.events)
    && (forall id :: Running(s, id) ==> Running(s', id))
    && (forall id :: Over(s, id) ==> Over(s', id))
  }

  lemma AfterAdvances(s: State, step: Step)
    requires RateBounded(s.gov)
    ensures ChainAdvances(s, After(s, step)) && RateBounded(After(s, step).gov)
  {
    hide After, RateBounded, NewsShape, EventLog, StartLog, PayoutLog, CompensationLog;
    AfterMoves(s, step);
    AfterRateBounded(s, step);
    var s' := After(s, step);
    forall id | id in s.events
      ensures id in s'.events && (Running(s, id) ==> Running(s', id)) && (Over(s, id) ==> Over(s', id))
    {
      assert EventMove(Find(s, id), Find(s', id), id, EventLog(News(s, s'), id));
    }
  }

  /** A call that succeeds has happened. */
  lemma ApplyHappened(s: State, auth: set<Address>, call: Call)
    requires Apply(s, auth, call).Some?
    ensures Happened(Apply(s, auth, call).value, call)
  {
    hide DepositStep, WithdrawStep, RefundStep, EmergencyStep, CompensateStep, GovernStep, GoLiveFee, TransferAll,
         ValidWinners;
    if call.SetEventInProgress? {
      hide ChargeStep;
    }
  }

  lemma ChainKeeps(w: World, step: Step, tx: TxHash)
    requires Faithful(w)
    ensures Faithful(Act(w, ChainStep(step, tx)))
  {
    hide After, Next, RateBounded, BuildsTrue, CompletedSettled, ReleasesOwn, PayoutsTrue, IdsUnique, FlightTrue,
         Happened, RowTrue;
    AfterAdvances(w.chain, step);
    var w' := Act(w, ChainStep(step, tx));
    if w'.chain == After(w.chain, step) {
      AdvanceKeepsRows(w.chain, w'.chain, w.db.events);
      forall t | t in w.confirmed
        ensures Happened(w'.chain, w.confirmed[t])
      {
        AdvanceKeepsHappened(w.chain, w'.chain, w.confirmed[t]);
      }
      if w'.confirmed != w.confirmed {
        InvokeHappened(w.chain, step);
      }
    }
  }

  lemma InvokeHappened(s: State, step: Step)
    requires step.Invoke? && Next(s, step).Some?
    ensures Happened(After(s, step), step.call)
  {
    hide Apply, Happened;
    ApplyHappened(s, step.auth, step.call);
  }

  lemma AdvanceKeepsHappened(s: State, s': State, call: Call)
    requires ChainAdvances(s, s') && Happened(s, call)
    ensures Happened(s', call)
  {}

  lemma AdvanceKeepsRows(s: State, s': State, events: map<RowId, EventRow>)
    requires ChainAdvances(s, s') && RowsTrue(s, events)
    ensures RowsTrue(s', events)
  {
    forall row | row in events
      ensures RowTrue(s', events[row])
    {
      assert RowTrue(s, events[row]);
    }
  }

  // ------------------------------------------------------------------
  // The database follows
  // ------------------------------------------------------------------

  /** A transaction keeps the database true and sets ids at most once. */
  ghost predicate Follows(chain: State, db: Db, db': Db)
  {
    DbTrue(chain, db') && IdsKept(db.events, db'.events)
  }

  lemma SameFollows(chain: State, db: Db)
    requires DbTrue(chain, db)
    ensures Follows(chain, db, db)
  {}

  lemma KeptFlight(events: map<RowId, EventRow>, events': map<RowId, EventRow>, f: Flight)
    requires IdsKept(events, events') && FlightTrue(events, f)
    ensures FlightTrue(events', f)
  {}

  lemma RowsUpdate(chain: State, events: map<RowId, EventRow>, row: RowId, e: EventRow)
    requires RowsTrue(chain, events) && RowTrue(chain, e)
    ensures RowsTrue(chain, events[row := e])
  {
    hide RowTrue;
  }

  /** A row that is not completed may take any other status but completed. */
  lemma SettledUpdate(db: Db, db': Db, row: RowId, e: EventRow)
    requires CompletedSettled(db) && db'.events == db.events[row := e] && db'.releases == db.releases
    requires e.status != COMPLETED
    ensures CompletedSettled(db')
  {}

  lemma FreshId(events: map<RowId, EventRow>, row: RowId, id: EventId)
    requires IdsUnique(events) && IdFree(events, row, id) && row in events && events[row].escrowEventId.None?
    ensures IdsUnique(events[row := EventRow(CREATED, Some(id))])
  {
    var events' := events[row := EventRow(CREATED, Some(id))];
    forall r | r in events' && events'[r].escrowEventId.Some?
      ensures IdFree(events', r, events'[r].escrowEventId.value)
    {
      if r != row {
        assert IdFree(events, r, events[r].escrowEventId.value);
        assert events[r].escrowEventId != Some(id);
      }
    }
  }

  lemma SaveCreateFollows(chain: State, db: Db, row: RowId, build: CreateBuild)
    requires DbTrue(chain, db) && CreateTrue(build)
    ensures Follows(chain, db, Commit(db, SaveCreate(db, row, build)))
  {
    hide RowTrue, IdFree, PrizesBelong;
  }

  lemma SaveStartFollows(chain: State, db: Db, row: RowId, build: StartBuild)
    requires DbTrue(chain, db) && StartTrue(db.events, row, build)
    ensures Follows(chain, db, Commit(db, SaveStart(db, row, build)))
  {
    hide RowTrue, IdFree, PrizesBelong;
  }

  /** Prizes stay with their event. */
  ghost predicate PrizesStay(prizes: map<string, PrizeRow>, prizes': map<string, PrizeRow>)
  {
    prizes'.Keys == prizes.Keys && forall p :: p in prizes ==> prizes'[p].event == prizes[p].event
  }

  lemma PrizesStayBelong(prizes: map<string, PrizeRow>, prizes': map<string, PrizeRow>, row: RowId,
                         winners: seq<ReleaseWinner>)
    requires PrizesStay(prizes, prizes') && PrizesBelong(prizes, row, winners)
    ensures PrizesBelong(prizes', row, winners)
  {}

  lemma PrizesStayPayouts(db: Db, db': Db)
    requires PrizesStay(db.prizes, db'.prizes) && db'.events == db.events && db'.payouts == db.payouts
             && PayoutsTrue(db)
    ensures PayoutsTrue(db')
  {
    forall i, j | 0 <= i < |db'.payouts| && 0 <= j < |db'.payouts| && SameEvent(db', db'.payouts[i], db'.payouts[j])
      ensures db'.payouts[i].txHash == db'.payouts[j].txHash
    {
      assert SameEvent(db, db.payouts[i], db.payouts[j]);
    }
  }

  lemma SaveReleaseFollows(chain: State, db: Db, row: RowId, build: ReleaseBuild)
    requires DbTrue(chain, db) && ReleaseTrue(db.events, row, build)
    ensures Follows(chain, db, Commit(db, SaveRelease(db, row, build)))
  {
    hide RowTrue, IdFree, PrizesBelong, PayoutsTrue, FirstTeam, Names;
    var db' := Commit(db, SaveRelease(db, row, build));
    if db' != db {
      assert PrizesStay(db.prizes, db'.prizes);
      SaveReleaseKeepsOwn(db, row, build, db');
      PrizesStayPayouts(db, db');
      hide PrizesStay, ReleasesOwn, Assigned;
    }
  }

  lemma SaveReleaseKeepsOwn(db: Db, row: RowId, build: ReleaseBuild, db': Db)
    requires ReleasesOwn(db) && SaveRelease(db, row, build) == Success(db') && PrizesStay(db.prizes, db'.prizes)
    ensures ReleasesOwn(db')
  {
    hide PrizesBelong, Assigned, PrizesStay;
    forall r | r in db'.releases
      ensures PrizesBelong(db'.prizes, r, db'.releases[r].build.winners)
    {
      PrizesStayBelong(db.prizes, db'.prizes, r, db'.releases[r].build.winners);
    }
  }

  lemma ConfirmCreateFollows(chain: State, db: Db, row: RowId, id: EventId)
    requires DbTrue(chain, db) && id in chain.events
    ensures Follows(chain, db, Commit(db, ConfirmCreate(db, row, id)))
  {
    hide PrizesBelong, IdFree, RowsTrue, IdsUnique, BuildsTrue, CompletedSettled, PayoutsTrue;
    var db' := Commit(db, ConfirmCreate(db, row, id));
    if db' != db {
      DraftHasNoId(chain, db.events, row);
      StatusKeepsPayouts(db, db', row);
      BuildsFollow(db, db');
      RowsUpdate(chain, db.events, row, EventRow(CREATED, Some(id)));
      SettledUpdate(db, db', row, EventRow(CREATED, Some(id)));
      FreshId(db.events, row, id);
    }
  }

  lemma DraftHasNoId(chain: State, events: map<RowId, EventRow>, row: RowId)
    requires RowsTrue(chain, events) && row in events && events[row].status == DRAFT
    ensures events[row].escrowEventId.None?
  {
    assert RowTrue(chain, events[row]);
  }

  /** Payouts do not notice a change to an event that is not completed. */
  lemma StatusKeepsPayouts(db: Db, db': Db, row: RowId)
    requires PayoutsTrue(db) && row in db.events && db.events[row].status != COMPLETED
    requires db'.payouts == db.payouts && db'.prizes == db.prizes
    requires forall r :: r in db.events && r != row ==> r in db'.events && db'.events[r] == db.events[r]
    ensures PayoutsTrue(db')
  {
    forall i, j | 0 <= i < |db'.payouts| && 0 <= j < |db'.payouts| && SameEvent(db', db'.payouts[i], db'.payouts[j])
      ensures db'.payouts[i].txHash == db'.payouts[j].txHash
    {
      assert SameEvent(db, db.payouts[i], db.payouts[j]);
    }
  }

  /** Builds stay true of their rows when ids are kept. */
  lemma BuildsFollow(db: Db, db': Db)
    requires BuildsTrue(db) && IdsKept(db.events, db'.events)
    requires forall r :: r in db'.creates ==> r in db.creates && db'.creates[r].build == db.creates[r].build
    requires forall r :: r in db'.starts ==> r in db.starts && db'.starts[r].build == db.starts[r].build
    requires forall r :: r in db'.releases ==> r in db.releases && db'.releases[r].build == db.releases[r].build
    ensures BuildsTrue(db')
  {}

  lemma ConfirmStartFollows(chain: State, db: Db, row: RowId, build: StartBuild)
    requires DbTrue(chain, db) && StartTrue(db.events, row, build) && Happened(chain, build.hostFunction)
    ensures Follows(chain, db, Commit(db, ConfirmStart(db, row, build.hostFunction)))
  {
    hide PrizesBelong, RowsTrue, IdsUnique, BuildsTrue, CompletedSettled, PayoutsTrue, Running, Over;
    var db' := Commit(db, ConfirmStart(db, row, build.hostFunction));
    if db' != db {
      RunningOnChain(chain, build.hostFunction.id);
      StatusKeepsPayouts(db, db', row);
      BuildsFollow(db, db');
      RowsUpdate(chain, db.events, row, db'.events[row]);
      SettledUpdate(db, db', row, db'.events[row]);
      StatusKeepsIds(db.events, db'.events);
    }
  }

  lemma RunningOnChain(chain: State, id: EventId)
    ensures Running(chain, id) || Over(chain, id) ==> id in chain.events
  {}

  lemma StatusKeepsIds(events: map<RowId, EventRow>, events': map<RowId, EventRow>)
    requires IdsUnique(events) && events'.Keys == events.Keys
    requires forall r :: r in events ==> events'[r].escrowEventId == events[r].escrowEventId
    ensures IdsUnique(events')
  {
    forall row | row in events' && events'[row].escrowEventId.Some?
      ensures IdFree(events', row, events'[row].escrowEventId.value)
    {
      assert IdFree(events, row, events[row].escrowEventId.value);
    }
  }

  lemma TransitionFollows(chain: State, db: Db, row: RowId)
    requires DbTrue(chain, db)
    ensures Follows(chain, db, Commit(db, Transition(db, row, LIVE, JUDGING)))
  {
    hide PrizesBelong, IdFree;
    var db' := Commit(db, Transition(db, row, LIVE, JUDGING));
    if db' != db {
      assert RowTrue(chain, db.events[row]);
      StatusKeepsPayouts(db, db', row);
      BuildsFollow(db, db');
      StatusKeepsIds(db.events, db'.events);
    }
  }

  lemma FailureFollows(chain: State, db: Db, row: RowId, kind: Kind, reason: string)
    requires DbTrue(chain, db)
    ensures Follows(chain, db, RecordFailure(db, row, kind, reason))
  {
    hide PrizesBelong, RowsTrue, IdsUnique, BuildsTrue, PayoutsTrue, CompletedSettled;
    var db' := RecordFailure(db, row, kind, reason);
    BuildsFollow(db, db');
    FailureSettled(db, row, kind, reason);
    SamePayouts(db, db');
  }

  /** A failed release is not pending either. */
  lemma FailureSettled(db: Db, row: RowId, kind: Kind, reason: string)
    requires CompletedSettled(db)
    ensures CompletedSettled(RecordFailure(db, row, kind, reason))
  {}

  lemma SamePayouts(db: Db, db': Db)
    requires PayoutsTrue(db) && db'.events == db.events && db'.prizes == db.prizes && db'.payouts == db.payouts
    ensures PayoutsTrue(db')
  {
    PrizesStayPayouts(db, db');
  }

  lemma NewEventFollows(chain: State, db: Db, row: RowId)
    requires DbTrue(chain, db) && row !in db.events
    ensures Follows(chain, db, db.(events := db.events[row := EventRow(DRAFT, None)]))
  {
    hide PrizesBelong, RowsTrue, BuildsTrue, PayoutsTrue, CompletedSettled;
    var db' := db.(events := db.events[row := EventRow(DRAFT, None)]);
    RowsUpdate(chain, db.events, row, EventRow(DRAFT, None));
    SettledUpdate(db, db', row, EventRow(DRAFT, None));
    BuildsFollow(db, db');
    NewRowKeepsPayouts(db, db', row);
  }

  lemma NewRowKeepsPayouts(db: Db, db': Db, row: RowId)
    requires PayoutsTrue(db) && row !in db.events
    requires db' == db.(events := db.events[row := EventRow(DRAFT, None)])
    ensures PayoutsTrue(db')
  {
    forall i, j | 0 <= i < |db'.payouts| && 0 <= j < |db'.payouts| && SameEvent(db', db'.payouts[i], db'.payouts[j])
      ensures db'.payouts[i].txHash == db'.payouts[j].txHash
    {
      assert SameEvent(db, db.payouts[i], db.payouts[j]);
    }
  }

  lemma NewPrizeFollows(chain: State, db: Db, prizeId: string, row: RowId)
    requires DbTrue(chain, db) && prizeId !in db.prizes
    ensures Follows(chain, db, db.(prizes := db.prizes[prizeId := PrizeRow(row, UNASSIGNED, None, None)]))
  {
    hide IdFree, RowTrue;
    var db' := db.(prizes := db.prizes[prizeId := PrizeRow(row, UNASSIGNED, None, None)]);
    forall i, j | 0 <= i < |db'.payouts| && 0 <= j < |db'.payouts| && SameEvent(db', db'.payouts[i], db'.payouts[j])
      ensures db'.payouts[i].txHash == db'.payouts[j].txHash
    {
      assert SameEvent(db, db.payouts[i], db.payouts[j]);
    }
  }

  // ------------------------------------------------------------------
  // Payouts
  // ------------------------------------------------------------------

  /** A release that commits writes the first payouts of its event, all with its own hash. */
  lemma ReleasePays(db: Db, row: RowId, tx: TxHash, db': Db)
    requires CompletedSettled(db) && ReleasesOwn(db) && PayoutsTrue(db) && row in db.events
    requires ConfirmRelease(db, row, tx) == Success(db')
    ensures PrizesStay(db.prizes, db'.prizes)
    ensures db.events[row].status != COMPLETED && RowIs(db', row, COMPLETED)
    ensures |db.payouts| <= |db'.payouts| && db'.payouts[..|db.payouts|] == db.payouts
    ensures forall i :: 0 <= i < |db.payouts| ==> !PaysFor(db, row, db.payouts[i])
    ensures forall i :: |db.payouts| <= i < |db'.payouts| ==>
              PaysFor(db', row, db'.payouts[i]) && db'.payouts[i].txHash == tx
  {
    hide Insertable, Names;
    var winners := db.releases[row].build.winners;
    forall i | |db.payouts| <= i < |db'.payouts|
      ensures PaysFor(db', row, db'.payouts[i]) && db'.payouts[i].txHash == tx
    {
      assert db'.payouts[i] == PayoutFor(winners[i - |db.payouts|], tx);
    }
  }

  lemma ReleaseKeepsPayouts(db: Db, row: RowId, tx: TxHash, db': Db)
    requires CompletedSettled(db) && ReleasesOwn(db) && PayoutsTrue(db) && row in db.events
    requires ConfirmRelease(db, row, tx) == Success(db')
    ensures PayoutsTrue(db')
  {
    ReleasePays(db, row, tx, db');
    hide Insertable, Names, Released, PayoutsOf;
    var n := |db.payouts|;
    forall i | 0 <= i < |db'.payouts|
      ensures db'.payouts[i].prizeId in db'.prizes && RowIs(db', db'.prizes[db'.payouts[i].prizeId].event, COMPLETED)
      ensures i < n ==> db'.payouts[i] == db.payouts[i] && db'.prizes[db.payouts[i].prizeId].event != row
    {
      if i < n {
        assert db'.payouts[..n][i] == db'.payouts[i];
        assert !PaysFor(db, row, db.payouts[i]);
      }
    }
    forall i, j | 0 <= i < |db'.payouts| && 0 <= j < |db'.payouts| && SameEvent(db', db'.payouts[i], db'.payouts[j])
      ensures db'.payouts[i].txHash == db'.payouts[j].txHash
    {
      if i < n && j < n {
        assert SameEvent(db, db.payouts[i], db.payouts[j]);
      }
    }
  }

  lemma ReleaseSettles(db: Db, row: RowId, tx: TxHash, db': Db)
    requires CompletedSettled(db) && row in db.events && ConfirmRelease(db, row, tx) == Success(db')
    ensures CompletedSettled(db')
  {
    hide Insertable, Released, PayoutsOf;
  }

  lemma ReleaseKeepsOwn(db: Db, row: RowId, tx: TxHash, db': Db)
    requires ReleasesOwn(db) && PrizesStay(db.prizes, db'.prizes) && ConfirmRelease(db, row, tx) == Success(db')
    ensures ReleasesOwn(db')
  {
    hide PrizesBelong, Insertable, Released, PayoutsOf;
    forall q | q in db'.releases
      ensures PrizesBelong(db'.prizes, q, db'.releases[q].build.winners)
    {
      PrizesStayBelong(db.prizes, db'.prizes, q, db'.releases[q].build.winners);
    }
  }

  lemma ConfirmReleaseFollows(chain: State, db: Db, row: RowId, build: ReleaseBuild, tx: TxHash)
    requires DbTrue(chain, db) && ReleaseTrue(db.events, row, build) && Happened(chain, build.hostFunction)
    ensures Follows(chain, db, Commit(db, ConfirmRelease(db, row, tx)))
  {
    hide RowsTrue, IdsUnique, BuildsTrue, CompletedSettled, ReleasesOwn, PayoutsTrue, Insertable, Released, Running,
         Over, PrizesStay;
    var r := ConfirmRelease(db, row, tx);
    if r.Success? {
      var db' := r.value;
      RunningOnChain(chain, build.hostFunction.id);
      ReleaseKeepsPayouts(db, row, tx, db');
      ReleasePays(db, row, tx, db');
      ReleaseSettles(db, row, tx, db');
      ReleaseKeepsOwn(db, row, tx, db');
      BuildsFollow(db, db');
      RowsUpdate(chain, db.events, row, db'.events[row]);
      StatusKeepsIds(db.events, db'.events);
    }
  }

  // ------------------------------------------------------------------
  // Every action
  // ------------------------------------------------------------------

  lemma SaveFollows(chain: State, db: Db, f: Flight)
    requires DbTrue(chain, db) && FlightTrue(db.events, f)
    ensures Follows(chain, db, SaveBuild(db, f))
  {
    hide DbTrue, IdsKept, SaveCreate, SaveStart, SaveRelease, CreateTrue, StartTrue, ReleaseTrue;
    match f
    case CreateBuilding(row, build) => SaveCreateFollows(chain, db, row, build);
    case StartBuilding(row, build) => SaveStartFollows(chain, db, row, build);
    case ReleaseBuilding(row, build) => SaveReleaseFollows(chain, db, row, build);
    case _ => SameFollows(chain, db);
  }

  lemma SuccessFollows(chain: State, db: Db, f: Flight, tx: TxHash)
    requires DbTrue(chain, db) && FlightTrue(db.events, f) && Happened(chain, f.HostFunction())
    ensures Follows(chain, db, RecordSuccess(db, f, tx))
  {
    hide DbTrue, IdsKept, ConfirmCreate, ConfirmStart, ConfirmRelease;
    match f
    case CreateSubmitting(row, build) => ConfirmCreateFollows(chain, db, row, build.escrowEventId);
    case StartSubmitting(row, build) => ConfirmStartFollows(chain, db, row, build);
    case ReleaseSubmitting(row, build) => ConfirmReleaseFollows(chain, db, row, build, tx);
    case _ => SameFollows(chain, db);
  }

  /** A submit carries a true build. */
  lemma LoadedTrue(db: Db, row: RowId, kind: Kind, e: Envelope)
    requires BuildsTrue(db) && LoadSubmit(db, row, kind, e).Some?
    ensures FlightTrue(db.events, LoadSubmit(db, row, kind, e).value)
    ensures LoadSubmit(db, row, kind, e).value.HostFunction() == e.hostFunction
  {}

  /** The database part of an action. */
  lemma DbFollows(w: World, action: Action)
    requires Faithful(w) && !action.ChainStep?
    ensures Follows(w.chain, w.db, Act(w, action).db)
  {
    hide DbTrue, IdsKept, RowIs, LoadSubmit, SaveBuild, RecordSuccess, RecordFailure, Transition, Happened,
         FlightTrue, RateBounded;
    SameFollows(w.chain, w.db);
    match action
    case Save(flight) => if flight in w.flights { SaveFollows(w.chain, w.db, w.flights[flight]); }
    case Confirm(flight, tx) =>
      if flight in w.flights && tx in w.confirmed && w.confirmed[tx] == w.flights[flight].HostFunction() {
        SuccessFollows(w.chain, w.db, w.flights[flight], tx);
      }
    case MarkFailed(row, kind, reason) => FailureFollows(w.chain, w.db, row, kind, reason);
    case StartJudging(row) => TransitionFollows(w.chain, w.db, row);
    case NewEvent(row) => if row !in w.db.events { NewEventFollows(w.chain, w.db, row); }
    case NewPrize(prizeId, row) => if prizeId !in w.db.prizes { NewPrizeFollows(w.chain, w.db, prizeId, row); }
    case _ => {}
  }

  /** The flights of an action: old ones, or one more that is true of the database. */
  lemma FlightsFollow(w: World, action: Action)
    requires Faithful(w) && !action.ChainStep?
    ensures forall f :: f in Act(w, action).flights ==> FlightTrue(w.db.events, Act(w, action).flights[f])
  {
    hide IdsKept, SaveBuild, RecordSuccess, RecordFailure, Transition, Happened, RateBounded,
         RowsTrue, IdsUnique, CompletedSettled, ReleasesOwn, PayoutsTrue, ConfirmedTrue;
    match action
    case Submit(flight, row, kind, envelope) =>
      if LoadSubmit(w.db, row, kind, envelope).Some? { LoadedTrue(w.db, row, kind, envelope); }
    case _ => {}
  }

  /** Every action of anybody keeps the database faithful to the chain. */
  lemma ActKeepsFaith(w: World, action: Action)
    requires Faithful(w)
    ensures Faithful(Act(w, action)) && IdsKept(w.db.events, Act(w, action).db.events)
  {
    hide DbTrue, RateBounded, FlightTrue, Happened, Act;
    if action.ChainStep? {
      ChainKeeps(w, action.step, action.tx);
      ChainStepDb(w, action.step, action.tx);
    } else {
      DbFollows(w, action);
      FlightsFollow(w, action);
      ActLeavesChain(w, action);
      var w' := Act(w, action);
      forall f | f in w'.flights
        ensures FlightTrue(w'.db.events, w'.flights[f])
      {
        KeptFlight(w.db.events, w'.db.events, w'.flights[f]);
      }
    }
  }

  lemma ChainStepDb(w: World, step: Step, tx: TxHash)
    ensures Act(w, ChainStep(step, tx)).db == w.db
  {}

  lemma ActLeavesChain(w: World, action: Action)
    requires !action.ChainStep?
    ensures Act(w, action).chain == w.chain && Act(w, action).confirmed == w.confirmed
  {
    hide LoadSubmit, SaveBuild, RecordSuccess, RecordFailure, Transition;
  }

  // ------------------------------------------------------------------
  // Main results
  // ------------------------------------------------------------------

  /** An empty database beside a freshly deployed contract. */
  ghost predicate Beginning(w: World)
  {
    && Initial(w.chain) && w.db == Db(map[], map[], map[], map[], map[], [])
    && w.flights == map[] && w.confirmed == map[]
  }

  /** Whatever happens in whatever order, the database never claims more than the chain has done. */
  lemma {:induction false} NeverAhead(w: World, actions: seq<Action>)
    requires Beginning(w)
    ensures Faithful(RunActions(w, actions))
  {
    if actions != [] {
      hide Faithful, Act, Beginning;
      NeverAhead(w, actions[..|actions| - 1]);
      ActKeepsFaith(RunActions(w, actions[..|actions| - 1]), actions[|actions| - 1]);
    }
  }

  /** What that says about one row. */
  lemma RowClaims(w: World, actions: seq<Action>, row: RowId)
    requires Beginning(w) && row in RunActions(w, actions).db.events
    ensures var r := RunActions(w, actions);
      var e := r.db.events[row];
      && (e.status != DRAFT ==> e.escrowEventId.Some? && e.escrowEventId.value in r.chain.events)
      && (e.status == LIVE || e.status == JUDGING ==> Running(r.chain, e.escrowEventId.value))
      && (e.status == COMPLETED ==>
            Over(r.chain, e.escrowEventId.value) && row in r.db.releases && r.db.releases[row].status != PENDING)
  {
    hide RunActions, IdsUnique, BuildsTrue, ReleasesOwn, PayoutsTrue, FlightsTrue, ConfirmedTrue;
    NeverAhead(w, actions);
    assert RowTrue(RunActions(w, actions).chain, RunActions(w, actions).db.events[row]);
  }

  /** An id that is set is never changed. */
  lemma {:induction false} IdSetOnce(w: World, actions: seq<Action>, row: RowId)
    requires Faithful(w) && row in w.db.events && w.db.events[row].escrowEventId.Some?
    ensures var r := RunActions(w, actions);
      Faithful(r) && row in r.db.events && r.db.events[row].escrowEventId == w.db.events[row].escrowEventId
  {
    hide Faithful, Act;
    if actions != [] {
      IdSetOnce(w, actions[..|actions| - 1], row);
      ActKeepsFaith(RunActions(w, actions[..|actions| - 1]), actions[|actions| - 1]);
    }
  }

  // ------------------------------------------------------------------
  // Payouts are written once
  // ------------------------------------------------------------------

  /** The payouts of one event, in order. */
  function PayoutsFor(prizes: map<string, PrizeRow>, payouts: seq<PayoutRow>, row: RowId): seq<PayoutRow>
  {
    if payouts == [] then []
    else
      var last := payouts[|payouts| - 1];
      PayoutsFor(prizes, payouts[..|payouts| - 1], row)
      + if last.prizeId in prizes && prizes[last.prizeId].event == row then [last] else []
  }

  function EventPayouts(db: Db, row: RowId): seq<PayoutRow>
  {
    PayoutsFor(db.prizes, db.payouts, row)
  }

  lemma {:induction false} PayoutsForSame(prizes: map<string, PrizeRow>, prizes': map<string, PrizeRow>,
                                          payouts: seq<PayoutRow>, row: RowId)
    requires forall i :: 0 <= i < |payouts| ==>
               payouts[i].prizeId in prizes && payouts[i].prizeId in prizes'
               && prizes'[payouts[i].prizeId].event == prizes[payouts[i].prizeId].event
    ensures PayoutsFor(prizes', payouts, row) == PayoutsFor(prizes, payouts, row)
  {
    if payouts != [] {
      PayoutsForSame(prizes, prizes', payouts[..|payouts| - 1], row);
    }
  }

  /** Appending payouts that are all, or none, for the row. */
  lemma {:induction false} PayoutsForAppend(prizes: map<string, PrizeRow>, earlier: seq<PayoutRow>,
                                            more: seq<PayoutRow>, row: RowId)
    requires forall i :: 0 <= i < |more| ==> more[i].prizeId in prizes
    ensures (forall i :: 0 <= i < |more| ==> prizes[more[i].prizeId].event != row) ==>
              PayoutsFor(prizes, earlier + more, row) == PayoutsFor(prizes, earlier, row)
    ensures (forall i :: 0 <= i < |more| ==> prizes[more[i].prizeId].event == row) ==>
              PayoutsFor(prizes, earlier + more, row) == PayoutsFor(prizes, earlier, row) + more
  {
    if more == [] {
      assert earlier + more == earlier;
    } else {
      var n := |more| - 1;
      assert (earlier + more)[..|earlier + more| - 1] == earlier + more[..n];
      PayoutsForAppend(prizes, earlier, more[..n], row);
    }
  }

  lemma {:induction false} NoPayoutsFor(prizes: map<string, PrizeRow>, payouts: seq<PayoutRow>, row: RowId)
    requires forall i :: 0 <= i < |payouts| ==> payouts[i].prizeId in prizes && prizes[payouts[i].prizeId].event != row
    ensures PayoutsFor(prizes, payouts, row) == []
  {
    if payouts != [] {
      NoPayoutsFor(prizes, payouts[..|payouts| - 1], row);
    }
  }

  /** The rows a committed release appends. */
  lemma ReleaseAppends(db: Db, r: RowId, tx: TxHash, db': Db)
    requires ReleasesOwn(db) && ConfirmRelease(db, r, tx) == Success(db')
    ensures PrizesStay(db.prizes, db'.prizes)
    ensures var more := PayoutsOf(db.releases[r].build.winners, tx);
      && db'.payouts == db.payouts + more
      && forall i :: 0 <= i < |more| ==> more[i].prizeId in db'.prizes && db'.prizes[more[i].prizeId].event == r
  {
    hide Insertable, Names;
    assert PrizesBelong(db.prizes, r, db.releases[r].build.winners);
  }

  /** A committed release writes the payouts of its own event and of no other. */
  lemma ReleasePayouts(db: Db, r: RowId, tx: TxHash, db': Db, row: RowId)
    requires CompletedSettled(db) && ReleasesOwn(db) && PayoutsTrue(db) && r in db.events
    requires ConfirmRelease(db, r, tx) == Success(db')
    ensures row != r ==> EventPayouts(db', row) == EventPayouts(db, row)
    ensures row == r ==>
              EventPayouts(db, row) == [] && EventPayouts(db', row) == PayoutsOf(db.releases[r].build.winners, tx)
  {
    ReleaseAppends(db, r, tx, db');
    if row == r { NotYetPaid(db, r, tx, db'); }
    hide ConfirmRelease, PayoutsOf, CompletedSettled, ReleasesOwn, PayoutsFor, RowIs, SameEvent;
    PayoutsForSame(db.prizes, db'.prizes, db.payouts, row);
    PayoutsForAppend(db'.prizes, db.payouts, PayoutsOf(db.releases[r].build.winners, tx), row);
  }

  /** Before its release commits an event has no payouts. */
  lemma NotYetPaid(db: Db, r: RowId, tx: TxHash, db': Db)
    requires CompletedSettled(db) && ReleasesOwn(db) && PayoutsTrue(db) && r in db.events
    requires ConfirmRelease(db, r, tx) == Success(db')
    ensures EventPayouts(db, r) == []
  {
    ReleasePays(db, r, tx, db');
    hide ConfirmRelease, CompletedSettled, ReleasesOwn, PayoutsFor;
    forall i | 0 <= i < |db.payouts|
      ensures db.prizes[db.payouts[i].prizeId].event != r
    {
      assert !PaysFor(db, r, db.payouts[i]);
    }
    NoPayoutsFor(db.prizes, db.payouts, r);
  }

  /** One payout per line, field by field, all with one hash. */
  ghost predicate PaysLines(payouts: seq<PayoutRow>, lines: seq<ReleaseWinner>, tx: TxHash)
  {
    && |payouts| == |lines|
    && forall i :: 0 <= i < |lines| ==>
         && payouts[i].prizeId == lines[i].prizeId && payouts[i].memberId == lines[i].memberId
         && payouts[i].stroops == lines[i].stroops && payouts[i].txHash == tx
  }

  /** The payouts of an event change at most from none to those of one confirmed transaction. */
  ghost predicate PaidAtMostBy(db: Db, db': Db, row: RowId, tx: TxHash)
  {
    || EventPayouts(db', row) == EventPayouts(db, row)
    || (&& EventPayouts(db, row) == [] && RowIs(db', row, COMPLETED)
        && row in db.releases && PaysLines(EventPayouts(db', row), db.releases[row].build.winners, tx))
  }

  lemma ConfirmPays(db: Db, f: Flight, tx: TxHash, row: RowId)
    requires CompletedSettled(db) && ReleasesOwn(db) && PayoutsTrue(db) && FlightTrue(db.events, f)
    ensures PaidAtMostBy(db, RecordSuccess(db, f, tx), row, tx)
  {
    hide EventPayouts;
    if f.ReleaseSubmitting? && ConfirmRelease(db, f.row, tx).Success? {
      var db' := ConfirmRelease(db, f.row, tx).value;
      ReleasePayouts(db, f.row, tx, db', row);
      ReleasePays(db, f.row, tx, db');
    } else {
      SamePayoutTables(db, RecordSuccess(db, f, tx), row);
    }
  }

  lemma SamePayoutTables(db: Db, db': Db, row: RowId)
    ensures db'.prizes == db.prizes && db'.payouts == db.payouts ==> EventPayouts(db', row) == EventPayouts(db, row)
  {}

  lemma SavePays(db: Db, f: Flight, row: RowId)
    requires PayoutsTrue(db)
    ensures EventPayouts(SaveBuild(db, f), row) == EventPayouts(db, row)
  {
    hide FirstTeam, Names;
    PayoutsForSame(db.prizes, SaveBuild(db, f).prizes, db.payouts, row);
  }

  lemma NewPrizePays(db: Db, prizeId: string, r: RowId, row: RowId)
    requires PayoutsTrue(db) && prizeId !in db.prizes
    ensures PayoutsFor(db.prizes[prizeId := PrizeRow(r, UNASSIGNED, None, None)], db.payouts, row)
            == EventPayouts(db, row)
  {
    PayoutsForSame(db.prizes, db.prizes[prizeId := PrizeRow(r, UNASSIGNED, None, None)], db.payouts, row);
  }

  lemma FailureTables(db: Db, action: Action)
    ensures action.MarkFailed? ==>
              var db' := RecordFailure(db, action.row, action.kind, action.reason);
              db'.prizes == db.prizes && db'.payouts == db.payouts
    ensures action.StartJudging? ==>
              var db' := Commit(db, Transition(db, action.row, LIVE, JUDGING));
              db'.prizes == db.prizes && db'.payouts == db.payouts
  {}

  /** Where an action can write prizes or payouts. */
  lemma ActTables(w: World, action: Action)
    ensures var db' := Act(w, action).db;
      && (action.Confirm? && db' != w.db ==>
            action.flight in w.flights && db' == RecordSuccess(w.db, w.flights[action.flight], action.tx))
      && (action.Save? && db' != w.db ==>
           action.flight in w.flights && db' == SaveBuild(w.db, w.flights[action.flight]))
      && (action.NewPrize? && db' != w.db ==>
            action.prizeId !in w.db.prizes
            && db' == w.db.(prizes := w.db.prizes[action.prizeId := PrizeRow(action.row, UNASSIGNED, None, None)]))
      && (!action.Confirm? && !action.Save? && !action.NewPrize? ==>
            db'.prizes == w.db.prizes && db'.payouts == w.db.payouts)
  {
    hide SaveBuild, RecordSuccess, LoadSubmit, After, Next, Transition, RecordFailure;
    FailureTables(w.db, action);
  }

  /** Only a confirmed release writes payouts, once per event, all with its hash. */
  lemma ActPays(w: World, action: Action, row: RowId)
    requires Faithful(w)
    ensures action.Confirm? ==> PaidAtMostBy(w.db, Act(w, action).db, row, action.tx)
    ensures !action.Confirm? ==> EventPayouts(Act(w, action).db, row) == EventPayouts(w.db, row)
  {
    hide Act, EventPayouts, SaveBuild, RecordSuccess, FlightTrue, RowsTrue, IdsUnique, BuildsTrue, ConfirmedTrue,
         PayoutsTrue, CompletedSettled, ReleasesOwn, RateBounded;
    ActTables(w, action);
    var db' := Act(w, action).db;
    if db' != w.db {
      match action
      case Confirm(flight, tx) => ConfirmPays(w.db, w.flights[flight], tx, row);
      case Save(flight) => SavePays(w.db, w.flights[flight], row);
      case NewPrize(prizeId, r) => NewPrizeStep(w.db, prizeId, r, row);
      case _ => SamePayoutTables(w.db, db', row);
    }
  }

  lemma NewPrizeStep(db: Db, prizeId: string, r: RowId, row: RowId)
    requires PayoutsTrue(db) && prizeId !in db.prizes
    ensures EventPayouts(db.(prizes := db.prizes[prizeId := PrizeRow(r, UNASSIGNED, None, None)]), row)
            == EventPayouts(db, row)
  {
    NewPrizePays(db, prizeId, r, row);
  }

  /** A completed event is completed for good. */
  lemma ActCompleted(w: World, action: Action, row: RowId)
    requires Faithful(w) && RowIs(w.db, row, COMPLETED)
    ensures RowIs(Act(w, action).db, row, COMPLETED)
    ensures EventPayouts(Act(w, action).db, row) == EventPayouts(w.db, row)
  {
    ActPays(w, action, row);
    StaysCompleted(w, action, row);
    hide Act, EventPayouts, RecordSuccess, SaveBuild, FlightTrue, RowsTrue, IdsUnique, BuildsTrue, ConfirmedTrue,
         PayoutsTrue, CompletedSettled, ReleasesOwn, RateBounded, PaidAtMostBy, RowIs;
    ActTables(w, action);
    if action.Confirm? && Act(w, action).db != w.db {
      CompletedNotPaidAgain(w.db, w.flights[action.flight], action.tx, row);
    }
  }

  lemma StaysCompleted(w: World, action: Action, row: RowId)
    requires RowIs(w.db, row, COMPLETED)
    ensures RowIs(Act(w, action).db, row, COMPLETED)
  {
    hide LoadSubmit, After, SaveBuild, RecordSuccess;
    match action
    case Confirm(flight, tx) => if flight in w.flights { SuccessKeepsCompleted(w.db, w.flights[flight], tx, row); }
    case Save(flight) => if flight in w.flights { SaveKeepsEvents(w.db, w.flights[flight]); }
    case _ => {}
  }

  lemma SuccessKeepsCompleted(db: Db, f: Flight, tx: TxHash, row: RowId)
    requires RowIs(db, row, COMPLETED)
    ensures RowIs(RecordSuccess(db, f, tx), row, COMPLETED)
  {
    hide Insertable, Released, IdFree;
  }

  lemma SaveKeepsEvents(db: Db, f: Flight)
    ensures SaveBuild(db, f).events == db.events
  {
    hide Assigned, PrizesBelong;
  }

  lemma CompletedNotPaidAgain(db: Db, f: Flight, tx: TxHash, row: RowId)
    requires CompletedSettled(db) && ReleasesOwn(db) && PayoutsTrue(db) && FlightTrue(db.events, f)
    requires RowIs(db, row, COMPLETED)
    ensures EventPayouts(RecordSuccess(db, f, tx), row) == EventPayouts(db, row)
  {
    hide EventPayouts, Insertable, Released;
    if f.ReleaseSubmitting? && ConfirmRelease(db, f.row, tx).Success? {
      ReleasePayouts(db, f.row, tx, ConfirmRelease(db, f.row, tx).value, row);
    } else {
      SamePayoutTables(db, RecordSuccess(db, f, tx), row);
    }
  }

  /** Once an event is completed its payouts never change, in any interleaving. */
  lemma {:induction false} PayoutsWrittenOnce(w: World, actions: seq<Action>, row: RowId)
    requires Faithful(w) && RowIs(w.db, row, COMPLETED)
    ensures var r := RunActions(w, actions);
      Faithful(r) && RowIs(r.db, row, COMPLETED) && EventPayouts(r.db, row) == EventPayouts(w.db, row)
  {
    hide Faithful, Act, EventPayouts, RowIs;
    if actions != [] {
      PayoutsWrittenOnce(w, actions[..|actions| - 1], row);
      ActKeepsFaith(RunActions(w, actions[..|actions| - 1]), actions[|actions| - 1]);
      ActCompleted(RunActions(w, actions[..|actions| - 1]), actions[|actions| - 1], row);
    }
  }
}
