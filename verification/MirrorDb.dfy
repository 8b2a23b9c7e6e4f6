/**
 The database that mirrors the chain: rows, operation log and the transactions that
 change them, each one atomic.
 */
module MirrorDb {
  import opened Wrappers
  import opened EscrowState
  import opened EscrowSteps
  import opened ReleaseAllocation

  type RowId = string

  datatype TxHash = TxHash(n: nat)

  datatype EventStatus = DRAFT | CREATED | LIVE | JUDGING | COMPLETED | DISPUTED | CANCELLED
  datatype OpStatus = PENDING | SUCCEEDED | FAILED
  datatype PrizeStatus = UNASSIGNED | ASSIGNED | RELEASED

  datatype EventRow = EventRow(status: EventStatus, escrowEventId: Option<EventId>)

  /** hostFunction stands for the encoded call; the encoding is injective. */
  datatype CreateBuild = CreateBuild(hostFunction: Call, source: Address, escrowEventId: EventId, reward: i128)
  datatype StartBuild = StartBuild(hostFunction: Call, source: Address, judgingDeadline: nat, fee: i128)
  datatype ReleaseBuild = ReleaseBuild(hostFunction: Call, source: Address, winners: seq<ReleaseWinner>)

  /** One row per event and kind of operation; a rebuild overwrites it. */
  datatype Op<B> = Op(status: OpStatus, build: B, lastError: Option<string>)

  datatype PrizeRow = PrizeRow(event: RowId, status: PrizeStatus, winnerTeam: Option<string>, releaseTx: Option<TxHash>)

  datatype PayoutRow = PayoutRow(prizeId: string, memberId: string, txHash: TxHash, stroops: i128)

  datatype Db = Db(
    events: map<RowId, EventRow>,
    creates: map<RowId, Op<CreateBuild>>,
    starts: map<RowId, Op<StartBuild>>,
    releases: map<RowId, Op<ReleaseBuild>>,
    prizes: map<string, PrizeRow>,
    payouts: seq<PayoutRow>)

  datatype StoreError =
    | NotFound
    | AlreadySucceeded
    | WrongStatus(status: EventStatus)
    | AlreadyOnChain
    | NotOnChain
    | CreateBuildReplaced
    | StartBuildReplaced
    | ReleaseNotPending
    | ForeignPrize(prizeId: string)
    | UniqueViolation

  // ------------------------------------------------------------------
  // create_event
  // ------------------------------------------------------------------

  predicate Succeeded<B>(ops: map<RowId, Op<B>>, row: RowId)
  {
    row in ops && ops[row].status == SUCCEEDED
  }

  function SaveCreate(db: Db, row: RowId, build: CreateBuild): Result<Db, StoreError>
  {
    if Succeeded(db.creates, row) then Failure(AlreadySucceeded)
    else if row !in db.events then Failure(NotFound)
    else if db.events[row].status != DRAFT then Failure(WrongStatus(db.events[row].status))
    else if db.events[row].escrowEventId.Some? then Failure(AlreadyOnChain)
    else Success(db.(creates := db.creates[row := Op(PENDING, build, None)]))
  }

  /** No other row has the id. */
  predicate IdFree(events: map<RowId, EventRow>, row: RowId, id: EventId)
  {
    forall r :: r in events && r != row ==> events[r].escrowEventId != Some(id)
  }

  function ConfirmCreate(db: Db, row: RowId, id: EventId): Result<Db, StoreError>
  {
    if row !in db.creates || db.creates[row].status != PENDING || db.creates[row].build.escrowEventId != id
    then Failure(CreateBuildReplaced)
    else if row !in db.events then Failure(NotFound)
    else if db.events[row].status != DRAFT then Failure(WrongStatus(db.events[row].status))
    else if !IdFree(db.events, row, id) then Failure(UniqueViolation)
    else Success(db.(creates := db.creates[row := db.creates[row].(status := SUCCEEDED)],
                     events := db.events[row := EventRow(CREATED, Some(id))]))
  }

  /** Whatever status the operation has; the build stays. */
  function Fail<B>(ops: map<RowId, Op<B>>, row: RowId, reason: string): Result<map<RowId, Op<B>>, StoreError>
  {
    if row !in ops then Failure(NotFound)
    else Success(ops[row := ops[row].(status := FAILED, lastError := Some(reason))])
  }

  // ------------------------------------------------------------------
  // set_event_in_progress
  // ------------------------------------------------------------------

  function SaveStart(db: Db, row: RowId, build: StartBuild): Result<Db, StoreError>
  {
    if Succeeded(db.starts, row) then Failure(AlreadySucceeded)
    else if row !in db.events then Failure(NotFound)
    else if db.events[row].status != CREATED then Failure(WrongStatus(db.events[row].status))
    else if db.events[row].escrowEventId.None? then Failure(NotOnChain)
    else Success(db.(starts := db.starts[row := Op(PENDING, build, None)]))
  }

  function ConfirmStart(db: Db, row: RowId, hostFunction: Call): Result<Db, StoreError>
  {
    if row !in db.starts || db.starts[row].status != PENDING || db.starts[row].build.hostFunction != hostFunction
    then Failure(StartBuildReplaced)
    else if row !in db.events then Failure(NotFound)
    else if db.events[row].status != CREATED then Failure(WrongStatus(db.events[row].status))
    else Success(db.(starts := db.starts[row := db.starts[row].(status := SUCCEEDED)],
                     events := db.events[row := db.events[row].(status := LIVE)]))
  }

  // ------------------------------------------------------------------
  // release_reward
  // ------------------------------------------------------------------

  predicate Names(winners: seq<ReleaseWinner>, prizeId: string)
  {
    exists i :: 0 <= i < |winners| && winners[i].prizeId == prizeId
  }

  /** The team of the first winner of a prize. */
  function FirstTeam(winners: seq<ReleaseWinner>, prizeId: string): string
    requires Names(winners, prizeId)
  {
    var n := |winners| - 1;
    if Names(winners[..n], prizeId) then FirstTeam(winners[..n], prizeId)
    else winners[n].teamId
  }

  predicate PrizesBelong(prizes: map<string, PrizeRow>, row: RowId, winners: seq<ReleaseWinner>)
  {
    forall i :: 0 <= i < |winners| ==> winners[i].prizeId in prizes && prizes[winners[i].prizeId].event == row
  }

  /** Every prize that is won is assigned to its winner's team. */
  function Assigned(prizes: map<string, PrizeRow>, winners: seq<ReleaseWinner>): map<string, PrizeRow>
  {
    map p | p in prizes ::
      if Names(winners, p) then prizes[p].(winnerTeam := Some(FirstTeam(winners, p)), status := ASSIGNED) else prizes[p]
  }

  function SaveRelease(db: Db, row: RowId, build: ReleaseBuild): Result<Db, StoreError>
  {
    if Succeeded(db.releases, row) then Failure(AlreadySucceeded)
    else if row !in db.events then Failure(NotFound)
    else if db.events[row].status != JUDGING then Failure(WrongStatus(db.events[row].status))
    else if !PrizesBelong(db.prizes, row, build.winners) then Failure(ForeignPrize(row))
    else Success(db.(releases := db.releases[row := Op(PENDING, build, None)],
                     prizes := Assigned(db.prizes, build.winners)))
  }

  /** Every prize that is won is released by the transaction. */
  function Released(prizes: map<string, PrizeRow>, winners: seq<ReleaseWinner>, tx: TxHash): map<string, PrizeRow>
  {
    map p | p in prizes ::
      if Names(winners, p) then prizes[p].(status := RELEASED, releaseTx := Some(tx)) else prizes[p]
  }

  function PayoutFor(w: ReleaseWinner, tx: TxHash): PayoutRow
  {
    PayoutRow(w.prizeId, w.memberId, tx, w.stroops)
  }

  /** One payout per winner. */
  function PayoutsOf(winners: seq<ReleaseWinner>, tx: TxHash): (p: seq<PayoutRow>)
    ensures |p| == |winners|
    ensures forall i :: 0 <= i < |p| ==> p[i] == PayoutFor(winners[i], tx)
  {
    seq(|winners|, i requires 0 <= i < |winners| => PayoutFor(winners[i], tx))
  }

  /** Two rows clash on (prize, transaction, member). */
  predicate Clash(a: PayoutRow, b: PayoutRow)
  {
    a.prizeId == b.prizeId && a.txHash == b.txHash && a.memberId == b.memberId
  }

  predicate ClashesWith(payouts: seq<PayoutRow>, p: PayoutRow)
  {
    exists k :: 0 <= k < |payouts| && Clash(payouts[k], p)
  }

  /** Every payout refers to an existing prize and clashes with none before it. */
  predicate Insertable(prizes: map<string, PrizeRow>, payouts: seq<PayoutRow>, winners: seq<ReleaseWinner>, tx: TxHash)
  {
    winners == [] ||
    var n := |winners| - 1;
    && Insertable(prizes, payouts, winners[..n], tx)
    && winners[n].prizeId in prizes
    && !ClashesWith(payouts + PayoutsOf(winners[..n], tx), PayoutFor(winners[n], tx))
  }

  /** An update of a row that may be missing. */
  function Completed(events: map<RowId, EventRow>, row: RowId): map<RowId, EventRow>
  {
    if row in events then events[row := events[row].(status := COMPLETED)] else events
  }

  /** Keyed on the status alone; the event is completed whatever its status. */
  function ConfirmRelease(db: Db, row: RowId, tx: TxHash): Result<Db, StoreError>
  {
    if row !in db.releases || db.releases[row].status != PENDING then Failure(ReleaseNotPending)
    else
      var winners := db.releases[row].build.winners;
      if !Insertable(db.prizes, db.payouts, winners, tx) then Failure(UniqueViolation)
      else
        Success(db.(releases := db.releases[row := db.releases[row].(status := SUCCEEDED)],
                    prizes := Released(db.prizes, winners, tx),
                    payouts := db.payouts + PayoutsOf(winners, tx),
                    events := Completed(db.events, row)))
  }

  // ------------------------------------------------------------------
  // State machine
  // ------------------------------------------------------------------

  /** The transitions an event may make. */
  predicate CanTransition(from: EventStatus, to: EventStatus)
  {
    match from
    case DRAFT => to == CREATED
    case CREATED => to == LIVE || to == DISPUTED || to == CANCELLED
    case LIVE => to == JUDGING || to == DISPUTED || to == CANCELLED
    case JUDGING => to == COMPLETED || to == DISPUTED || to == CANCELLED
    case COMPLETED => false
    case DISPUTED => to == COMPLETED || to == CANCELLED
    case CANCELLED => false
  }

  /** A guarded update: only from the expected status. */
  function Transition(db: Db, row: RowId, from: EventStatus, to: EventStatus): Result<Db, StoreError>
  {
    if !CanTransition(from, to) then Failure(WrongStatus(from))
    else if row !in db.events then Failure(NotFound)
    else if db.events[row].status != from then Failure(WrongStatus(db.events[row].status))
    else Success(db.(events := db.events[row := db.events[row].(status := to)]))
  }
}
