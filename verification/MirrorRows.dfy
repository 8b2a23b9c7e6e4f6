/**
 Each transaction of the store in terms of single rows and fields: exactly when it commits,
 and what every row says afterwards.
 */
module MirrorRows {
  import opened Wrappers
  import opened EscrowState
  import opened EscrowSteps
  import opened ReleaseAllocation
  import opened MirrorDb
  import opened Mirror

  /** A table with one row written. */
  predicate OneRow<K(==), V(==)>(m: map<K, V>, m': map<K, V>, k: K, v: V)
  {
    k in m' && m'[k] == v && m'.Keys == m.Keys + {k} && forall i :: i in m && i != k ==> m'[i] == m[i]
  }

  // ------------------------------------------------------------------
  // create_event
  // ------------------------------------------------------------------

  lemma SaveCreateRows(db: Db, row: RowId, build: CreateBuild)
    ensures var r := SaveCreate(db, row, build);
      && (r.Success? <==>
            && row in db.events && db.events[row].status == DRAFT && db.events[row].escrowEventId == None
            && (row in db.creates ==> db.creates[row].status != SUCCEEDED))
      && (r.Success? ==>
            && r.value == db.(creates := r.value.creates)
            && OneRow(db.creates, r.value.creates, row, Op(PENDING, build, None)))
  {}

  /** The id is written once, for the build that is pending, and to no second row. */
  lemma ConfirmCreateRows(db: Db, row: RowId, id: EventId)
    ensures var r := ConfirmCreate(db, row, id);
      && (r.Success? <==>
            && row in db.creates && db.creates[row].status == PENDING && db.creates[row].build.escrowEventId == id
            && row in db.events && db.events[row].status == DRAFT
            && forall other :: other in db.events && other != row ==> db.events[other].escrowEventId != Some(id))
      && (r.Success? ==>
            && r.value == db.(creates := r.value.creates, events := r.value.events)
            && OneRow(db.creates, r.value.creates, row, Op(SUCCEEDED, db.creates[row].build, db.creates[row].lastError))
            && OneRow(db.events, r.value.events, row, EventRow(CREATED, Some(id))))
  {}

  // ------------------------------------------------------------------
  // set_event_in_progress
  // ------------------------------------------------------------------

  lemma SaveStartRows(db: Db, row: RowId, build: StartBuild)
    ensures var r := SaveStart(db, row, build);
      && (r.Success? <==>
            && row in db.events && db.events[row].status == CREATED && db.events[row].escrowEventId.Some?
            && (row in db.starts ==> db.starts[row].status != SUCCEEDED))
      && (r.Success? ==>
            && r.value == db.(starts := r.value.starts)
            && OneRow(db.starts, r.value.starts, row, Op(PENDING, build, None)))
  {}

  lemma ConfirmStartRows(db: Db, row: RowId, hostFunction: Call)
    ensures var r := ConfirmStart(db, row, hostFunction);
      && (r.Success? <==>
            && row in db.starts && db.starts[row].status == PENDING && db.starts[row].build.hostFunction == hostFunction
            && row in db.events && db.events[row].status == CREATED)
      && (r.Success? ==>
            && r.value == db.(starts := r.value.starts, events := r.value.events)
            && OneRow(db.starts, r.value.starts, row, Op(SUCCEEDED, db.starts[row].build, db.starts[row].lastError))
            && OneRow(db.events, r.value.events, row, EventRow(LIVE, db.events[row].escrowEventId)))
  {}

  /** A failure is recorded over any status. */
  lemma FailRows<B>(ops: map<RowId, Op<B>>, row: RowId, reason: string)
    ensures var r := Fail(ops, row, reason);
      && (r.Success? <==> row in ops)
      && (r.Success? ==> OneRow(ops, r.value, row, Op(FAILED, ops[row].build, Some(reason))))
  {}

  // ------------------------------------------------------------------
  // release_reward
  // ------------------------------------------------------------------

  /** The i-th line is the first one for its prize. */
  predicate FirstFor(winners: seq<ReleaseWinner>, i: nat)
    requires i < |winners|
  {
    forall k :: 0 <= k < i ==> winners[k].prizeId != winners[i].prizeId
  }

  lemma {:induction false} FirstForTeam(winners: seq<ReleaseWinner>, i: nat)
    requires i < |winners| && FirstFor(winners, i)
    ensures Names(winners, winners[i].prizeId) && FirstTeam(winners, winners[i].prizeId) == winners[i].teamId
  {
    var n := |winners| - 1;
    if i < n {
      FirstForTeam(winners[..n], i);
    }
  }

  predicate ReleaseSavable(db: Db, row: RowId, winners: seq<ReleaseWinner>)
  {
    && row in db.events && db.events[row].status == JUDGING
    && (row in db.releases ==> db.releases[row].status != SUCCEEDED)
    && forall i :: 0 <= i < |winners| ==> winners[i].prizeId in db.prizes && db.prizes[winners[i].prizeId].event == row
  }

  /** Each prize goes to the team of its first line; prizes without a line stay as they are. */
  lemma SaveReleaseRows(db: Db, row: RowId, build: ReleaseBuild)
    ensures SaveRelease(db, row, build).Success? <==> ReleaseSavable(db, row, build.winners)
    ensures SaveRelease(db, row, build).Success? ==>
              var w, db' := build.winners, SaveRelease(db, row, build).value;
              && db' == db.(releases := db'.releases, prizes := db'.prizes)
              && OneRow(db.releases, db'.releases, row, Op(PENDING, build, None))
              && db'.prizes.Keys == db.prizes.Keys
              && (forall i :: 0 <= i < |w| && FirstFor(w, i) ==>
                    db'.prizes[w[i].prizeId]
                    == PrizeRow(row, ASSIGNED, Some(w[i].teamId), db.prizes[w[i].prizeId].releaseTx))
              && (forall p :: p in db.prizes && (forall i :: 0 <= i < |w| ==> w[i].prizeId != p) ==>
                    db'.prizes[p] == db.prizes[p])
  {
    hide FirstTeam;
    var w := build.winners;
    if SaveRelease(db, row, build).Success? {
      var db' := SaveRelease(db, row, build).value;
      forall i | 0 <= i < |w| && FirstFor(w, i)
        ensures db'.prizes[w[i].prizeId]
                == PrizeRow(row, ASSIGNED, Some(w[i].teamId), db.prizes[w[i].prizeId].releaseTx)
      {
        FirstForTeam(w, i);
      }
    }
  }

  /** No two lines are for the same prize and member. */
  predicate LinesDistinct(winners: seq<ReleaseWinner>)
  {
    forall i, j :: 0 <= i < j < |winners| ==>
      winners[i].prizeId != winners[j].prizeId || winners[i].memberId != winners[j].memberId
  }

  /** No payout of this transaction is for the prize and member of a line. */
  predicate NotPaid(payouts: seq<PayoutRow>, winners: seq<ReleaseWinner>, tx: TxHash)
  {
    forall k, i :: 0 <= k < |payouts| && 0 <= i < |winners| ==>
      || payouts[k].txHash != tx
      || payouts[k].prizeId != winners[i].prizeId
      || payouts[k].memberId != winners[i].memberId
  }

  predicate PrizesExist(prizes: map<string, PrizeRow>, winners: seq<ReleaseWinner>)
  {
    forall i :: 0 <= i < |winners| ==> winners[i].prizeId in prizes
  }

  lemma {:induction false} InsertableIff(prizes: map<string, PrizeRow>, payouts: seq<PayoutRow>,
                                         winners: seq<ReleaseWinner>, tx: TxHash)
    ensures Insertable(prizes, payouts, winners, tx) <==>
              PrizesExist(prizes, winners) && LinesDistinct(winners) && NotPaid(payouts, winners, tx)
  {
    hide ClashesWith;
    if winners != [] {
      var n := |winners| - 1;
      InsertableIff(prizes, payouts, winners[..n], tx);
      LastClashes(payouts, winners, tx);
      LastLine(prizes, payouts, winners, tx);
    }
  }

  lemma LastClashes(payouts: seq<PayoutRow>, winners: seq<ReleaseWinner>, tx: TxHash)
    requires winners != []
    ensures var n := |winners| - 1;
      ClashesWith(payouts + PayoutsOf(winners[..n], tx), PayoutFor(winners[n], tx)) <==>
        LinePaid(payouts, winners[n], tx) || LineRepeated(winners[..n], winners[n])
  {
    var n := |winners| - 1;
    var all, p := payouts + PayoutsOf(winners[..n], tx), PayoutFor(winners[n], tx);
    if ClashesWith(all, p) {
      var k :| 0 <= k < |all| && Clash(all[k], p);
      if k >= |payouts| {
        assert all[k] == PayoutFor(winners[..n][k - |payouts|], tx);
      }
    }
    if LinePaid(payouts, winners[n], tx) {
      var k :| 0 <= k < |payouts| && PaysLine(payouts[k], winners[n], tx);
      assert Clash(all[k], p);
    }
    if LineRepeated(winners[..n], winners[n]) {
      var i :| 0 <= i < n && SameLine(winners[..n][i], winners[n]);
      assert all[|payouts| + i] == PayoutFor(winners[..n][i], tx);
    }
  }

  predicate PaysLine(p: PayoutRow, w: ReleaseWinner, tx: TxHash)
  {
    p.txHash == tx && p.prizeId == w.prizeId && p.memberId == w.memberId
  }

  predicate LinePaid(payouts: seq<PayoutRow>, w: ReleaseWinner, tx: TxHash)
  {
    exists k :: 0 <= k < |payouts| && PaysLine(payouts[k], w, tx)
  }

  predicate SameLine(v: ReleaseWinner, w: ReleaseWinner)
  {
    v.prizeId == w.prizeId && v.memberId == w.memberId
  }

  predicate LineRepeated(winners: seq<ReleaseWinner>, w: ReleaseWinner)
  {
    exists i :: 0 <= i < |winners| && SameLine(winners[i], w)
  }

  lemma LastLine(prizes: map<string, PrizeRow>, payouts: seq<PayoutRow>, winners: seq<ReleaseWinner>, tx: TxHash)
    requires winners != []
    ensures var n := |winners| - 1;
      && (PrizesExist(prizes, winners) <==> PrizesExist(prizes, winners[..n]) && winners[n].prizeId in prizes)
      && (LinesDistinct(winners) <==> LinesDistinct(winners[..n]) && !LineRepeated(winners[..n], winners[n]))
      && (NotPaid(payouts, winners, tx) <==> NotPaid(payouts, winners[..n], tx) && !LinePaid(payouts, winners[n], tx))
  {
    ExistLast(prizes, winners);
    DistinctLast(winners);
    NotPaidLast(payouts, winners, tx);
  }

  lemma ExistLast(prizes: map<string, PrizeRow>, winners: seq<ReleaseWinner>)
    requires winners != []
    ensures var n := |winners| - 1;
      PrizesExist(prizes, winners) <==> PrizesExist(prizes, winners[..n]) && winners[n].prizeId in prizes
  {
    var n := |winners| - 1;
    assert winners == winners[..n] + [winners[n]];
  }

  lemma DistinctLast(winners: seq<ReleaseWinner>)
    requires winners != []
    ensures var n := |winners| - 1;
      LinesDistinct(winners) <==> LinesDistinct(winners[..n]) && !LineRepeated(winners[..n], winners[n])
  {
    var n := |winners| - 1;
    if !LinesDistinct(winners) {
      var i, j :| 0 <= i < j < |winners| && SameLine(winners[i], winners[j]);
      assert SameLine(winners[..n][i], winners[j]);
    }
  }

  lemma NotPaidLast(payouts: seq<PayoutRow>, winners: seq<ReleaseWinner>, tx: TxHash)
    requires winners != []
    ensures var n := |winners| - 1;
      NotPaid(payouts, winners, tx) <==> NotPaid(payouts, winners[..n], tx) && !LinePaid(payouts, winners[n], tx)
  {
    var n := |winners| - 1;
    if !NotPaid(payouts, winners, tx) {
      var k, i :| 0 <= k < |payouts| && 0 <= i < |winners| && PaysLine(payouts[k], winners[i], tx);
      assert i < n ==> winners[..n][i] == winners[i];
    }
  }

  /** A pending release commits exactly if its prizes exist and none of its lines is paid twice in the transaction. */
  lemma ReleaseCommits(db: Db, row: RowId, tx: TxHash)
    ensures ConfirmRelease(db, row, tx).Success? <==>
              && row in db.releases && db.releases[row].status == PENDING
              && var w := db.releases[row].build.winners;
                 PrizesExist(db.prizes, w) && LinesDistinct(w) && NotPaid(db.payouts, w, tx)
  {
    hide PrizesExist, LinesDistinct, NotPaid, Insertable;
    if row in db.releases {
      InsertableIff(db.prizes, db.payouts, db.releases[row].build.winners, tx);
    }
  }

  /** So a new transaction is always recorded. */
  lemma NewReleaseCommits(db: Db, row: RowId, tx: TxHash)
    requires row in db.releases && db.releases[row].status == PENDING
    requires PrizesExist(db.prizes, db.releases[row].build.winners) && LinesDistinct(db.releases[row].build.winners)
    requires forall k :: 0 <= k < |db.payouts| ==> db.payouts[k].txHash != tx
    ensures ConfirmRelease(db, row, tx).Success?
  {
    ReleaseCommits(db, row, tx);
  }

  /** One payout row per line, field by field; the prizes of the lines are released by the transaction. */
  lemma ReleaseRows(db: Db, row: RowId, tx: TxHash)
    requires ConfirmRelease(db, row, tx).Success?
    ensures var db', w, n := ConfirmRelease(db, row, tx).value, db.releases[row].build.winners, |db.payouts|;
      && |db'.payouts| == n + |w| && db'.payouts[..n] == db.payouts
      && forall i :: 0 <= i < |w| ==>
           var p := db'.payouts[n..][i];
           p.prizeId == w[i].prizeId && p.memberId == w[i].memberId && p.stroops == w[i].stroops && p.txHash == tx
    ensures var db', w := ConfirmRelease(db, row, tx).value, db.releases[row].build.winners;
      && db'.prizes.Keys == db.prizes.Keys
      && (forall i :: 0 <= i < |w| ==>
            var p := w[i].prizeId;
            p in db.prizes
            && db'.prizes[p] == PrizeRow(db.prizes[p].event, RELEASED, db.prizes[p].winnerTeam, Some(tx)))
      && (forall p :: p in db.prizes && (forall i :: 0 <= i < |w| ==> w[i].prizeId != p) ==>
            db'.prizes[p] == db.prizes[p])
    ensures var db' := ConfirmRelease(db, row, tx).value;
      && OneRow(db.releases, db'.releases, row, Op(SUCCEEDED, db.releases[row].build, db.releases[row].lastError))
      && (if row in db.events
          then OneRow(db.events, db'.events, row, EventRow(COMPLETED, db.events[row].escrowEventId))
          else db'.events == db.events)
      && db'.creates == db.creates && db'.starts == db.starts
  {
    ReleaseCommits(db, row, tx);
    hide Insertable, ClashesWith, LinesDistinct, NotPaid;
    var db', w := ConfirmRelease(db, row, tx).value, db.releases[row].build.winners;
    forall i | 0 <= i < |w|
      ensures var p := w[i].prizeId;
        p in db.prizes
        && db'.prizes[p] == PrizeRow(db.prizes[p].event, RELEASED, db.prizes[p].winnerTeam, Some(tx))
    {
      assert Names(w, w[i].prizeId);
    }
    assert db'.payouts[|db.payouts|..] == PayoutsOf(w, tx);
  }

  // ------------------------------------------------------------------
  // Handlers
  // ------------------------------------------------------------------

  /** The envelope carries a signature, and account and call of the saved build. */
  predicate SignedFor<B>(ops: map<RowId, Op<B>>, row: RowId, e: Envelope, source: Address, hostFunction: Call)
  {
    row in ops && ops[row].status == PENDING && e.signatures > 0 && e.source == source && e.hostFunction == hostFunction
  }

  /** A submit proceeds exactly with a pending build that the envelope signs, on a row in the right status. */
  lemma SubmitLoads(db: Db, row: RowId, e: Envelope)
    ensures LoadSubmit(db, row, CREATE, e).Some? <==>
              && row in db.events && db.events[row].status == DRAFT && db.events[row].escrowEventId == None
              && row in db.creates
              && SignedFor(db.creates, row, e, db.creates[row].build.source, db.creates[row].build.hostFunction)
    ensures LoadSubmit(db, row, START, e).Some? <==>
              && row in db.events && db.events[row].status == CREATED && db.events[row].escrowEventId.Some?
              && row in db.starts
              && SignedFor(db.starts, row, e, db.starts[row].build.source, db.starts[row].build.hostFunction)
    ensures LoadSubmit(db, row, RELEASE, e).Some? <==>
              && row in db.events && db.events[row].status == JUDGING && db.events[row].escrowEventId.Some?
              && row in db.releases
              && SignedFor(db.releases, row, e, db.releases[row].build.source, db.releases[row].build.hostFunction)
    ensures forall kind :: LoadSubmit(db, row, kind, e).Some? ==>
              LoadSubmit(db, row, kind, e).value == match kind
                case CREATE => CreateSubmitting(row, db.creates[row].build)
                case START => StartSubmitting(row, db.starts[row].build)
                case RELEASE => ReleaseSubmitting(row, db.releases[row].build)
  {}

  /** A failed submit marks the operation of its own kind, and changes nothing else. */
  lemma FailureRows(db: Db, row: RowId, reason: string)
    ensures RecordFailure(db, row, CREATE, reason) ==
            if row in db.creates
            then db.(creates := db.creates[row := Op(FAILED, db.creates[row].build, Some(reason))]) else db
    ensures RecordFailure(db, row, START, reason) ==
            if row in db.starts
            then db.(starts := db.starts[row := Op(FAILED, db.starts[row].build, Some(reason))]) else db
    ensures RecordFailure(db, row, RELEASE, reason) ==
            if row in db.releases
            then db.(releases := db.releases[row := Op(FAILED, db.releases[row].build, Some(reason))]) else db
  {}

  /** What a build handler asks the chain for: the caller's own terms on the event that the row mirrors. */
  lemma BuildLaunches(w: World, flight: nat, row: RowId, organizer: Address, judge: Address, resolver: Address,
                      token: Address, reward: i128, id: EventId, judgingDeadline: nat, fee: i128,
                      winners: seq<Winner>, rows: seq<ReleaseWinner>)
    requires flight !in w.flights && row in w.db.events
    ensures var f := Act(w, BuildCreate(flight, row, organizer, judge, resolver, token, reward, id)).flights;
      if w.db.events[row] == EventRow(DRAFT, None)
      then f == w.flights[flight := CreateBuilding(row, CreateBuild(
                  CreateEvent(organizer, judge, Some(resolver), token, reward, id, None), organizer, id, reward))]
      else f == w.flights
    ensures var f, e := Act(w, BuildStart(flight, row, organizer, judgingDeadline, fee)).flights, w.db.events[row];
      if e.status == CREATED && e.escrowEventId.Some?
      then f == w.flights[flight := StartBuilding(row, StartBuild(
                  SetEventInProgress(organizer, e.escrowEventId.value, judgingDeadline), organizer, judgingDeadline,
                  fee))]
      else f == w.flights
    ensures var f, e := Act(w, BuildRelease(flight, row, judge, winners, rows)).flights, w.db.events[row];
      if e.status == JUDGING && e.escrowEventId.Some?
      then f == w.flights[flight := ReleaseBuilding(row, ReleaseBuild(
                  ReleaseReward(judge, e.escrowEventId.value, winners), judge, rows))]
      else f == w.flights
  {}

  // ------------------------------------------------------------------
  // Off chain
  // ------------------------------------------------------------------

  /** Twelve transitions are allowed, and only from the status the row is in. */
  lemma TransitionRows(db: Db, row: RowId, from: EventStatus, to: EventStatus)
    ensures var r := Transition(db, row, from, to);
      && (r.Success? <==>
            && row in db.events && db.events[row].status == from
            && (from, to) in {(DRAFT, CREATED), (CREATED, LIVE), (CREATED, DISPUTED), (CREATED, CANCELLED),
                              (LIVE, JUDGING), (LIVE, DISPUTED), (LIVE, CANCELLED), (JUDGING, COMPLETED),
                              (JUDGING, DISPUTED), (JUDGING, CANCELLED), (DISPUTED, COMPLETED), (DISPUTED, CANCELLED)})
      && (r.Success? ==>
            && r.value == db.(events := r.value.events)
            && OneRow(db.events, r.value.events, row, EventRow(to, db.events[row].escrowEventId)))
  {}
}
