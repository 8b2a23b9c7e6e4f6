/**
 What was paid: after any interleaving, a completed event has exactly one payout row for
 each line of its saved release, and the transaction they name is a confirmed release of
 the event that the row mirrors.
 */
module MirrorPayouts {
  import opened Wrappers
  import opened EscrowState
  import opened EscrowSteps
  import opened EscrowHistory
  import opened ReleaseAllocation
  import opened MirrorDb
  import opened Mirror

  /** The transaction is a confirmed release of the row's event, and paid the lines of its saved build. */
  ghost predicate PaidBy(w: World, row: RowId, tx: TxHash)
  {
    && row in w.db.events && row in w.db.releases && tx in w.confirmed
    && w.confirmed[tx].ReleaseReward? && w.db.events[row].escrowEventId == Some(w.confirmed[tx].id)
    && PaysLines(EventPayouts(w.db, row), w.db.releases[row].build.winners, tx)
  }

  ghost predicate Paid(w: World, row: RowId)
  {
    exists tx :: PaidBy(w, row, tx)
  }

  // ------------------------------------------------------------------
  // Completed events
  // ------------------------------------------------------------------

  /** The release build of a completed event, and what is confirmed, stay. */
  lemma CompletedKeeps(w: World, action: Action, row: RowId)
    requires RowIs(w.db, row, COMPLETED) && row in w.db.releases
    ensures var w' := Act(w, action);
      row in w'.db.releases && w'.db.releases[row].build == w.db.releases[row].build
  {
    hide LoadSubmit, After, SaveBuild, RecordSuccess, Next;
    match action
    case Confirm(flight, tx) => if flight in w.flights { SuccessKeepsBuild(w.db, w.flights[flight], tx, row); }
    case Save(flight) => if flight in w.flights { SaveKeepsBuild(w.db, w.flights[flight], row); }
    case _ => {}
  }

  lemma SuccessKeepsBuild(db: Db, f: Flight, tx: TxHash, row: RowId)
    requires row in db.releases
    ensures var db' := RecordSuccess(db, f, tx);
      row in db'.releases && db'.releases[row].build == db.releases[row].build
  {
    hide Insertable, Released, IdFree;
  }

  lemma SaveKeepsBuild(db: Db, f: Flight, row: RowId)
    requires RowIs(db, row, COMPLETED) && row in db.releases
    ensures var db' := SaveBuild(db, f);
      row in db'.releases && db'.releases[row] == db.releases[row]
  {
    hide Assigned, PrizesBelong;
  }

  lemma ConfirmedStays(w: World, action: Action, tx: TxHash)
    requires tx in w.confirmed
    ensures tx in Act(w, action).confirmed && Act(w, action).confirmed[tx] == w.confirmed[tx]
  {
    hide LoadSubmit, After, SaveBuild, RecordSuccess, Next;
  }

  lemma StaysPaid(w: World, action: Action, row: RowId)
    requires Faithful(w) && RowIs(w.db, row, COMPLETED) && Paid(w, row)
    ensures Paid(Act(w, action), row)
  {
    var tx :| PaidBy(w, row, tx);
    ActCompleted(w, action, row);
    ActKeepsFaith(w, action);
    CompletedKeeps(w, action, row);
    ConfirmedStays(w, action, tx);
    hide Act, Faithful, EventPayouts, PaysLines;
    assert PaidBy(Act(w, action), row, tx);
  }

  /** Only a confirmed release completes an event. */
  lemma CompletedBy(w: World, action: Action, row: RowId)
    requires !RowIs(w.db, row, COMPLETED) && RowIs(Act(w, action).db, row, COMPLETED)
    ensures action.Confirm? && action.flight in w.flights && action.tx in w.confirmed
    ensures var f := w.flights[action.flight];
      && f.ReleaseSubmitting? && f.row == row && w.confirmed[action.tx] == f.release.hostFunction
      && ConfirmRelease(w.db, row, action.tx).Success?
      && Act(w, action).db == ConfirmRelease(w.db, row, action.tx).value
      && Act(w, action).confirmed == w.confirmed
  {
    hide LoadSubmit, After, Next, SaveBuild, ConfirmRelease, ConfirmCreate, ConfirmStart;
    match action
    case Confirm(flight, tx) => if flight in w.flights { SuccessCompletes(w.db, w.flights[flight], tx, row); }
    case Save(flight) => if flight in w.flights { SaveKeepsEvents(w.db, w.flights[flight]); }
    case _ => {}
  }

  lemma SuccessCompletes(db: Db, f: Flight, tx: TxHash, row: RowId)
    requires !RowIs(db, row, COMPLETED) && RowIs(RecordSuccess(db, f, tx), row, COMPLETED)
    ensures f.ReleaseSubmitting? && f.row == row && ConfirmRelease(db, row, tx).Success?
    ensures RecordSuccess(db, f, tx) == ConfirmRelease(db, row, tx).value
  {
    hide Insertable, Released, IdFree;
  }

  lemma BecomesPaid(w: World, action: Action, row: RowId)
    requires Faithful(w) && !RowIs(w.db, row, COMPLETED) && RowIs(Act(w, action).db, row, COMPLETED)
    ensures Paid(Act(w, action), row)
  {
    CompletedBy(w, action, row);
    var f, tx, w' := w.flights[action.flight], action.tx, Act(w, action);
    assert FlightTrue(w.db.events, f);
    ReleasePayouts(w.db, row, tx, w'.db, row);
    SuccessKeepsBuild(w.db, f, tx, row);
    ReleasedKeepsId(w.db, row, tx);
    hide Act, EventPayouts, Faithful, ConfirmRelease;
    assert PaidBy(w', row, tx);
  }

  lemma ReleasedKeepsId(db: Db, row: RowId, tx: TxHash)
    requires row in db.events && ConfirmRelease(db, row, tx).Success?
    ensures var db' := ConfirmRelease(db, row, tx).value;
      row in db'.events && db'.events[row].escrowEventId == db.events[row].escrowEventId
  {
    hide Insertable, Released;
  }

  // ------------------------------------------------------------------
  // Main result
  // ------------------------------------------------------------------

  /** In every interleaving, every completed event is paid, line by line, by a confirmed release. */
  lemma {:induction false} CompletedIsPaid(w: World, actions: seq<Action>, row: RowId)
    requires Beginning(w)
    ensures Faithful(RunActions(w, actions))
    ensures RowIs(RunActions(w, actions).db, row, COMPLETED) ==> Paid(RunActions(w, actions), row)
  {
    NeverAhead(w, actions);
    if actions != [] {
      hide Faithful, Act, Paid;
      var n := |actions| - 1;
      CompletedIsPaid(w, actions[..n], row);
      var before, action := RunActions(w, actions[..n]), actions[n];
      if RowIs(before.db, row, COMPLETED) {
        StaysPaid(before, action, row);
      } else if RowIs(Act(before, action).db, row, COMPLETED) {
        BecomesPaid(before, action, row);
      }
    }
  }
}
