/**
 The store: each method is one database transaction over tables that it updates in
 place, and rolls back on an error.
 */
module Postgres {
  import opened Wrappers
  import opened EscrowState
  import opened EscrowSteps
  import opened ReleaseAllocation
  import opened MirrorDb
  import MirrorRows

  class Postgres {
    var events: map<RowId, EventRow>
    var creates: map<RowId, Op<CreateBuild>>
    var starts: map<RowId, Op<StartBuild>>
    var releases: map<RowId, Op<ReleaseBuild>>
    var prizes: map<string, PrizeRow>
    var payouts: seq<PayoutRow>

    ghost function State(): Db
      reads this
    {
      Db(events, creates, starts, releases, prizes, payouts)
    }

    constructor ()
      ensures State() == Db(map[], map[], map[], map[], map[], [])
    {
      events, creates, starts, releases, prizes, payouts := map[], map[], map[], map[], map[], [];
    }

    // ----------------------------------------------------------------
    // create_event
    // ----------------------------------------------------------------

    method SaveCreateBuild(row: RowId, build: CreateBuild) returns (error: Option<StoreError>)
      modifies this`creates
      ensures error.Some? ==> SaveCreate(old(State()), row, build) == Failure(error.value) && State() == old(State())
      ensures error.None? ==> SaveCreate(old(State()), row, build) == Success(State())
    {
      if row in creates && creates[row].status == SUCCEEDED {
        return Some(AlreadySucceeded);
      }
      if row !in events {
        return Some(NotFound);
      }
      if events[row].status != DRAFT {
        return Some(WrongStatus(events[row].status));
      }
      if events[row].escrowEventId.Some? {
        return Some(AlreadyOnChain);
      }
      creates := creates[row := Op(PENDING, build, None)];
      return None;
    }

    method MarkCreateSucceeded(row: RowId, id: EventId) returns (error: Option<StoreError>)
      modifies this`creates, this`events
      ensures error.Some? ==> ConfirmCreate(old(State()), row, id) == Failure(error.value) && State() == old(State())
      ensures error.None? ==> ConfirmCreate(old(State()), row, id) == Success(State())
    {
      var creates' := creates;
      if row !in creates || creates[row].status != PENDING || creates[row].build.escrowEventId != id {
        return Some(CreateBuildReplaced);
      }
      creates := creates[row := creates[row].(status := SUCCEEDED)];
      if row !in events {
        creates := creates';
        return Some(NotFound);
      }
      if events[row].status != DRAFT {
        creates := creates';
        return Some(WrongStatus(events[row].status));
      }
      if exists r :: r in events && r != row && events[r].escrowEventId == Some(id) {
        creates := creates';
        return Some(UniqueViolation);
      }
      events := events[row := EventRow(CREATED, Some(id))];
      return None;
    }

    method MarkCreateFailed(row: RowId, reason: string) returns (error: Option<StoreError>)
      modifies this`creates
      ensures error.Some? ==> Fail(old(creates), row, reason) == Failure(error.value) && creates == old(creates)
      ensures error.None? ==> Fail(old(creates), row, reason) == Success(creates)
    {
      if row !in creates {
        return Some(NotFound);
      }
      creates := creates[row := creates[row].(status := FAILED, lastError := Some(reason))];
      return None;
    }

    // ----------------------------------------------------------------
    // set_event_in_progress
    // ----------------------------------------------------------------

    method SaveStartBuild(row: RowId, build: StartBuild) returns (error: Option<StoreError>)
      modifies this`starts
      ensures error.Some? ==> SaveStart(old(State()), row, build) == Failure(error.value) && State() == old(State())
      ensures error.None? ==> SaveStart(old(State()), row, build) == Success(State())
    {
      if row in starts && starts[row].status == SUCCEEDED {
        return Some(AlreadySucceeded);
      }
      if row !in events {
        return Some(NotFound);
      }
      if events[row].status != CREATED {
        return Some(WrongStatus(events[row].status));
      }
      if events[row].escrowEventId.None? {
        return Some(NotOnChain);
      }
      starts := starts[row := Op(PENDING, build, None)];
      return None;
    }

    method MarkStartSucceeded(row: RowId, hostFunction: Call) returns (error: Option<StoreError>)
      modifies this`starts, this`events
      ensures error.Some? ==>
                ConfirmStart(old(State()), row, hostFunction) == Failure(error.value) && State() == old(State())
      ensures error.None? ==> ConfirmStart(old(State()), row, hostFunction) == Success(State())
    {
      var starts' := starts;
      if row !in starts || starts[row].status != PENDING || starts[row].build.hostFunction != hostFunction {
        return Some(StartBuildReplaced);
      }
      starts := starts[row := starts[row].(status := SUCCEEDED)];
      if row !in events {
        starts := starts';
        return Some(NotFound);
      }
      if events[row].status != CREATED {
        starts := starts';
        return Some(WrongStatus(events[row].status));
      }
      events := events[row := events[row].(status := LIVE)];
      return None;
    }

    method MarkStartFailed(row: RowId, reason: string) returns (error: Option<StoreError>)
      modifies this`starts
      ensures error.Some? ==> Fail(old(starts), row, reason) == Failure(error.value) && starts == old(starts)
      ensures error.None? ==> Fail(old(starts), row, reason) == Success(starts)
    {
      if row !in starts {
        return Some(NotFound);
      }
      starts := starts[row := starts[row].(status := FAILED, lastError := Some(reason))];
      return None;
    }

    // ----------------------------------------------------------------
    // release_reward
    // ----------------------------------------------------------------

    method SaveReleaseBuild(row: RowId, build: ReleaseBuild) returns (error: Option<StoreError>)
      modifies this`releases, this`prizes
      ensures error.Some? ==> SaveRelease(old(State()), row, build).Failure? && State() == old(State())
      ensures error.None? ==> SaveRelease(old(State()), row, build) == Success(State())
    {
      hide PrizesBelong, Assigned;
      if row in releases && releases[row].status == SUCCEEDED {
        return Some(AlreadySucceeded);
      }
      if row !in events {
        return Some(NotFound);
      }
      if events[row].status != JUDGING {
        return Some(WrongStatus(events[row].status));
      }
      var releases', prizes' := releases, prizes;
      releases := releases[row := Op(PENDING, build, None)];
      var foreign := AssignPrizes(row, build.winners);
      if foreign.Some? {
        releases, prizes := releases', prizes';
        return Some(ForeignPrize(foreign.value));
      }
      return None;
    }

    /** One update per distinct prize; stops at a prize of another event. */
    method AssignPrizes(row: RowId, winners: seq<ReleaseWinner>) returns (foreign: Option<string>)
      modifies this`prizes
      ensures foreign.None? <==> PrizesBelong(old(prizes), row, winners)
      ensures foreign.None? ==> prizes == Assigned(old(prizes), winners)
    {
      var seenPrize: set<string> := {};
      for i := 0 to |winners|
        invariant forall p :: p in seenPrize <==> Names(winners[..i], p)
        invariant PrizesBelong(old(prizes), row, winners[..i])
        invariant prizes == Assigned(old(prizes), winners[..i])
      {
        var w := winners[i];
        forall p { NextName(winners, i, p); }
        if w.prizeId in seenPrize {
          OldPrizeNamed(old(prizes), row, winners, i);
          continue;
        }
        seenPrize := seenPrize + {w.prizeId};
        if w.prizeId !in prizes || prizes[w.prizeId].event != row {
          return Some(w.prizeId);
        }
        prizes := prizes[w.prizeId := prizes[w.prizeId].(winnerTeam := Some(w.teamId), status := ASSIGNED)];
      }
      assert winners[..|winners|] == winners;
      return None;
    }

    lemma NextName(winners: seq<ReleaseWinner>, i: nat, p: string)
      requires i < |winners|
      ensures Names(winners[..i + 1], p) <==> Names(winners[..i], p) || winners[i].prizeId == p
      ensures Names(winners[..i], p) ==> FirstTeam(winners[..i + 1], p) == FirstTeam(winners[..i], p)
      ensures !Names(winners[..i], p) && winners[i].prizeId == p ==> FirstTeam(winners[..i + 1], p) == winners[i].teamId
    {
      assert winners[..i + 1][..i] == winners[..i];
      if Names(winners[..i], p) {
        var k :| 0 <= k < i && winners[..i][k].prizeId == p;
        assert winners[..i + 1][k].prizeId == p;
      }
      if winners[i].prizeId == p {
        assert winners[..i + 1][i].prizeId == p;
      }
    }

    lemma OldPrizeNamed(prizes: map<string, PrizeRow>, row: RowId, winners: seq<ReleaseWinner>, i: nat)
      requires i < |winners| && Names(winners[..i], winners[i].prizeId) && PrizesBelong(prizes, row, winners[..i])
      ensures PrizesBelong(prizes, row, winners[..i + 1])
    {
      var k :| 0 <= k < i && winners[..i][k].prizeId == winners[i].prizeId;
    }

    method MarkReleaseSucceeded(row: RowId, tx: TxHash) returns (error: Option<StoreError>)
      modifies this`releases, this`prizes, this`payouts, this`events
      ensures error.Some? ==> ConfirmRelease(old(State()), row, tx) == Failure(error.value) && State() == old(State())
      ensures error.None? ==> ConfirmRelease(old(State()), row, tx) == Success(State())
      ensures error.None? ==>
                var lines, n := old(releases)[row].build.winners, |old(payouts)|;
                && |payouts| == n + |lines| && payouts[..n] == old(payouts)
                && forall i :: 0 <= i < |lines| ==>
                     var p := payouts[n..][i];
                     && p.prizeId == lines[i].prizeId && p.memberId == lines[i].memberId
                     && p.stroops == lines[i].stroops && p.txHash == tx
    {
      hide Insertable, Released;
      if ConfirmRelease(State(), row, tx).Success? { MirrorRows.ReleaseRows(State(), row, tx); }
      if row !in releases || releases[row].status != PENDING {
        return Some(ReleaseNotPending);
      }
      var releases', prizes', payouts' := releases, prizes, payouts;
      releases := releases[row := releases[row].(status := SUCCEEDED)];
      var inserted := ReleaseAndPay(releases[row].build.winners, tx);
      if !inserted {
        releases, prizes, payouts := releases', prizes', payouts';
        return Some(UniqueViolation);
      }
      if row in events {
        events := events[row := events[row].(status := COMPLETED)];
      }
      return None;
    }

    /** Marks each prize once and inserts a payout per winner; stops at a row that violates a constraint. */
    method ReleaseAndPay(winners: seq<ReleaseWinner>, tx: TxHash) returns (inserted: bool)
      modifies this`prizes, this`payouts
      ensures inserted <==> Insertable(old(prizes), old(payouts), winners, tx)
      ensures inserted ==>
                prizes == Released(old(prizes), winners, tx) && payouts == old(payouts) + PayoutsOf(winners, tx)
    {
      hide FirstTeam, ClashesWith, Released, Names;
      NothingReleased(prizes, winners, tx);
      var seenPrize: set<string> := {};
      for i := 0 to |winners|
        invariant forall p :: p in seenPrize <==> Names(winners[..i], p)
        invariant prizes == Released(old(prizes), winners[..i], tx)
        invariant payouts == old(payouts) + PayoutsOf(winners[..i], tx)
        invariant Insertable(old(prizes), old(payouts), winners[..i], tx)
      {
        var w := winners[i];
        forall p { NextName(winners, i, p); }
        NextReleased(old(prizes), winners, tx, i);
        if w.prizeId !in seenPrize {
          seenPrize := seenPrize + {w.prizeId};
          if w.prizeId in prizes {
            prizes := prizes[w.prizeId := prizes[w.prizeId].(status := RELEASED, releaseTx := Some(tx))];
          }
        }
        assert winners[..i + 1][..i] == winners[..i];
        var clashes := HasClash(PayoutFor(w, tx));
        if w.prizeId !in prizes || clashes {
          NotInsertable(old(prizes), old(payouts), winners, tx, i + 1);
          return false;
        }
        payouts := payouts + [PayoutFor(w, tx)];
      }
      assert winners[..|winners|] == winners;
      return true;
    }

    /** The unique index on (prize, transaction, member). */
    method HasClash(p: PayoutRow) returns (clashes: bool)
      ensures clashes <==> ClashesWith(payouts, p)
    {
      return exists k :: 0 <= k < |payouts| && Clash(payouts[k], p);
    }

    lemma NothingReleased(before: map<string, PrizeRow>, winners: seq<ReleaseWinner>, tx: TxHash)
      ensures Released(before, winners[..0], tx) == before
      ensures forall p :: !Names(winners[..0], p)
    {}

    /** Releasing for one more winner. */
    lemma NextReleased(before: map<string, PrizeRow>, winners: seq<ReleaseWinner>, tx: TxHash, i: nat)
      requires i < |winners|
      ensures var p := winners[i].prizeId;
        var now := Released(before, winners[..i], tx);
        && (p in now <==> p in before)
        && Released(before, winners[..i + 1], tx) ==
           if p !in now || Names(winners[..i], p) then now
             else now[p := now[p].(status := RELEASED, releaseTx := Some(tx))]
    {
      hide FirstTeam;
      forall p { NextName(winners, i, p); }
    }

    lemma NotInsertable(prizes: map<string, PrizeRow>, payouts: seq<PayoutRow>, winners: seq<ReleaseWinner>,
                        tx: TxHash, i: nat)
      requires i <= |winners| && !Insertable(prizes, payouts, winners[..i], tx)
      ensures !Insertable(prizes, payouts, winners, tx)
      decreases |winners|
    {
      hide ClashesWith;
      if i < |winners| {
        assert winners[..|winners| - 1][..i] == winners[..i];
        NotInsertable(prizes, payouts, winners[..|winners| - 1], tx, i);
      } else {
        assert winners[..i] == winners;
      }
    }

    method MarkReleaseFailed(row: RowId, reason: string) returns (error: Option<StoreError>)
      modifies this`releases
      ensures error.Some? ==> Fail(old(releases), row, reason) == Failure(error.value) && releases == old(releases)
      ensures error.None? ==> Fail(old(releases), row, reason) == Success(releases)
    {
      if row !in releases {
        return Some(NotFound);
      }
      releases := releases[row := releases[row].(status := FAILED, lastError := Some(reason))];
      return None;
    }

    /** The off-chain transitions; startJudging uses it from LIVE to JUDGING. */
    method TransitionEvent(row: RowId, from: EventStatus, to: EventStatus) returns (error: Option<StoreError>)
      modifies this`events
      ensures error.Some? ==> Transition(old(State()), row, from, to).Failure? && State() == old(State())
      ensures error.None? ==> Transition(old(State()), row, from, to) == Success(State())
    {
      if !CanTransition(from, to) {
        return Some(WrongStatus(from));
      }
      if row !in events || events[row].status != from {
        return Some(NotFound);
      }
      events := events[row := events[row].(status := to)];
      return None;
    }
  }
}
