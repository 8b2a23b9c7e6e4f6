/**
 The per-organizer index: in every reachable state it lists exactly the organizer's
 events, once each, in creation order, and its pages concatenate to the full list.
 */
module EscrowIndex {
  import opened Wrappers
  import opened Numbers
  import opened EscrowState
  import opened EscrowSteps
  import opened EscrowHistory

  /** The events an organizer created, in order. */
  function CreatedIds(h: seq<Entry>, admin: Address): seq<EventId>
  {
    if h == [] then []
    else
      var last := h[|h| - 1];
      CreatedIds(h[..|h| - 1], admin) + if last.Reserved? && last.admin == admin then [last.id] else []
  }

  ghost predicate NoDuplicates(ids: seq<EventId>)
  {
    forall i, j :: 0 <= i < j < |ids| ==> ids[i] != ids[j]
  }

  /** The stored index of one organizer is the list of created events. */
  ghost predicate IndexHolds(s: State, admin: Address)
  {
    var ids := CreatedIds(s.history, admin);
    && s.Count(admin) == |ids|
    && (forall i: nat :: i < |ids| ==> IndexKey(admin, i) in s.eventIndex && s.eventIndex[IndexKey(admin, i)] == ids[i])
    && NoDuplicates(ids)
    && (forall id :: id in ids <==> id in s.events && s.events[id].admin == admin)
  }

  /** What the index holds at one place. */
  lemma IndexedAt(s: State, admin: Address, i: nat)
    requires IndexHolds(s, admin)
    ensures s.Count(admin) == |CreatedIds(s.history, admin)|
    ensures i < s.Count(admin) ==>
              IndexKey(admin, i) in s.eventIndex
              && s.eventIndex[IndexKey(admin, i)] == CreatedIds(s.history, admin)[i]
  {
    hide CreatedIds;
  }

  lemma SliceStep(ids: seq<EventId>, from: nat, i: nat)
    requires from <= i < |ids|
    ensures ids[from..i + 1] == ids[from..i] + [ids[i]]
  {}

  ghost predicate Indexed(s: State)
  {
    forall admin :: IndexHolds(s, admin)
  }

  lemma CreatedIdsAppend(h: seq<Entry>, e: Entry, admin: Address)
    ensures CreatedIds(h + [e], admin) == CreatedIds(h, admin) + if e.Reserved? && e.admin == admin then [e.id] else []
  {
    assert (h + [e])[..|h|] == h;
  }

  lemma {:induction false} NothingCreated(h: seq<Entry>, news: seq<Entry>, admin: Address)
    requires forall i :: 0 <= i < |news| ==> !news[i].Reserved?
    ensures CreatedIds(h + news, admin) == CreatedIds(h, admin)
  {
    if news == [] {
      assert h + news == h;
    } else {
      var n := |news| - 1;
      NothingCreated(h, news[..n], admin);
      assert h + news == h + news[..n] + [news[n]];
      CreatedIdsAppend(h + news[..n], news[n], admin);
    }
  }

  lemma {:induction false} InLog(h: seq<Entry>, i: nat, id: EventId)
    requires i < |h| && About(h[i], id)
    ensures h[i] in EventLog(h, id)
  {
    if i < |h| - 1 {
      InLog(h[..|h| - 1], i, id);
    }
  }

  /** Only a new event is recorded as created. */
  lemma OldEventsNotCreated(s: State, s': State)
    requires Moves(s, s') && s'.events.Keys == s.events.Keys
    ensures forall i :: 0 <= i < |News(s, s')| ==> !News(s, s')[i].Reserved?
  {
    hide EventLog, PayoutLog, CompensationLog, StartLog;
    var news := News(s, s');
    forall i | 0 <= i < |news|
      ensures !news[i].Reserved?
    {
      if news[i].Reserved? {
        var id := news[i].id;
        InLog(news, i, id);
        assert EventMove(Find(s, id), Find(s', id), id, EventLog(news, id));
        if id in s.events {
          NotReserved(s.events[id], id, EventLog(news, id));
        }
      }
    }
  }

  lemma NotReserved(e: Event, id: EventId, log: seq<Entry>)
    requires StartLog(e, id, log) || PayoutLog(e, id, log) || CompensationLog(e, id, log) || |log| == 0
             || (|log| == 1 && !log[0].Reserved?)
    ensures forall x :: x in log ==> !x.Reserved?
  {}

  lemma QuietIndexed(s: State, s': State)
    requires Indexed(s) && Moves(s, s') && Grows(s, s')
    requires s'.events.Keys == s.events.Keys && s'.eventsCount == s.eventsCount && s'.eventIndex == s.eventIndex
    ensures Indexed(s')
  {
    hide CreatedIds, EventMove;
    OldEventsNotCreated(s, s');
    forall admin
      ensures IndexHolds(s', admin)
    {
      NothingCreated(s.history, News(s, s'), admin);
      assert IndexHolds(s, admin);
    }
  }

  lemma CreateIndexed(s: State, auth: set<Address>, admin: Address, judge: Address, namedResolver: Option<Address>,
                      token: Address, reward: i128, id: EventId, deadline: Option<nat>, s': State)
    requires Indexed(s) && CreateStep(s, auth, admin, judge, namedResolver, token, reward, id, deadline) == Some(s')
    ensures Indexed(s')
  {
    hide CreatedIds;
    forall a
      ensures IndexHolds(s', a)
    {
      CreatedIdsAppend(s.history, Reserved(id, admin, reward), a);
      assert IndexHolds(s, a);
    }
  }

  lemma AfterIndexed(s: State, step: Step)
    requires RateBounded(s.gov) && Indexed(s)
    ensures Indexed(After(s, step))
  {
    hide Indexed, Moves, NewsShape, CreateStep, DepositStep, WithdrawStep, RefundStep, StartStep, EmergencyStep,
         PayoutStep, CompensateStep, GovernStep, ExpireStep, CancelStep, WaitStep, ReleaseStep, ResolveStep, Transfer,
         Grows;
    var s' := After(s, step);
    if Next(s, step).Some? {
      AfterMoves(s, step);
      AfterGrows(s, step);
      if step.Invoke? && step.call.CreateEvent? {
        var c := step.call;
        CreateIndexed(s, step.auth, c.admin, c.judge, c.namedResolver, c.token, c.reward, c.id, c.deadline, s');
      } else {
        if step.Invoke? { ApplyGrows(s, step.auth, step.call); }
        QuietIndexed(s, s');
      }
    }
  }

  /** After any run the index is exact. */
  lemma {:induction false} IndexExact(s: State, steps: seq<Step>)
    requires Initial(s)
    ensures RateBounded(Run(s, steps).gov) && Indexed(Run(s, steps))
  {
    if steps != [] {
      hide After, Indexed, RateBounded, Initial;
      IndexExact(s, steps[..|steps| - 1]);
      AfterIndexed(Run(s, steps[..|steps| - 1]), steps[|steps| - 1]);
      AfterRateBounded(Run(s, steps[..|steps| - 1]), steps[|steps| - 1]);
    }
  }

  // ------------------------------------------------------------------
  // Pages
  // ------------------------------------------------------------------

  /** The part of a list from offset to offset + limit, as far as it reaches. */
  function Page(ids: seq<EventId>, offset: nat, limit: nat): seq<EventId>
  {
    if offset >= |ids| then [] else ids[offset..Min(offset + limit, |ids|)]
  }

  /** The first n pages of a size, one after the other. */
  function Pages(ids: seq<EventId>, size: nat, n: nat): seq<EventId>
  {
    if n == 0 then [] else Pages(ids, size, n - 1) + Page(ids, (n - 1) * size, size)
  }

  /** Consecutive pages concatenate to the list, as far as they reach. */
  lemma {:induction false} PagesConcatenate(ids: seq<EventId>, size: nat, n: nat)
    ensures Pages(ids, size, n) == ids[..Min(n * size, |ids|)]
  {
    if n > 0 {
      PagesConcatenate(ids, size, n - 1);
      NextPage(ids, (n - 1) * size, size);
      assert (n - 1) * size + size == n * size;
    }
  }

  lemma NextPage(ids: seq<EventId>, offset: nat, size: nat)
    ensures ids[..Min(offset, |ids|)] + Page(ids, offset, size) == ids[..Min(offset + size, |ids|)]
  {}
}
