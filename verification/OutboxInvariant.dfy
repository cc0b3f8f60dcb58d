/** Every step keeps the protocol's invariant, one step at a time. */
module OutboxInvariant {
  import opened Collections
  import opened OutboxStore
  import opened OutboxProtocol

  // ---- Tick ----------------------------------------------------------------

  lemma TickKeeps(cfg: Config, s: State, to: Time)
    requires Inv(cfg, s)
    ensures Inv(cfg, s.(clock := to))
  {
    var t := s.(clock := to);
    forall w | 0 <= w < |s.workers| ensures PhaseOk(cfg, t, t.workers[w].phase) && CallsOk(cfg, t, t.workers[w].phase) {
      assert forall i :: Held(s.workers[w].phase, i) ==> SameRow(s, t, i);
      PhaseFrame(cfg, s, t, s.workers[w].phase);
      CallsFrame(cfg, s, t, s.workers[w].phase);
    }
  }

  // ---- Add -----------------------------------------------------------------

  lemma AddFacts(s: State, evs: seq<Event>)
    requires Keyed(s.rows)
    ensures var t := AfterAdd(s, evs);
            && Keyed(t.rows)
            && (forall i :: i in s.rows ==>
                  i in t.rows && t.rows[i] == s.rows[i] && t.past.created[i] == s.past.created[i])
            && (forall i :: i in t.rows && i !in s.rows ==>
                  t.rows[i] == NewRow(t.rows[i].event, t.rows[i].written) && t.past.created[i] == s.past.created[i] + 1)
            && (forall i :: i !in t.rows ==> t.past.created[i] == s.past.created[i])
            && BuriedIds(t.rows) == BuriedIds(s.rows)
  {
    AddIsIdempotentById(s.rows, evs);
  }

  lemma AddKeepsDeliveries(cfg: Config, s: State, evs: seq<Event>)
    requires Keyed(s.rows) && DeliveriesOk(cfg, s)
    ensures DeliveriesOk(cfg, AfterAdd(s, evs))
  {
    AddFacts(s, evs);
  }

  lemma AddKeepsPhases(cfg: Config, s: State, evs: seq<Event>)
    requires Keyed(s.rows) && HolderOk(s) && PhasesOk(cfg, s) && AllCallsOk(cfg, s)
    ensures PhasesOk(cfg, AfterAdd(s, evs)) && AllCallsOk(cfg, AfterAdd(s, evs))
  {
    AddFacts(s, evs);
    var t := AfterAdd(s, evs);
    forall w | 0 <= w < |s.workers| ensures PhaseOk(cfg, t, t.workers[w].phase) && CallsOk(cfg, t, t.workers[w].phase) {
      assert forall i :: Held(s.workers[w].phase, i) ==> i in s.past.holder && SameRow(s, t, i);
      PhaseFrame(cfg, s, t, s.workers[w].phase);
      CallsFrame(cfg, s, t, s.workers[w].phase);
    }
  }

  lemma AddKeepsHolder(s: State, evs: seq<Event>)
    requires Keyed(s.rows) && ClaimsMatch(s.rows, s.past.holder)
    ensures ClaimsMatch(AfterAdd(s, evs).rows, s.past.holder)
  {
    AddFacts(s, evs);
  }

  lemma AddKeepsRows(cfg: Config, s: State, evs: seq<Event>)
    requires cfg.maxAttempts >= 1 && RowsOk(cfg, s) && LedgersOk(cfg, s)
    ensures RowsOk(cfg, AfterAdd(s, evs)) && LedgersOk(cfg, AfterAdd(s, evs))
  {
    AddFacts(s, evs);
  }

  lemma AddKeeps(cfg: Config, s: State, evs: seq<Event>)
    requires Inv(cfg, s)
    ensures Inv(cfg, AfterAdd(s, evs))
  {
    assert BuriedIds(AfterAdd(s, evs).rows) == BuriedIds(s.rows) by { AddFacts(s, evs); }
    AddKeepsRows(cfg, s, evs);
    AddKeepsHolder(s, evs);
    AddKeepsDeliveries(cfg, s, evs);
    AddKeepsPhases(cfg, s, evs);
  }

  // ---- Claim ---------------------------------------------------------------

  lemma ClaimFacts(s: State, cfg: Config, now: Time, batch: seq<Pending>)
    requires Keyed(s.rows) && ClaimOf(s.rows, cfg.batch, now, batch)
    ensures forall i :: i in Ids(batch) ==> i in s.rows && Due(s.rows[i], now)
    ensures forall k :: 0 <= k < |batch| ==> PendingOk(MarkClaimed(s.rows, Ids(batch)), batch[k])
  {
    forall k | 0 <= k < |batch|
      ensures PendingOk(MarkClaimed(s.rows, Ids(batch)), batch[k]) && batch[k].event.id in DueIds(s.rows, now)
    {
      assert batch[k] in batch;
    }
    forall i | i in Ids(batch) ensures i in s.rows && Due(s.rows[i], now) {
      var k :| 0 <= k < |batch| && Ids(batch)[k] == i;
      assert batch[k] in batch;
    }
  }

  lemma ClaimKeepsHolder(cfg: Config, s: State, w: nat, now: Time, batch: seq<Pending>)
    requires HolderOk(s) && w < |s.workers| && s.workers[w].phase.Idle?
    requires forall i :: i in Ids(batch) ==> i in s.rows && !s.rows[i].claimed
    ensures HolderOk(AfterClaim(s, w, now, batch))
  {
  }

  lemma ClaimKeepsPhases(cfg: Config, s: State, w: nat, now: Time, batch: seq<Pending>)
    requires Keyed(s.rows) && HolderOk(s) && PhasesOk(cfg, s) && AllCallsOk(cfg, s)
    requires Enabled(cfg, s, Claim(w, now, batch))
    ensures PhasesOk(cfg, AfterClaim(s, w, now, batch)) && AllCallsOk(cfg, AfterClaim(s, w, now, batch))
  {
    var t := AfterClaim(s, w, now, batch);
    ClaimFacts(s, cfg, now, batch);
    assert forall i :: i in s.rows ==> SameRow(s, t, i);
    OthersFrame(cfg, s, t, w);
    assert PhaseOk(cfg, t, t.workers[w].phase);
  }

  lemma ClaimKeepsRows(cfg: Config, s: State, w: nat, now: Time, batch: seq<Pending>)
    requires RowsOk(cfg, s) && DeliveriesOk(cfg, s) && CountsOk(s) && w < |s.workers| && s.workers[w].owes.NoCount?
    requires forall i :: i in Ids(batch) ==> i in s.rows && !s.rows[i].buried
    ensures var t := AfterClaim(s, w, now, batch); RowsOk(cfg, t) && DeliveriesOk(cfg, t) && CountsOk(t)
  {
    var t := AfterClaim(s, w, now, batch);
    assert BuriedIds(t.rows) == BuriedIds(s.rows);
    ReplacedWorker(s.workers, w, t.workers[w]);
  }

  lemma ClaimKeeps(cfg: Config, s: State, w: nat, now: Time, batch: seq<Pending>)
    requires Inv(cfg, s) && Enabled(cfg, s, Claim(w, now, batch))
    ensures Inv(cfg, AfterClaim(s, w, now, batch))
  {
    ClaimFacts(s, cfg, now, batch);
    ClaimKeepsHolder(cfg, s, w, now, batch);
    ClaimKeepsPhases(cfg, s, w, now, batch);
    ClaimKeepsRows(cfg, s, w, now, batch);
  }

  /** Replacing one worker moves the sums by that worker's own change. */
  lemma {:induction false} ReplacedWorker(ws: seq<Worker>, w: nat, other: Worker)
    requires w < |ws|
    ensures BuriedSum(ws[w := other]) == BuriedSum(ws) - BuriedBy(ws[w]) + BuriedBy(other)
    ensures DeliveredSum(ws[w := other]) == DeliveredSum(ws) - DeliveredBy(ws[w]) + DeliveredBy(other)
  {
    var n := |ws| - 1;
    if w < n {
      ReplacedWorker(ws[..n], w, other);
      assert ws[w := other][..n] == ws[..n][w := other];
    } else {
      assert ws[w := other][..n] == ws[..n];
    }
  }

  // ---- Handle --------------------------------------------------------------

  lemma HandleKeepsLedgers(cfg: Config, s: State, w: nat, records: bool, outcome: Outcome)
    requires LedgersOk(cfg, s) && Enabled(cfg, s, Handle(w, records, outcome))
    requires s.past.created[s.workers[w].phase.todo[0].event.id] >= 1
    ensures LedgersOk(cfg, AfterHandle(s, w, records, outcome))
  {
  }

  lemma HandleKeepsPhases(cfg: Config, s: State, w: nat, records: bool, outcome: Outcome)
    requires HolderOk(s) && PhasesOk(cfg, s) && AllCallsOk(cfg, s)
    requires Enabled(cfg, s, Handle(w, records, outcome))
    ensures PhasesOk(cfg, AfterHandle(s, w, records, outcome)) && AllCallsOk(cfg, AfterHandle(s, w, records, outcome))
  {
    var t := AfterHandle(s, w, records, outcome);
    assert forall i :: i in s.rows ==> SameRow(s, t, i);
    OthersFrame(cfg, s, t, w);
    var was, ph := s.workers[w].phase, t.workers[w].phase;
    assert PhaseOk(cfg, s, was) && CallsOk(cfg, s, was);
    assert PhaseOk(cfg, t, ph);
    CallsFrame(cfg, s, t, was);
    assert CallsOk(cfg, t, ph);
  }

  lemma HandleKeeps(cfg: Config, s: State, w: nat, records: bool, outcome: Outcome)
    requires Inv(cfg, s) && Enabled(cfg, s, Handle(w, records, outcome))
    ensures Inv(cfg, AfterHandle(s, w, records, outcome))
  {
    var t := AfterHandle(s, w, records, outcome);
    var p := s.workers[w].phase.todo[0];
    assert PhaseOk(cfg, s, s.workers[w].phase);
    assert PendingOk(s.rows, p);
    HandleKeepsLedgers(cfg, s, w, records, outcome);
    HandleKeepsPhases(cfg, s, w, records, outcome);
    HandleKeepsRest(cfg, s, w, records, outcome);
  }

  lemma HandleKeepsRest(cfg: Config, s: State, w: nat, records: bool, outcome: Outcome)
    requires DeliveriesOk(cfg, s) && CountsOk(s) && HolderOk(s)
    requires Enabled(cfg, s, Handle(w, records, outcome))
    ensures var t := AfterHandle(s, w, records, outcome);
            DeliveriesOk(cfg, t) && CountsOk(t) && HolderOk(t)
  {
    var t := AfterHandle(s, w, records, outcome);
    ReplacedWorker(s.workers, w, t.workers[w]);
    assert forall i :: Held(t.workers[w].phase, i) <==> Held(s.workers[w].phase, i);
  }

  // ---- Pass ----------------------------------------------------------------

  lemma TailIds(todo: seq<Pending>)
    requires todo != []
    ensures Ids(todo) == [todo[0].event.id] + Ids(todo[1..])
    ensures NoDup(Ids(todo)) ==> NoDup(Ids(todo[1..])) && todo[0].event.id !in Ids(todo[1..])
  {
    var ids, rest := Ids(todo), Ids(todo[1..]);
    assert ids == [ids[0]] + rest;
    if NoDup(ids) {
      assert forall k :: 0 <= k < |rest| ==> rest[k] == ids[k + 1];
    }
  }

  /** A phase whose first row has left the list of rows to do. */
  lemma TailPhaseOk(cfg: Config, s: State, t: State, ph: Phase, next: Phase)
    requires PhaseOk(cfg, s, ph) && ph.Busy? && ph.todo != [] && next.Busy? && next.todo == ph.todo[1..]
    requires next.handler == 0
    requires forall i :: Held(ph, i) && i != ph.todo[0].event.id ==> SameRow(s, t, i)
    requires next.done == ph.done || (next.done == ph.done + [ph.todo[0].event.id]
              && SameRow(s, t, ph.todo[0].event.id))
    ensures PhaseOk(cfg, t, next)
  {
    TailIds(ph.todo);
    assert PendingOk(s.rows, ph.todo[0]);
    forall k | 0 <= k < |next.todo| ensures PendingOk(t.rows, next.todo[k]) {
      assert next.todo[k] == ph.todo[k + 1];
      assert PendingOk(s.rows, ph.todo[k + 1]);
      var i := next.todo[k].event.id;
      assert Ids(ph.todo)[k + 1] == i && Ids(ph.todo[1..])[k] == i;
      assert Held(ph, i) && i != ph.todo[0].event.id;
      assert SameRow(s, t, i);
    }
    assert ph.todo[0].event.id in Ids(ph.todo);
    assert forall i :: i in ph.done ==> Held(ph, i) && i != ph.todo[0].event.id;
  }

  lemma PassKeepsPhases(cfg: Config, s: State, w: nat)
    requires HolderOk(s) && PhasesOk(cfg, s) && AllCallsOk(cfg, s)
    requires Enabled(cfg, s, Pass(w))
    ensures PhasesOk(cfg, AfterPass(s, w)) && AllCallsOk(cfg, AfterPass(s, w))
  {
    var t := AfterPass(s, w);
    var ph, next := s.workers[w].phase, t.workers[w].phase;
    assert forall i :: i in s.rows ==> SameRow(s, t, i);
    OthersFrame(cfg, s, t, w);
    assert PhaseOk(cfg, s, ph) && CallsOk(cfg, s, ph);
    assert PendingOk(s.rows, ph.todo[0]);
    assert forall i :: Held(ph, i) ==> i in s.past.holder && i in s.rows;
    TailPhaseOk(cfg, s, t, ph, next);
    forall i, h | i in next.done && i in t.rows && 0 <= h < cfg.handlers ensures PassedBy(t, i, t.rows[i].attempts, h) {
      assert PassedBy(s, i, s.rows[i].attempts, h);
    }
    assert CallsOk(cfg, t, next);
  }

  lemma PassKeepsHolds(workers: seq<Worker>, holder: map<EventId, nat>, w: nat, next: Worker)
    requires HoldsMatch(workers, holder) && w < |workers|
    requires forall i :: Held(next.phase, i) <==> Held(workers[w].phase, i)
    ensures HoldsMatch(workers[w := next], holder)
  {
  }

  lemma PassKeeps(cfg: Config, s: State, w: nat)
    requires Inv(cfg, s) && Enabled(cfg, s, Pass(w))
    ensures Inv(cfg, AfterPass(s, w))
  {
    var t := AfterPass(s, w);
    PassKeepsPhases(cfg, s, w);
    TailIds(s.workers[w].phase.todo);
    PassKeepsHolds(s.workers, s.past.holder, w, t.workers[w]);
    ReplacedWorker(s.workers, w, t.workers[w]);
  }

  // ---- Record --------------------------------------------------------------

  /** The row at hand, as the worker and the store both know it. */
  lemma AtHand(cfg: Config, s: State, w: nat)
    requires PhasesOk(cfg, s) && HolderOk(s) && AtRow(s, w)
    ensures var ph := s.workers[w].phase; var p := ph.todo[0]; var i := p.event.id;
            PendingOk(s.rows, p) && i in s.past.holder && s.past.holder[i] == w
  {
    var ph := s.workers[w].phase;
    assert PhaseOk(cfg, s, ph) && PendingOk(s.rows, ph.todo[0]);
    assert Ids(ph.todo)[0] == ph.todo[0].event.id;
    assert Held(ph, ph.todo[0].event.id);
  }

  lemma RecordKeepsPhases(cfg: Config, s: State, w: nat, now: Time)
    requires HolderOk(s) && PhasesOk(cfg, s) && AllCallsOk(cfg, s)
    requires Enabled(cfg, s, Record(w, now))
    ensures PhasesOk(cfg, AfterRecord(cfg, s, w, now)) && AllCallsOk(cfg, AfterRecord(cfg, s, w, now))
  {
    AtHand(cfg, s, w);
    var t := AfterRecord(cfg, s, w, now);
    assert forall i :: i in s.rows && i != s.workers[w].phase.todo[0].event.id ==> SameRow(s, t, i);
    OthersFrame(cfg, s, t, w);
    RecordKeepsOwnPhase(cfg, s, t, s.workers[w].phase, t.workers[w].phase);
  }

  lemma RecordKeepsOwnPhase(cfg: Config, s: State, t: State, ph: Phase, next: Phase)
    requires PhaseOk(cfg, s, ph) && CallsOk(cfg, s, ph) && ph.Busy? && ph.todo != []
    requires next.Busy? && next == ph.(readAt := next.readAt, todo := ph.todo[1..], handler := 0, cause := None)
    requires forall i :: i in s.rows && i != ph.todo[0].event.id ==> SameRow(s, t, i)
    requires forall i :: Held(ph, i) ==> i in s.rows
    requires t.past.passed == s.past.passed
    ensures PhaseOk(cfg, t, next) && CallsOk(cfg, t, next)
  {
    TailPhaseOk(cfg, s, t, ph, next);
    TailIds(ph.todo);
    forall i, h | i in next.done && i in t.rows && 0 <= h < cfg.handlers ensures PassedBy(t, i, t.rows[i].attempts, h) {
      assert Held(ph, i) && PassedBy(s, i, s.rows[i].attempts, h);
    }
  }

  lemma RecordKeepsHolder(cfg: Config, s: State, w: nat, now: Time)
    requires HolderOk(s) && PhasesOk(cfg, s)
    requires Enabled(cfg, s, Record(w, now))
    ensures HolderOk(AfterRecord(cfg, s, w, now))
  {
    AtHand(cfg, s, w);
    var t := AfterRecord(cfg, s, w, now);
    var ph := s.workers[w].phase;
    assert PhaseOk(cfg, s, ph);
    TailIds(ph.todo);
    RecordReleases(cfg, s, w, now, ph.todo[0].event.id);
    LetGo(s.workers, s.past.holder, w, t.workers[w], ph.todo[0].event.id);
  }

  /** Of the rows in the store, the failed one alone is no longer claimed. */
  lemma RecordReleases(cfg: Config, s: State, w: nat, now: Time, id: EventId)
    requires Enabled(cfg, s, Record(w, now)) && id == s.workers[w].phase.todo[0].event.id && id in s.rows
    requires ClaimsMatch(s.rows, s.past.holder)
    ensures ClaimsMatch(AfterRecord(cfg, s, w, now).rows, s.past.holder - {id})
  {
  }

  /** A worker that holds one row less. */
  lemma LetGo(workers: seq<Worker>, holder: map<EventId, nat>, w: nat, next: Worker, id: EventId)
    requires HoldsMatch(workers, holder) && w < |workers| && Held(workers[w].phase, id)
    requires forall i :: Held(next.phase, i) <==> Held(workers[w].phase, i) && i != id
    ensures HoldsMatch(workers[w := next], holder - {id})
  {
    var after := workers[w := next];
    forall v, i | 0 <= v < |after| ensures Held(after[v].phase, i) <==> i in holder - {id} && holder[i] == v {
      assert Held(workers[v].phase, i) <==> i in holder && holder[i] == v;
    }
  }

  lemma RecordKeepsRows(cfg: Config, s: State, w: nat, now: Time)
    requires cfg.maxAttempts >= 1 && RowsOk(cfg, s) && DeliveriesOk(cfg, s) && LedgersOk(cfg, s) && HolderOk(s)
              && PhasesOk(cfg, s)
    requires Enabled(cfg, s, Record(w, now))
    ensures var t := AfterRecord(cfg, s, w, now); RowsOk(cfg, t) && DeliveriesOk(cfg, t) && LedgersOk(cfg, t)
  {
    AtHand(cfg, s, w);
    RecordKeepsLimit(cfg, s, w, now);
  }

  lemma RecordKeepsLimit(cfg: Config, s: State, w: nat, now: Time)
    requires cfg.maxAttempts >= 1 && RowsOk(cfg, s) && Enabled(cfg, s, Record(w, now))
    requires PendingOk(s.rows, s.workers[w].phase.todo[0])
    ensures RowsOk(cfg, AfterRecord(cfg, s, w, now))
  {
  }

  lemma RecordKeepsCounts(cfg: Config, s: State, w: nat, now: Time)
    requires cfg.maxAttempts >= 1 && CountsOk(s) && HolderOk(s) && PhasesOk(cfg, s)
    requires Enabled(cfg, s, Record(w, now))
    ensures CountsOk(AfterRecord(cfg, s, w, now))
  {
    AtHand(cfg, s, w);
    var t := AfterRecord(cfg, s, w, now);
    var ph := s.workers[w].phase;
    ReplacedWorker(s.workers, w, t.workers[w]);
    FailingBuries(s.rows, ph.todo[0].event.id, ph.cause.value, RetryAt(cfg, ph.todo[0].attempts + 1, now));
  }

  lemma FailingBuries(rows: Rows, id: EventId, reason: string, retryAt: Time)
    requires id in rows && !rows[id].buried
    ensures |BuriedIds(FailOne(rows, id, reason, retryAt))| == |BuriedIds(rows)| + if retryAt == ZERO_TIME then 1 else 0
  {
    var after := FailOne(rows, id, reason, retryAt);
    if retryAt == ZERO_TIME {
      assert BuriedIds(after) == BuriedIds(rows) + {id};
    } else {
      assert BuriedIds(after) == BuriedIds(rows);
    }
  }

  lemma RecordKeeps(cfg: Config, s: State, w: nat, now: Time)
    requires Inv(cfg, s) && Enabled(cfg, s, Record(w, now))
    ensures Inv(cfg, AfterRecord(cfg, s, w, now))
  {
    RecordKeepsPhases(cfg, s, w, now);
    RecordKeepsHolder(cfg, s, w, now);
    RecordKeepsRows(cfg, s, w, now);
    RecordKeepsCounts(cfg, s, w, now);
  }

  // ---- Finish --------------------------------------------------------------

  lemma FinishKeepsPhases(cfg: Config, s: State, w: nat)
    requires HolderOk(s) && PhasesOk(cfg, s) && AllCallsOk(cfg, s)
    requires Enabled(cfg, s, Finish(w))
    ensures PhasesOk(cfg, AfterFinish(s, w)) && AllCallsOk(cfg, AfterFinish(s, w))
  {
    var t := AfterFinish(s, w);
    var ph := s.workers[w].phase;
    assert forall i :: i in ph.done ==> Held(ph, i);
    OthersFrame(cfg, s, t, w);
  }

  lemma FinishKeepsHolder(cfg: Config, s: State, w: nat)
    requires HolderOk(s) && Enabled(cfg, s, Finish(w))
    ensures HolderOk(AfterFinish(s, w))
  {
    var ph := s.workers[w].phase;
    assert forall i :: Held(ph, i) <==> i in ph.done;
  }

  lemma FinishKeepsDeliveries(cfg: Config, s: State, w: nat)
    requires RowsOk(cfg, s) && DeliveriesOk(cfg, s) && PhasesOk(cfg, s) && AllCallsOk(cfg, s)
              && Enabled(cfg, s, Finish(w))
    ensures DeliveriesOk(cfg, AfterFinish(s, w))
  {
    var t := AfterFinish(s, w);
    var ph := s.workers[w].phase;
    assert PhaseOk(cfg, s, ph) && CallsOk(cfg, s, ph);
    forall i, g, h | (i, g) in t.past.deliveries && 0 <= h < cfg.handlers
      ensures Call(i, g, t.past.deliveries[(i, g)], h) in t.past.passed
    {
      if (i, g) in Deliver(s, ph.done) {
        assert PassedBy(s, i, s.rows[i].attempts, h);
      }
    }
  }

  lemma FinishKeepsCounts(cfg: Config, s: State, w: nat)
    requires RowsOk(cfg, s) && DeliveriesOk(cfg, s) && PhasesOk(cfg, s) && CountsOk(s) && Enabled(cfg, s, Finish(w))
    ensures CountsOk(AfterFinish(s, w))
  {
    var t := AfterFinish(s, w);
    var ph := s.workers[w].phase;
    assert PhaseOk(cfg, s, ph);
    ReplacedWorker(s.workers, w, t.workers[w]);
    DeliveredNotBuried(s.rows, ph.done);
    DeliversMore(cfg, s, ph.done);
    CountOfDone(s.workers[w], t.workers[w], ph.done);
  }

  lemma DeliveredNotBuried(rows: Rows, done: seq<EventId>)
    requires forall i :: i in done ==> i in rows && !rows[i].buried
    ensures BuriedIds(Without(rows, done)) == BuriedIds(rows)
  {
  }

  lemma CountOfDone(v: Worker, next: Worker, done: seq<EventId>)
    requires v.owes.NoCount? && next == Worker(Idle, v.stats, CountOf(done))
    ensures BuriedBy(next) == BuriedBy(v) && DeliveredBy(next) == DeliveredBy(v) + |done|
  {
  }

  lemma DeliversMore(cfg: Config, s: State, done: seq<EventId>)
    requires DeliveriesOk(cfg, s) && NoDup(done) && forall i :: i in done ==> i in s.rows
    ensures |s.past.deliveries + Deliver(s, done)| == |s.past.deliveries| + |done|
  {
    var d, both := Deliver(s, done), s.past.deliveries + Deliver(s, done);
    assert both.Keys == s.past.deliveries.Keys + d.Keys && s.past.deliveries.Keys !! d.Keys;
    DeliveredOnce(s, done);
  }

  lemma {:induction false} DeliveredOnce(s: State, done: seq<EventId>)
    requires NoDup(done) && forall i :: i in done ==> i in s.rows
    ensures |Deliver(s, done)| == |done|
  {
    if done == [] {
    } else {
      var n := |done| - 1;
      DeliveredOnce(s, done[..n]);
      assert done == done[..n] + [done[n]];
      OneMoreDelivery(s, done[..n], done[n]);
    }
  }

  lemma OneMoreDelivery(s: State, done: seq<EventId>, i: EventId)
    requires i in s.rows && i !in done
    ensures |Deliver(s, done + [i])| == |Deliver(s, done)| + 1
  {
    var key := (i, s.past.created[i]);
    assert Deliver(s, done + [i]).Keys == Deliver(s, done).Keys + {key} && key !in Deliver(s, done);
  }

  lemma FinishKeepsRest(cfg: Config, s: State, w: nat)
    requires RowsOk(cfg, s) && LedgersOk(cfg, s) && Enabled(cfg, s, Finish(w))
    ensures var t := AfterFinish(s, w); RowsOk(cfg, t) && LedgersOk(cfg, t)
  {
  }

  lemma FinishKeeps(cfg: Config, s: State, w: nat)
    requires Inv(cfg, s) && Enabled(cfg, s, Finish(w))
    ensures Inv(cfg, AfterFinish(s, w))
  {
    FinishKeepsPhases(cfg, s, w);
    FinishKeepsHolder(cfg, s, w);
    FinishKeepsDeliveries(cfg, s, w);
    FinishKeepsCounts(cfg, s, w);
    FinishKeepsRest(cfg, s, w);
  }

  // ---- Bump ----------------------------------------------------------------

  lemma BumpKeeps(cfg: Config, s: State, w: nat)
    requires Inv(cfg, s) && Enabled(cfg, s, Bump(w))
    ensures Inv(cfg, AfterBump(s, w))
  {
    var t := AfterBump(s, w);
    BumpKeepsPhases(cfg, s, w);
    PassKeepsHolds(s.workers, s.past.holder, w, t.workers[w]);
    ReplacedWorker(s.workers, w, t.workers[w]);
  }

  lemma BumpKeepsPhases(cfg: Config, s: State, w: nat)
    requires HolderOk(s) && PhasesOk(cfg, s) && AllCallsOk(cfg, s) && Enabled(cfg, s, Bump(w))
    ensures PhasesOk(cfg, AfterBump(s, w)) && AllCallsOk(cfg, AfterBump(s, w))
  {
    var t := AfterBump(s, w);
    assert forall i :: i in s.past.holder ==> SameRow(s, t, i);
    OthersFrame(cfg, s, t, w);
    assert forall i :: Held(s.workers[w].phase, i) ==> SameRow(s, t, i);
    PhaseFrame(cfg, s, t, s.workers[w].phase);
    CallsFrame(cfg, s, t, s.workers[w].phase);
  }

  // ---- Every step, every run --------------------------------------------------

  lemma StepKeepsInv(cfg: Config, s: State, step: Step)
    requires Inv(cfg, s) && Enabled(cfg, s, step)
    ensures Inv(cfg, Apply(cfg, s, step))
  {
    match step
    case Tick(to) => TickKeeps(cfg, s, to);
    case Add(evs) => AddKeeps(cfg, s, evs);
    case Claim(w, now, batch) => ClaimKeeps(cfg, s, w, now, batch);
    case Handle(w, records, outcome) => HandleKeeps(cfg, s, w, records, outcome);
    case Pass(w) => PassKeeps(cfg, s, w);
    case Record(w, now) => RecordKeeps(cfg, s, w, now);
    case Finish(w) => FinishKeeps(cfg, s, w);
    case Bump(w) => BumpKeeps(cfg, s, w);
  }

  lemma {:induction false} RunKeepsInv(cfg: Config, s: State, steps: seq<Step>)
    requires Inv(cfg, s) && Legal(cfg, s, steps)
    ensures Inv(cfg, Run(cfg, s, steps))
    decreases steps
  {
    if steps == [] {
    } else {
      StepKeepsInv(cfg, s, steps[0]);
      RunKeepsInv(cfg, Apply(cfg, s, steps[0]), steps[1..]);
    }
  }

  lemma {:induction false} StartCounts(ws: seq<Worker>)
    requires forall v :: v in ws ==> BuriedBy(v) == 0 && DeliveredBy(v) == 0
    ensures BuriedSum(ws) == 0 && DeliveredSum(ws) == 0
  {
    if ws == [] {
    } else {
      StartCounts(ws[..|ws| - 1]);
    }
  }

  lemma StartIsOk(cfg: Config, dispatchers: nat, clock: Time)
    requires cfg.maxAttempts >= 1
    ensures Inv(cfg, Start(cfg, dispatchers, clock))
  {
    StartCounts(Start(cfg, dispatchers, clock).workers);
  }
}
