/** What holds of times while no clock steps back: a failed row comes due no sooner than
    its backoffs after its first failure, step by step. */
module OutboxTiming {
  import opened Collections
  import opened OutboxStore
  import opened OutboxProtocol
  import opened OutboxInvariant

  /** What the history says of a failure: the reading at a row's first one, the clock when it
      is buried, and of every other row what it said before. */
  lemma FailureIsNoted(cfg: Config, s: State, w: nat, now: Time)
    requires Enabled(cfg, s, Record(w, now))
    ensures var t, p := Apply(cfg, s, Record(w, now)), s.workers[w].phase.todo[0];
            var key := (p.event.id, s.past.created[p.event.id]);
            var last := p.attempts + 1 >= cfg.maxAttempts;
            && t.past.firstFail.Keys == s.past.firstFail.Keys + {key}
            && (forall k :: k in s.past.firstFail ==> t.past.firstFail[k] == s.past.firstFail[k])
            && (key !in s.past.firstFail ==> t.past.firstFail[key] == if last then s.clock else now)
            && (last ==> p.event.id in t.past.buriedAt && t.past.buriedAt[p.event.id] == s.clock)
            && (forall i :: i in s.past.buriedAt && (!last || i != p.event.id) ==>
                  i in t.past.buriedAt && t.past.buriedAt[i] == s.past.buriedAt[i])
  {
  }

  /** And of a handler's call: that it passed the row on this attempt, if it returned nil. */
  lemma PassingIsNoted(cfg: Config, s: State, w: nat, records: bool, outcome: Outcome)
    requires Enabled(cfg, s, Handle(w, records, outcome))
    ensures var t, ph := Apply(cfg, s, Handle(w, records, outcome)), s.workers[w].phase;
            var p := ph.todo[0];
            t.past.passed == s.past.passed
              + if outcome.Ok? then {Call(p.event.id, s.past.created[p.event.id], p.attempts, ph.handler)} else {}
  {
  }

  /** Rows, failures and readings as they were, and no worker with more to do. */
  lemma TimesStay(cfg: Config, s: State, t: State)
    requires cfg.maxAttempts >= 1 && TimesOk(cfg, s) && s.clock <= t.clock
    requires forall i :: i in t.rows ==> SameTimes(s, t, i)
    requires t.past.firstFail == s.past.firstFail && t.past.buriedAt == s.past.buriedAt
    requires forall i :: t.past.created[i] >= s.past.created[i]
    requires |t.workers| == |s.workers|
    requires forall w :: 0 <= w < |s.workers| ==> LessToDo(s.workers[w].phase, t.workers[w].phase)
    ensures TimesOk(cfg, t)
  {
    forall i | i in t.rows ensures TimedRow(cfg, t, i) {
      assert SameTimes(s, t, i) && TimedRow(cfg, s, i);
    }
    forall w | 0 <= w < |t.workers| ensures PhaseTimely(t, t.workers[w].phase) {
      assert LessToDo(s.workers[w].phase, t.workers[w].phase) && PhaseTimely(s, s.workers[w].phase);
      assert forall i :: i in t.rows ==> SameTimes(s, t, i);
    }
  }

  ghost predicate SameTimes(s: State, t: State, i: EventId) {
    && i in s.rows && i in t.rows && t.past.created[i] == s.past.created[i]
    && t.rows[i].attempts == s.rows[i].attempts && t.rows[i].dueAt == s.rows[i].dueAt
        && t.rows[i].buried == s.rows[i].buried
  }

  ghost predicate LessToDo(ph: Phase, next: Phase) {
    next.Busy? ==> ph.Busy? && next.readAt == ph.readAt && forall i :: i in Ids(next.todo) ==> i in Ids(ph.todo)
  }

  lemma AddKeepsTimes(cfg: Config, s: State, evs: seq<Event>)
    requires cfg.maxAttempts >= 1 && Keyed(s.rows) && TimesOk(cfg, s)
    requires forall w :: 0 <= w < |s.workers| ==> forall i :: Held(s.workers[w].phase, i) ==> i in s.rows
    ensures TimesOk(cfg, AfterAdd(s, evs))
  {
    AddFacts(s, evs);
    var t := AfterAdd(s, evs);
    forall i | i in t.rows ensures TimedRow(cfg, t, i) {
      if i in s.rows {
        assert TimedRow(cfg, s, i);
      }
    }
    forall w | 0 <= w < |t.workers| ensures PhaseTimely(t, t.workers[w].phase) {
      assert PhaseTimely(s, s.workers[w].phase);
    }
  }

  lemma ClaimKeepsTimes(cfg: Config, s: State, w: nat, now: Time, batch: seq<Pending>)
    requires cfg.maxAttempts >= 1 && Keyed(s.rows) && TimesOk(cfg, s)
    requires Enabled(cfg, s, Claim(w, now, batch)) && now <= s.clock
    ensures TimesOk(cfg, AfterClaim(s, w, now, batch))
  {
    var t := AfterClaim(s, w, now, batch);
    ClaimFacts(s, cfg, now, batch);
    forall i | i in t.rows ensures TimedRow(cfg, t, i) {
      assert TimedRow(cfg, s, i);
    }
    forall v | 0 <= v < |t.workers| ensures PhaseTimely(t, t.workers[v].phase) {
      if v != w {
        assert PhaseTimely(s, s.workers[v].phase);
      }
    }
  }

  lemma RecordTimesRow(cfg: Config, s: State, w: nat, now: Time)
    requires cfg.maxAttempts >= 1 && RowsOk(cfg, s) && TimesOk(cfg, s)
    requires Enabled(cfg, s, Record(w, now)) && OnTime(s, Record(w, now))
    requires PendingOk(s.rows, s.workers[w].phase.todo[0])
    ensures var t := AfterRecord(cfg, s, w, now); var i := s.workers[w].phase.todo[0].event.id;
            i in t.rows && TimedRow(cfg, t, i)
  {
    var p := s.workers[w].phase.todo[0];
    var a := p.attempts + 1;
    assert PhaseTimely(s, s.workers[w].phase) && Ids(s.workers[w].phase.todo)[0] == p.event.id;
    assert TimedRow(cfg, s, p.event.id);
    assert BackoffSum(cfg, a) == BackoffSum(cfg, a - 1) + cfg.backoff(a);
  }

  lemma RecordKeepsRowTimes(cfg: Config, s: State, w: nat, now: Time)
    requires cfg.maxAttempts >= 1 && RowsOk(cfg, s) && TimesOk(cfg, s)
    requires Enabled(cfg, s, Record(w, now)) && OnTime(s, Record(w, now))
    requires PendingOk(s.rows, s.workers[w].phase.todo[0])
    ensures var t := AfterRecord(cfg, s, w, now);
            && (forall i :: i in t.rows ==> TimedRow(cfg, t, i))
            && (forall i, g :: (i, g) in t.past.firstFail ==> g <= t.past.created[i])
  {
    RecordTimesRow(cfg, s, w, now);
    var t := AfterRecord(cfg, s, w, now);
    var id := s.workers[w].phase.todo[0].event.id;
    forall i | i in t.rows && i != id ensures TimedRow(cfg, t, i) {
      assert TimedRow(cfg, s, i);
    }
  }

  lemma RecordKeepsReadings(cfg: Config, s: State, w: nat, now: Time)
    requires cfg.maxAttempts >= 1 && TimesOk(cfg, s) && HolderOk(s) && PhasesOk(cfg, s)
    requires Enabled(cfg, s, Record(w, now)) && OnTime(s, Record(w, now))
    ensures var t := AfterRecord(cfg, s, w, now);
            forall v :: 0 <= v < |t.workers| ==> PhaseTimely(t, t.workers[v].phase)
  {
    AtHand(cfg, s, w);
    var t := AfterRecord(cfg, s, w, now);
    var ph := s.workers[w].phase;
    var id := ph.todo[0].event.id;
    assert PhaseOk(cfg, s, ph);
    TailIds(ph.todo);
    assert forall i :: i in t.rows && i != id ==> t.rows[i].dueAt == s.rows[i].dueAt;
    forall v | 0 <= v < |t.workers| ensures PhaseTimely(t, t.workers[v].phase) {
      assert PhaseTimely(s, s.workers[v].phase);
      if v != w {
        assert !Held(s.workers[v].phase, id);
      }
    }
  }

  lemma HandleKeepsTimes(cfg: Config, s: State, w: nat, records: bool, outcome: Outcome)
    requires cfg.maxAttempts >= 1 && TimesOk(cfg, s) && Enabled(cfg, s, Handle(w, records, outcome))
    ensures TimesOk(cfg, AfterHandle(s, w, records, outcome))
  {
    var t := AfterHandle(s, w, records, outcome);
    assert t.workers[w].phase.todo == s.workers[w].phase.todo;
    TimesStay(cfg, s, t);
  }

  lemma PassKeepsTimes(cfg: Config, s: State, w: nat)
    requires cfg.maxAttempts >= 1 && TimesOk(cfg, s) && Enabled(cfg, s, Pass(w))
    ensures TimesOk(cfg, AfterPass(s, w))
  {
    TailIds(s.workers[w].phase.todo);
    TimesStay(cfg, s, AfterPass(s, w));
  }

  lemma FinishKeepsTimes(cfg: Config, s: State, w: nat)
    requires cfg.maxAttempts >= 1 && TimesOk(cfg, s) && Enabled(cfg, s, Finish(w))
    ensures TimesOk(cfg, AfterFinish(s, w))
  {
    TimesStay(cfg, s, AfterFinish(s, w));
  }

  lemma RecordKeepsTimes(cfg: Config, s: State, w: nat, now: Time)
    requires cfg.maxAttempts >= 1 && RowsOk(cfg, s) && TimesOk(cfg, s) && HolderOk(s) && PhasesOk(cfg, s)
    requires Enabled(cfg, s, Record(w, now)) && OnTime(s, Record(w, now))
    ensures TimesOk(cfg, AfterRecord(cfg, s, w, now))
  {
    AtHand(cfg, s, w);
    RecordKeepsRowTimes(cfg, s, w, now);
    RecordKeepsReadings(cfg, s, w, now);
  }

  lemma HeldIsStored(s: State)
    requires HolderOk(s)
    ensures forall w :: 0 <= w < |s.workers| ==> forall i :: Held(s.workers[w].phase, i) ==> i in s.rows
  {
    forall w, i | 0 <= w < |s.workers| && Held(s.workers[w].phase, i) ensures i in s.rows {
      assert i in s.past.holder;
    }
  }

  lemma StepKeepsTimes(cfg: Config, s: State, step: Step)
    requires Inv(cfg, s) && TimesOk(cfg, s) && Enabled(cfg, s, step) && OnTime(s, step)
    ensures TimesOk(cfg, Apply(cfg, s, step))
  {
    match step
    case Tick(to) => TimesStay(cfg, s, s.(clock := to));
    case Add(evs) =>
      HeldIsStored(s);
      AddKeepsTimes(cfg, s, evs);
    case Claim(w, now, batch) => ClaimKeepsTimes(cfg, s, w, now, batch);
    case Handle(w, records, outcome) => HandleKeepsTimes(cfg, s, w, records, outcome);
    case Pass(w) => PassKeepsTimes(cfg, s, w);
    case Record(w, now) => RecordKeepsTimes(cfg, s, w, now);
    case Finish(w) => FinishKeepsTimes(cfg, s, w);
    case Bump(w) => TimesStay(cfg, s, AfterBump(s, w));
  }

  lemma {:induction false} RunKeepsTimes(cfg: Config, s: State, steps: seq<Step>)
    requires Inv(cfg, s) && TimesOk(cfg, s) && Legal(cfg, s, steps) && Steady(cfg, s, steps)
    ensures TimesOk(cfg, Run(cfg, s, steps))
    decreases steps
  {
    if steps == [] {
    } else {
      StepKeepsInv(cfg, s, steps[0]);
      StepKeepsTimes(cfg, s, steps[0]);
      RunKeepsTimes(cfg, Apply(cfg, s, steps[0]), steps[1..]);
    }
  }
}
