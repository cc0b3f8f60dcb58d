/** pkg/outbox/dispatcher.go: the dispatcher as it runs, over the store as it stores,
    shown to do nothing but steps of the protocol. */
module OutboxDispatcher {
  import opened Collections
  import opened OutboxStore
  import opened OutboxProtocol
  import opened OutboxInvariant
  import opened OutboxTheorems

  /** What one Dispatch meets: its successive clock readings, how each handler call on
      each row ends, and whether that call had written its record by then. */
  datatype World = World(clock: nat -> Time, outcome: (Pending, nat) -> Outcome, records: (Pending, nat) -> bool)

  /** The clock reads later than the zero time, and a handler that succeeds has recorded. */
  ghost predicate Sane(world: World) {
    && (forall i :: world.clock(i) > ZERO_TIME)
    && (forall p, h :: world.outcome(p, h).Ok? ==> world.records(p, h))
  }

  /** And never steps back: only the timing of burials rests on this. */
  ghost predicate NeverBack(world: World) {
    forall i, j :: i <= j ==> world.clock(i) <= world.clock(j)
  }

  /** The cause of the first failure among handlers h and on, if there is one. */
  function Verdict(world: World, p: Pending, h: nat, handlers: nat): Option<string>
    requires h <= handlers
    decreases handlers - h
  {
    if h == handlers then None
    else if world.outcome(p, h).Ok? then Verdict(world, p, h + 1, handlers)
    else Some(CauseOf(p.event, world.outcome(p, h)))
  }

  /** All handlers share one attempt: it passes only if every one of them does. */
  lemma {:induction false} VerdictIsShared(world: World, p: Pending, h: nat, handlers: nat)
    requires h <= handlers
    ensures Verdict(world, p, h, handlers).None? <==> forall k :: h <= k < handlers ==> world.outcome(p, k).Ok?
    decreases handlers - h
  {
    if h < handlers {
      VerdictIsShared(world, p, h + 1, handlers);
    }
  }

  // ---- One row, in steps of the protocol ------------------------------------------

  lemma {:induction false} DeliverSteps(cfg: Config, s: State, w: nat, world: World) returns (steps: seq<Step>)
    requires Sane(world) && AtRow(s, w) && |s.ledgers| == cfg.handlers
    requires s.workers[w].phase.cause.None? && s.workers[w].phase.handler <= cfg.handlers
    ensures Legal(cfg, s, steps) && ClaimCount(steps) == 0 && NoAdds(steps) && Steady(cfg, s, steps)
    ensures var t, ph := Run(cfg, s, steps), s.workers[w].phase;
            var verdict := Verdict(world, ph.todo[0], ph.handler, cfg.handlers);
            && t.clock == s.clock && t.rows == s.rows && AtRow(t, w) && |t.ledgers| == |s.ledgers|
            && (verdict.None? ==> t.workers == SetPhase(s, w, ph.(handler := cfg.handlers)))
            && (verdict.Some? ==>
                  && t.workers == SetPhase(s, w, t.workers[w].phase)
                  && t.workers[w].phase.(handler := ph.handler) == ph.(cause := verdict)
                  && t.workers[w].phase.handler < cfg.handlers)
    decreases cfg.handlers - s.workers[w].phase.handler
  {
    var ph := s.workers[w].phase;
    var p, h := ph.todo[0], ph.handler;
    if h == cfg.handlers {
      steps := [];
    } else {
      var step := Handle(w, world.records(p, h), world.outcome(p, h));
      var t := Apply(cfg, s, step);
      if world.outcome(p, h).Ok? {
        var rest := DeliverSteps(cfg, t, w, world);
        steps := [step] + rest;
        assert steps[1..] == rest;
      } else {
        steps := [step];
        assert steps[1..] == [];
      }
    }
  }

  ghost predicate NoAdds(steps: seq<Step>) {
    forall k :: 0 <= k < |steps| ==> !steps[k].Add?
  }

  lemma {:induction false} ClaimCountAppend(a: seq<Step>, b: seq<Step>)
    ensures ClaimCount(a + b) == ClaimCount(a) + ClaimCount(b)
  {
    if a == [] {
      assert a + b == b;
    } else {
      ClaimCountAppend(a[1..], b);
      assert (a + b)[0] == a[0] && (a + b)[1..] == a[1..] + b;
    }
  }

  /** Two runs, one after the other. */
  lemma Join(cfg: Config, s: State, a: seq<Step>, b: seq<Step>)
    requires Legal(cfg, s, a) && Legal(cfg, Run(cfg, s, a), b) && NoAdds(a) && NoAdds(b)
    ensures Legal(cfg, s, a + b) && NoAdds(a + b) && ClaimCount(a + b) == ClaimCount(a) + ClaimCount(b)
    ensures Run(cfg, s, a + b) == Run(cfg, Run(cfg, s, a), b)
    ensures Steady(cfg, s, a) && Steady(cfg, Run(cfg, s, a), b) ==> Steady(cfg, s, a + b)
  {
    RunAppend(cfg, s, a, b);
    ClaimCountAppend(a, b);
    if Steady(cfg, s, a) && Steady(cfg, Run(cfg, s, a), b) {
      SteadyAppend(cfg, s, a, b);
    }
  }

  lemma JustOne(cfg: Config, s: State, step: Step)
    requires Enabled(cfg, s, step) && !step.Add?
    ensures Legal(cfg, s, [step]) && Run(cfg, s, [step]) == Apply(cfg, s, step)
    ensures ClaimCount([step]) == (if step.Claim? then 1 else 0) && NoAdds([step])
    ensures OnTime(s, step) ==> Steady(cfg, s, [step])
  {
    OneStep(cfg, s, step);
  }

  ghost function Late(s: State, at: Time): State {
    s.(clock := if s.clock < at then at else s.clock)
  }

  /** One step, after the clock has caught up with a reading. */
  lemma Timely(cfg: Config, s: State, at: Time, step: Step) returns (steps: seq<Step>)
    requires Enabled(cfg, Late(s, at), step) && !step.Add?
    ensures Legal(cfg, s, steps) && NoAdds(steps) && ClaimCount(steps) == (if step.Claim? then 1 else 0)
    ensures Run(cfg, s, steps) == Apply(cfg, Late(s, at), step)
    ensures step in steps
    ensures OnTime(Late(s, at), step) ==> Steady(cfg, s, steps)
  {
    var tick := Tick(Late(s, at).clock);
    JustOne(cfg, s, tick);
    JustOne(cfg, Late(s, at), step);
    Join(cfg, s, [tick], [step]);
    steps := [tick] + [step];
  }

  /** The same, and then its count. */
  lemma WithCount(cfg: Config, s: State, at: Time, step: Step, w: nat) returns (steps: seq<Step>)
    requires Enabled(cfg, Late(s, at), step) && !step.Add?
    requires Enabled(cfg, Apply(cfg, Late(s, at), step), Bump(w))
    ensures Legal(cfg, s, steps) && NoAdds(steps) && ClaimCount(steps) == (if step.Claim? then 1 else 0)
    ensures Run(cfg, s, steps) == AfterBump(Apply(cfg, Late(s, at), step), w)
    ensures step in steps
    ensures OnTime(Late(s, at), step) ==> Steady(cfg, s, steps)
  {
    var first := Timely(cfg, s, at, step);
    JustOne(cfg, Run(cfg, s, first), Bump(w));
    Join(cfg, s, first, [Bump(w)]);
    steps := first + [Bump(w)];
  }

  ghost function Settled(cfg: Config, st: Stats, p: Pending, verdict: Option<string>): Stats {
    if verdict.None? then st
    else if p.attempts + 1 >= cfg.maxAttempts then st.(buried := st.buried + 1)
    else st.(failed := st.failed + 1)
  }

  ghost function SettledRows(cfg: Config, rows: Rows, p: Pending, verdict: Option<string>, at: Time): Rows {
    if verdict.None? then rows else FailOne(rows, p.event.id, verdict.value, RetryAt(cfg, p.attempts + 1, at))
  }

  /** The worker is past its first row: its statistics, and what is left to do. */
  ghost predicate MovedOn(t: State, s: State, w: nat, st: Stats, todo: seq<Pending>, done: seq<EventId>,
                          at: Time, world: World) {
    && w < |s.workers| && AtWork(t, w) && t.workers == s.workers[w := t.workers[w]]
    && t.workers[w].stats == st
    && (NeverBack(world) ==> t.workers[w].phase.readAt <= at)
    && t.workers[w].phase == Busy(t.workers[w].phase.readAt, todo, 0, None, done)
  }

  lemma SettleSteps(cfg: Config, s: State, w: nat, world: World, at: Time) returns (steps: seq<Step>)
    requires Sane(world) && AtRow(s, w) && |s.ledgers| == cfg.handlers
    requires s.workers[w].phase.cause.None? && s.workers[w].phase.handler == 0
    requires at > ZERO_TIME && (NeverBack(world) ==> s.workers[w].phase.readAt <= at)
    ensures Legal(cfg, s, steps) && ClaimCount(steps) == 0 && NoAdds(steps)
    ensures NeverBack(world) ==> Steady(cfg, s, steps)
    ensures var t, ph := Run(cfg, s, steps), s.workers[w].phase;
            var p := ph.todo[0];
            var verdict := Verdict(world, p, 0, cfg.handlers);
            && t.rows == SettledRows(cfg, s.rows, p, verdict, at) && |t.ledgers| == |s.ledgers|
            && MovedOn(t, s, w, Settled(cfg, s.workers[w].stats, p, verdict), ph.todo[1..],
                       if verdict.None? then ph.done + [p.event.id] else ph.done, at, world)
  {
    var tried := DeliverSteps(cfg, s, w, world);
    var t := Run(cfg, s, tried);
    var more;
    if Verdict(world, s.workers[w].phase.todo[0], 0, cfg.handlers).None? {
      more := [Pass(w)];
      JustOne(cfg, t, Pass(w));
    } else {
      more := RecordLate(cfg, t, w, at, world);
    }
    Join(cfg, s, tried, more);
    steps := tried + more;
  }

  lemma RecordLate(cfg: Config, t: State, w: nat, at: Time, world: World) returns (more: seq<Step>)
    requires AtRow(t, w) && t.workers[w].phase.cause.Some?
    requires at > ZERO_TIME && (NeverBack(world) ==> t.workers[w].phase.readAt <= at)
    ensures Legal(cfg, t, more) && ClaimCount(more) == 0 && NoAdds(more)
    ensures NeverBack(world) ==> Steady(cfg, t, more)
    ensures var u, ph := Run(cfg, t, more), t.workers[w].phase;
            && u.rows == SettledRows(cfg, t.rows, ph.todo[0], ph.cause, at) && u.ledgers == t.ledgers
            && MovedOn(u, t, w, Settled(cfg, t.workers[w].stats, ph.todo[0], ph.cause), ph.todo[1..], ph.done, at,
                world)
  {
    more := WithCount(cfg, t, at, Record(w, at), w);
  }

  /** The text of a failure: the handler's own, or that it panicked and on what. */
  ghost predicate IsCause(text: string, name: string, outcome: Outcome) {
    && (outcome.Error? ==> text == outcome.cause)
    && (outcome.Panic? ==> text == "outbox: handler panicked on " + name + ": " + outcome.value)
    && !outcome.Ok?
  }

  class Dispatcher {
    const cfg: Config
    const store: Memory
    var stats: Stats

    constructor (cfg: Config, store: Memory)
      ensures this.cfg == cfg && this.store == store && stats == Stats(0, 0, 0, 0)
    {
      this.cfg := cfg;
      this.store := store;
      stats := Stats(0, 0, 0, 0);
    }

    /** Hands the event to every handler until one fails; a panic is contained and counts
        as a failure. Returns how many handlers were called. */
    method Deliver(p: Pending, world: World) returns (err: Option<string>, called: nat)
      ensures err == Verdict(world, p, 0, cfg.handlers)
      ensures called <= cfg.handlers && forall k :: 0 <= k < called - 1 ==> world.outcome(p, k).Ok?
      ensures err.None? ==> called == cfg.handlers
      ensures err.Some? ==> called > 0 && IsCause(err.value, p.event.name, world.outcome(p, called - 1))
    {
      called := 0;
      while called < cfg.handlers
        invariant called <= cfg.handlers
        invariant forall k :: 0 <= k < called ==> world.outcome(p, k).Ok?
        invariant Verdict(world, p, 0, cfg.handlers) == Verdict(world, p, called, cfg.handlers)
      {
        var outcome := world.outcome(p, called);
        called := called + 1;
        match outcome
        case Ok =>
        case Error(cause) => return Some(cause), called;
        case Panic(value) => return Some("outbox: handler panicked on " + p.event.name + ": " + value), called;
      }
      err := None;
    }

    method Fail(p: Pending, cause: string, now: Time)
      modifies store, this`stats
      ensures store.rows == SettledRows(cfg, old(store.rows), p, Some(cause), now)
      ensures stats == Settled(cfg, old(stats), p, Some(cause))
      ensures stats.runs == old(stats).runs && stats.delivered == old(stats).delivered
      ensures stats.buried == old(stats).buried + (if p.attempts + 1 >= cfg.maxAttempts then 1 else 0)
      ensures stats.failed == old(stats).failed + (if p.attempts + 1 >= cfg.maxAttempts then 0 else 1)
      ensures store.rows.Keys == old(store.rows).Keys
      ensures forall i :: i in store.rows && i != p.event.id ==> store.rows[i] == old(store.rows)[i]
      ensures p.event.id in store.rows ==>
                var was, row := old(store.rows)[p.event.id], store.rows[p.event.id];
                && row.event == was.event && row.written == was.written
                && row.attempts == was.attempts + 1 && !row.claimed && row.reason == cause
                && (if p.attempts + 1 >= cfg.maxAttempts || now + cfg.backoff(p.attempts + 1) == 0
                    then row.buried && row.dueAt == was.dueAt
                    else row.buried == was.buried && row.dueAt == now + cfg.backoff(p.attempts + 1))
    {
      var attempts := p.attempts + 1;
      if attempts >= cfg.maxAttempts {
        store.Failed([p.event.id], cause, ZERO_TIME);
        stats := stats.(buried := stats.buried + 1);
        FailSingle(old(store.rows), p.event.id, cause, ZERO_TIME);
        return;
      }
      var retryAt := now + cfg.backoff(attempts);
      store.Failed([p.event.id], cause, retryAt);
      FailSingle(old(store.rows), p.event.id, cause, retryAt);
      stats := stats.(failed := stats.failed + 1);
    }

    /** The protocol state s is this dispatcher's view: the same rows, and worker w idle
        with these statistics. */
    ghost predicate IsWorker(s: State, w: nat)
      reads this, store
    {
      s.rows == store.rows && w < |s.workers| && s.workers[w] == Worker(Idle, stats, NoCount)
    }

    /** Claims one batch, delivers it, and returns how many were drained. Whatever the
        handlers and the clock do, all of it is steps of the protocol, one of them a claim. */
    method Dispatch(world: World, ghost s: State, ghost w: nat)
      returns (n: nat, ghost batch: seq<Pending>, ghost steps: seq<Step>)
      requires IsWorker(s, w) && |s.ledgers| == cfg.handlers && Keyed(store.rows) && Sane(world)
      modifies store, this`stats
      ensures ClaimOf(old(store.rows), cfg.batch, world.clock(0), batch)
      ensures store.rows == RowsAfterDispatch(cfg, old(store.rows), batch, world)
      ensures n == |Passing(batch, world, cfg.handlers)|
      ensures stats.runs == old(stats).runs + 1 && stats.delivered == old(stats).delivered + n
      ensures stats.failed == old(stats).failed + Failures(cfg, batch, world, false)
      ensures stats.buried == old(stats).buried + Failures(cfg, batch, world, true)
      ensures Legal(cfg, s, steps) && NoAdds(steps) && ClaimCount(steps) == 1
      ensures Claim(w, world.clock(0), batch) in steps
      ensures IsWorker(Run(cfg, s, steps), w)
      ensures NeverBack(world) ==> Steady(cfg, s, steps)
    {
      var now := world.clock(0);
      var claimed := store.Claim(cfg.batch, now);
      batch := claimed;
      stats := stats.(runs := stats.runs + 1);
      steps := EnterBatch(cfg, s, w, world, batch);
      ghost var st, rows0 := stats, store.rows;
      var done: seq<EventId> := [];
      for k := 0 to |claimed|
        invariant InBatch(cfg, s, w, world, batch, k, steps, rows0, store.rows, stats, done)
        invariant stats.runs == st.runs && stats.delivered == st.delivered
        invariant stats.failed == st.failed + Failures(cfg, batch[..k], world, false)
        invariant stats.buried == st.buried + Failures(cfg, batch[..k], world, true)
      {
        var p := claimed[k];
        OneMoreFailure(cfg, batch, k, world);
        ghost var was := store.rows;
        steps := NextRow(cfg, s, w, world, batch, k, steps, rows0, store.rows, stats, done);
        var err, called := Deliver(p, world);
        if err.Some? {
          Fail(p, err.value, world.clock(k + 1));
          assert store.rows == SettledRows(cfg, was, p, Some(err.value), world.clock(k + 1));
          continue;
        }
        done := done + [p.event.id];
      }
      assert batch[..|batch|] == batch;
      steps := LeaveBatch(cfg, s, w, world, batch, steps, rows0, store.rows, stats, done);
      if |done| > 0 {
        store.Delivered(done);
        stats := stats.(delivered := stats.delivered + |done|);
      }
      n := |done|;
    }

    /** Dispatches until nothing is drained. Every call but the last drains a row, so the
        number of rows bounds the calls; the last batch had no delivery that passed. */
    method Drain(worlds: nat -> World, ghost s: State, ghost w: nat)
      returns (calls: nat, ghost before: Rows, ghost batch: seq<Pending>, ghost steps: seq<Step>)
      requires Inv(cfg, s) && IsWorker(s, w) && forall k :: Sane(worlds(k))
      modifies store, this`stats
      ensures calls <= |old(store.rows)|
      ensures ClaimOf(before, cfg.batch, worlds(calls).clock(0), batch)
      ensures store.rows == RowsAfterDispatch(cfg, before, batch, worlds(calls))
      ensures Passing(batch, worlds(calls), cfg.handlers) == []
      ensures Legal(cfg, s, steps) && NoAdds(steps) && ClaimCount(steps) == calls + 1
      ensures IsWorker(Run(cfg, s, steps), w)
      ensures AllNeverBack(worlds) ==> Steady(cfg, s, steps)
    {
      calls, steps := 0, [];
      while true
        invariant IsRun(cfg, s, steps, calls, worlds)
        invariant IsWorker(Run(cfg, s, steps), w)
        invariant calls + |store.rows| <= |old(store.rows)|
        decreases |store.rows|
      {
        ghost var t := Run(cfg, s, steps);
        ViewOf(cfg, s, steps);
        before := store.rows;
        ghost var more;
        var n;
        n, batch, more := Dispatch(worlds(calls), t, w);
        steps := OneMoreCall(cfg, s, steps, more, calls, worlds);
        DispatchRemovesPassed(cfg, before, worlds(calls).clock(0), batch, worlds(calls));
        if n == 0 {
          return;
        }
        calls := calls + 1;
      }
    }
  }

  ghost predicate AllNeverBack(worlds: nat -> World) {
    forall k :: NeverBack(worlds(k))
  }

  /** A run of the protocol with so many claims in it. */
  ghost predicate IsRun(cfg: Config, s: State, steps: seq<Step>, claims: nat, worlds: nat -> World) {
    && Legal(cfg, s, steps) && NoAdds(steps) && ClaimCount(steps) == claims
    && (AllNeverBack(worlds) ==> Steady(cfg, s, steps))
  }

  lemma OneMoreCall(cfg: Config, s: State, steps: seq<Step>, more: seq<Step>, k: nat, worlds: nat -> World)
    returns (all: seq<Step>)
    requires IsRun(cfg, s, steps, k, worlds)
    requires var t := Run(cfg, s, steps);
             && Legal(cfg, t, more) && NoAdds(more) && ClaimCount(more) == 1
             && (NeverBack(worlds(k)) ==> Steady(cfg, t, more))
    ensures IsRun(cfg, s, all, k + 1, worlds)
    ensures Run(cfg, s, all) == Run(cfg, Run(cfg, s, steps), more)
  {
    Join(cfg, s, steps, more);
    all := steps + more;
  }

  lemma ViewOf(cfg: Config, s: State, steps: seq<Step>)
    requires Inv(cfg, s) && Legal(cfg, s, steps)
    ensures Keyed(Run(cfg, s, steps).rows) && |Run(cfg, s, steps).ledgers| == cfg.handlers
  {
    RunKeepsInv(cfg, s, steps);
  }

  lemma FailSingle(rows: Rows, id: EventId, reason: string, retryAt: Time)
    ensures FailAll(rows, [id], reason, retryAt) == FailOne(rows, id, reason, retryAt)
  {
    assert [id][..0] == [];
    assert FailAll(rows, [id][..0], reason, retryAt) == rows;
  }

  lemma UpTo(batch: seq<Pending>, k: nat)
    requires k < |batch|
    ensures batch[..k + 1][..k] == batch[..k] && batch[..k + 1][k] == batch[k]
    ensures batch[k..][0] == batch[k] && batch[k..][1..] == batch[k + 1..]
  {
  }

  /** The rows after the first rows of a batch have passed or failed, in order. */
  ghost function SettledAll(cfg: Config, rows: Rows, ps: seq<Pending>, world: World): Rows {
    if ps == [] then rows
    else
      var k := |ps| - 1;
      SettledRows(cfg, SettledAll(cfg, rows, ps[..k], world), ps[k], Verdict(world, ps[k], 0, cfg.handlers),
          world.clock(k + 1))
  }

  ghost function Passing(ps: seq<Pending>, world: World, handlers: nat): seq<EventId> {
    if ps == [] then []
    else
      var k := |ps| - 1;
      Passing(ps[..k], world, handlers) + if Verdict(world, ps[k], 0, handlers).None? then [ps[k].event.id] else []
  }

  ghost function RowsAfterDispatch(cfg: Config, rows: Rows, batch: seq<Pending>, world: World): Rows {
    Without(SettledAll(cfg, MarkClaimed(rows, Ids(batch)), batch, world), Passing(batch, world, cfg.handlers))
  }

  /** Where Dispatch stands after settling the first k rows of its batch: what the store
      and the dispatcher hold is what a run of the protocol has led to. */
  ghost predicate InBatch(cfg: Config, s: State, w: nat, world: World, batch: seq<Pending>, k: nat, steps: seq<Step>,
                          rows0: Rows, rows: Rows, st: Stats, done: seq<EventId>) {
    && k <= |batch|
    && Legal(cfg, s, steps) && NoAdds(steps) && ClaimCount(steps) == 1 && Claim(w, world.clock(0), batch) in steps
    && rows == Run(cfg, s, steps).rows && |Run(cfg, s, steps).ledgers| == cfg.handlers
    && (NeverBack(world) ==> Steady(cfg, s, steps))
    && MovedOn(Run(cfg, s, steps), s, w, st, batch[k..], done, world.clock(k), world)
    && rows == SettledAll(cfg, rows0, batch[..k], world)
    && done == Passing(batch[..k], world, cfg.handlers)
  }

  lemma EnterBatch(cfg: Config, s: State, w: nat, world: World, batch: seq<Pending>) returns (steps: seq<Step>)
    requires |s.ledgers| == cfg.handlers && Sane(world)
    requires w < |s.workers| && s.workers[w].phase.Idle? && s.workers[w].owes.NoCount?
    requires ClaimOf(s.rows, cfg.batch, world.clock(0), batch)
    ensures var st := s.workers[w].stats; var rows0 := MarkClaimed(s.rows, Ids(batch));
            InBatch(cfg, s, w, world, batch, 0, steps, rows0, rows0, st.(runs := st.runs + 1), [])
  {
    steps := WithCount(cfg, s, world.clock(0), Claim(w, world.clock(0), batch), w);
    assert batch[..0] == [] && batch[0..] == batch;
  }

  lemma NextRow(cfg: Config, s: State, w: nat, world: World, batch: seq<Pending>, k: nat, steps: seq<Step>,
                rows0: Rows, rows: Rows, st: Stats, done: seq<EventId>) returns (longer: seq<Step>)
    requires Sane(world) && k < |batch|
    requires InBatch(cfg, s, w, world, batch, k, steps, rows0, rows, st, done)
    ensures var verdict := Verdict(world, batch[k], 0, cfg.handlers);
            InBatch(cfg, s, w, world, batch, k + 1, longer, rows0,
                    SettledRows(cfg, rows, batch[k], verdict, world.clock(k + 1)), Settled(cfg, st, batch[k], verdict),
                    if verdict.None? then done + [batch[k].event.id] else done)
  {
    UpTo(batch, k);
    assert NeverBack(world) ==> world.clock(k) <= world.clock(k + 1);
    OneMoreSettled(cfg, batch, k, world, rows0);
    longer := RowSteps(cfg, s, w, world, steps, st, batch[k..], done, world.clock(k), world.clock(k + 1));
  }

  lemma OneMoreSettled(cfg: Config, batch: seq<Pending>, k: nat, world: World, rows0: Rows)
    requires k < |batch|
    ensures var verdict := Verdict(world, batch[k], 0, cfg.handlers);
            && SettledAll(cfg, rows0, batch[..k + 1], world)
                 == SettledRows(cfg, SettledAll(cfg, rows0, batch[..k], world), batch[k], verdict, world.clock(k + 1))
            && Passing(batch[..k + 1], world, cfg.handlers)
                 == Passing(batch[..k], world, cfg.handlers) + if verdict.None? then [batch[k].event.id] else []
  {
    UpTo(batch, k);
  }

  /** The steps that settle the next row, after those that led to it. */
  lemma RowSteps(cfg: Config, s: State, w: nat, world: World, steps: seq<Step>, st: Stats, todo: seq<Pending>,
                 done: seq<EventId>, from: Time, at: Time) returns (longer: seq<Step>)
    requires Sane(world) && todo != [] && at > ZERO_TIME && (NeverBack(world) ==> from <= at)
    requires Legal(cfg, s, steps) && NoAdds(steps) && |Run(cfg, s, steps).ledgers| == cfg.handlers
    requires NeverBack(world) ==> Steady(cfg, s, steps)
    requires MovedOn(Run(cfg, s, steps), s, w, st, todo, done, from, world)
    ensures Legal(cfg, s, longer) && NoAdds(longer) && ClaimCount(longer) == ClaimCount(steps)
    ensures steps <= longer && (NeverBack(world) ==> Steady(cfg, s, longer))
    ensures var t, p := Run(cfg, s, longer), todo[0];
            var verdict := Verdict(world, p, 0, cfg.handlers);
            && t.rows == SettledRows(cfg, Run(cfg, s, steps).rows, p, verdict, at) && |t.ledgers| == cfg.handlers
            && MovedOn(t, s, w, Settled(cfg, st, p, verdict), todo[1..],
                       if verdict.None? then done + [p.event.id] else done, at, world)
  {
    var more := SettleSteps(cfg, Run(cfg, s, steps), w, world, at);
    Join(cfg, s, steps, more);
    longer := steps + more;
  }

  lemma LeaveBatch(cfg: Config, s: State, w: nat, world: World, batch: seq<Pending>, steps: seq<Step>,
                   rows0: Rows, rows: Rows, st: Stats, done: seq<EventId>) returns (all: seq<Step>)
    requires InBatch(cfg, s, w, world, batch, |batch|, steps, rows0, rows, st, done)
    ensures Legal(cfg, s, all) && NoAdds(all) && ClaimCount(all) == 1 && Claim(w, world.clock(0), batch) in all
    ensures var t := Run(cfg, s, all);
            && t.rows == Without(rows, done)
            && w < |t.workers| && t.workers[w] == Worker(Idle, st.(delivered := st.delivered + |done|), NoCount)
    ensures NeverBack(world) ==> Steady(cfg, s, all)
    ensures rows == SettledAll(cfg, rows0, batch, world)
    ensures done == Passing(batch, world, cfg.handlers)
    ensures done == [] ==> Without(rows, done) == rows
  {
    assert batch[..|batch|] == batch && batch[|batch|..] == [];
    var last := LastSteps(cfg, Run(cfg, s, steps), w);
    Join(cfg, s, steps, last);
    all := steps + last;
  }

  lemma LastSteps(cfg: Config, s: State, w: nat) returns (steps: seq<Step>)
    requires AtWork(s, w) && s.workers[w].phase.todo == []
    ensures Legal(cfg, s, steps) && NoAdds(steps) && ClaimCount(steps) == 0 && Steady(cfg, s, steps)
    ensures var t, done, st := Run(cfg, s, steps), s.workers[w].phase.done, s.workers[w].stats;
            && t.rows == Without(s.rows, done) && w < |t.workers|
            && t.workers[w] == Worker(Idle, st.(delivered := st.delivered + |done|), NoCount)
  {
    JustOne(cfg, s, Finish(w));
    steps := [Finish(w)];
    var t := AfterFinish(s, w);
    if s.workers[w].phase.done != [] {
      JustOne(cfg, t, Bump(w));
      Join(cfg, s, steps, [Bump(w)]);
      steps := steps + [Bump(w)];
    }
  }

  // ---- What one Dispatch does to each row ----------------------------------------

  ghost function AfterSettling(cfg: Config, r: Row, p: Pending, world: World, k: nat): Row {
    var verdict := Verdict(world, p, 0, cfg.handlers);
    if verdict.None? then r else FailRow(r, verdict.value, RetryAt(cfg, p.attempts + 1, world.clock(k + 1)))
  }

  lemma {:induction false} SettledRow(cfg: Config, rows: Rows, ps: seq<Pending>, world: World, i: EventId)
    requires NoDup(Ids(ps)) && forall j :: j in Ids(ps) ==> j in rows
    ensures SettledAll(cfg, rows, ps, world).Keys == rows.Keys
    ensures i in rows && i !in Ids(ps) ==> SettledAll(cfg, rows, ps, world)[i] == rows[i]
    ensures forall k :: 0 <= k < |ps| && ps[k].event.id == i && i in rows ==>
              SettledAll(cfg, rows, ps, world)[i] == AfterSettling(cfg, rows[i], ps[k], world, k)
  {
    if ps == [] {
    } else {
      var n := |ps| - 1;
      var front, last := ps[..n], ps[n];
      FrontIds(ps);
      SettledRow(cfg, rows, front, world, i);
      assert SettledAll(cfg, rows, ps, world) ==
             SettledRows(cfg, SettledAll(cfg, rows, front, world), last, Verdict(world, last, 0, cfg.handlers),
                 world.clock(n + 1));
      forall k | 0 <= k < |ps| && ps[k].event.id == i && i in rows
        ensures SettledAll(cfg, rows, ps, world)[i] == AfterSettling(cfg, rows[i], ps[k], world, k)
      {
        if k < n {
          assert front[k] == ps[k] && Ids(ps)[k] == i;
        }
      }
    }
  }

  lemma FrontIds(ps: seq<Pending>)
    requires ps != []
    ensures var n := |ps| - 1; Ids(ps) == Ids(ps[..n]) + [ps[n].event.id]
    ensures NoDup(Ids(ps)) ==> NoDup(Ids(ps[..|ps| - 1])) && ps[|ps| - 1].event.id !in Ids(ps[..|ps| - 1])
  {
    var n := |ps| - 1;
    var ids, front := Ids(ps), Ids(ps[..n]);
    assert ids == front + [ids[n]];
    if NoDup(ids) {
      assert forall k :: 0 <= k < n ==> front[k] == ids[k];
    }
  }

  lemma {:induction false} PassingIds(ps: seq<Pending>, world: World, handlers: nat)
    requires NoDup(Ids(ps))
    ensures NoDup(Passing(ps, world, handlers))
    ensures forall i :: i in Passing(ps, world, handlers) ==> i in Ids(ps)
    ensures forall k :: 0 <= k < |ps| ==>
              (ps[k].event.id in Passing(ps, world, handlers) <==> Verdict(world, ps[k], 0, handlers).None?)
  {
    if ps == [] {
    } else {
      var n := |ps| - 1;
      FrontIds(ps);
      PassingIds(ps[..n], world, handlers);
      forall k | 0 <= k < |ps|
        ensures ps[k].event.id in Passing(ps, world, handlers) <==> Verdict(world, ps[k], 0, handlers).None?
      {
        if k < n {
          assert ps[..n][k] == ps[k] && Ids(ps[..n])[k] == ps[k].event.id;
        }
      }
    }
  }

  /** One poisoned event does not stop the rest: of the batch, the rows that passed are
      gone, each of the others is back with one more attempt and its own retry time, or
      buried; rows outside the batch are as they were. */
  lemma DispatchSettlesEachRow(cfg: Config, rows: Rows, now: Time, batch: seq<Pending>, world: World, i: EventId)
    requires ClaimOf(rows, cfg.batch, now, batch)
    ensures var after := RowsAfterDispatch(cfg, rows, batch, world);
            && (i !in Ids(batch) ==> (i in after <==> i in rows) && (i in rows ==> after[i] == rows[i]))
            && (forall k :: 0 <= k < |batch| && batch[k].event.id == i ==>
                  var verdict := Verdict(world, batch[k], 0, cfg.handlers);
                  && (verdict.None? ==> i !in after)
                  && (verdict.Some? ==> i in rows && i in after)
                  && (verdict.Some? ==>
                        after[i] ==
                        FailRow(rows[i], verdict.value, RetryAt(cfg, batch[k].attempts + 1, world.clock(k + 1)))))
  {
    BatchInRows(rows, cfg.batch, now, batch);
    SettledRow(cfg, MarkClaimed(rows, Ids(batch)), batch, world, i);
    PassingIds(batch, world, cfg.handlers);
    forall k | 0 <= k < |batch| && batch[k].event.id == i && Verdict(world, batch[k], 0, cfg.handlers).Some?
      ensures AfterSettling(cfg, MarkClaimed(rows, Ids(batch))[i], batch[k], world, k)
                == FailRow(rows[i], Verdict(world, batch[k], 0, cfg.handlers).value,
                           RetryAt(cfg, batch[k].attempts + 1, world.clock(k + 1)))
    {
      assert Ids(batch)[k] == i;
      FailedWhenClaimed(cfg, rows, batch, world, k, i);
    }
  }

  /** Failing a row releases it, so it does not show that it had been claimed. */
  lemma FailedWhenClaimed(cfg: Config, rows: Rows, batch: seq<Pending>, world: World, k: nat, i: EventId)
    requires k < |batch| && i in rows && i in Ids(batch) && Verdict(world, batch[k], 0, cfg.handlers).Some?
    ensures var verdict := Verdict(world, batch[k], 0, cfg.handlers);
            AfterSettling(cfg, MarkClaimed(rows, Ids(batch))[i], batch[k], world, k)
            == FailRow(rows[i], verdict.value, RetryAt(cfg, batch[k].attempts + 1, world.clock(k + 1)))
  {
  }

  lemma BatchInRows(rows: Rows, n: nat, now: Time, batch: seq<Pending>)
    requires ClaimOf(rows, n, now, batch)
    ensures forall j :: j in Ids(batch) ==> j in rows && Due(rows[j], now)
    ensures forall k :: 0 <= k < |batch| ==> batch[k].event.id in rows
  {
    forall k | 0 <= k < |batch| ensures batch[k].event.id in DueIds(rows, now) {
      assert batch[k] in batch;
    }
  }

  /** Handler h is the first to fail on this row. */
  ghost predicate FirstFails(world: World, p: Pending, h: nat) {
    !world.outcome(p, h).Ok? && forall j :: 0 <= j < h ==> world.outcome(p, j).Ok?
  }

  lemma {:induction false} VerdictIs(world: World, p: Pending, from: nat, h: nat, handlers: nat)
    requires from <= h < handlers && FirstFails(world, p, h)
    ensures Verdict(world, p, from, handlers).Some?
    ensures IsCause(Verdict(world, p, from, handlers).value, p.event.name, world.outcome(p, h))
    decreases h - from
  {
    if from < h {
      VerdictIs(world, p, from + 1, h, handlers);
    }
  }

  /** A row of the batch on which every handler returned nil is gone. */
  lemma PassedRowIsGone(cfg: Config, rows: Rows, now: Time, batch: seq<Pending>, world: World, k: nat)
    requires ClaimOf(rows, cfg.batch, now, batch) && k < |batch|
    requires forall h :: 0 <= h < cfg.handlers ==> world.outcome(batch[k], h).Ok?
    ensures batch[k].event.id in rows && batch[k].event.id !in RowsAfterDispatch(cfg, rows, batch, world)
  {
    VerdictIsShared(world, batch[k], 0, cfg.handlers);
    BatchInRows(rows, cfg.batch, now, batch);
    DispatchSettlesEachRow(cfg, rows, now, batch, world, batch[k].event.id);
  }

  /** A row of the batch on which some handler failed has one attempt more, is released, and
      says why. Short of the limit it is due after the backoff for that attempt, from the
      reading taken when it failed; at the limit it is buried and its due time stays. */
  lemma FailedRowIs(cfg: Config, rows: Rows, now: Time, batch: seq<Pending>, world: World, k: nat, h: nat)
    requires ClaimOf(rows, cfg.batch, now, batch) && k < |batch| && world.clock(k + 1) > 0
    requires h < cfg.handlers && FirstFails(world, batch[k], h)
    ensures var i, after := batch[k].event.id, RowsAfterDispatch(cfg, rows, batch, world);
            && i in rows && i in after
            && after[i].event == rows[i].event && after[i].written == rows[i].written
            && after[i].attempts == rows[i].attempts + 1 && !after[i].claimed
            && (world.outcome(batch[k], h).Error? ==> after[i].reason == world.outcome(batch[k], h).cause)
            && (world.outcome(batch[k], h).Panic? ==>
                  after[i].reason ==
                  "outbox: handler panicked on " + rows[i].event.name + ": " + world.outcome(batch[k], h).value)
            && (rows[i].attempts + 1 < cfg.maxAttempts ==>
                  !after[i].buried && after[i].dueAt == world.clock(k + 1) + cfg.backoff(rows[i].attempts + 1))
            && (rows[i].attempts + 1 >= cfg.maxAttempts ==> after[i].buried && after[i].dueAt == rows[i].dueAt)
  {
    var p := batch[k];
    assert p in batch;
    BatchInRows(rows, cfg.batch, now, batch);
    VerdictIs(world, p, 0, h, cfg.handlers);
    DispatchSettlesEachRow(cfg, rows, now, batch, world, p.event.id);
    assert Ids(batch)[k] == p.event.id;
  }

  /** How many deliveries of these failed, at their last attempt or before it. */
  ghost function Failures(cfg: Config, ps: seq<Pending>, world: World, last: bool): nat {
    if ps == [] then 0
    else
      var k := |ps| - 1;
      Failures(cfg, ps[..k], world, last)
      + if Verdict(world, ps[k], 0, cfg.handlers).Some? && (ps[k].attempts + 1 >= cfg.maxAttempts) == last then 1 else 0
  }

  lemma OneMoreFailure(cfg: Config, batch: seq<Pending>, k: nat, world: World)
    requires k < |batch|
    ensures var failed := Verdict(world, batch[k], 0, cfg.handlers).Some?;
            var last := batch[k].attempts + 1 >= cfg.maxAttempts;
            && Failures(cfg, batch[..k + 1], world, false)
                 == Failures(cfg, batch[..k], world, false) + (if failed && !last then 1 else 0)
            && Failures(cfg, batch[..k + 1], world, true)
                 == Failures(cfg, batch[..k], world, true) + (if failed && last then 1 else 0)
  {
    UpTo(batch, k);
  }

  /** The failed and the buried counter go up by one for each row of the batch on which some
      handler failed, the one short of the limit and the other at it. */
  lemma {:induction false} FailuresAre(cfg: Config, ps: seq<Pending>, world: World, last: bool)
    ensures Failures(cfg, ps, world, last) ==
            |(set k | 0 <= k < |ps| && (ps[k].attempts + 1 >= cfg.maxAttempts) == last
                      && (exists h :: 0 <= h < cfg.handlers && !world.outcome(ps[k], h).Ok?))|
  {
    var mine := FailedAt(cfg, ps, world, last);
    if ps == [] {
      assert mine == {};
    } else {
      var n := |ps| - 1;
      var front := ps[..n];
      FailuresAre(cfg, front, world, last);
      VerdictIsShared(world, ps[n], 0, cfg.handlers);
      OneMoreFailedAt(cfg, ps, world, last);
    }
  }

  ghost function FailedAt(cfg: Config, ps: seq<Pending>, world: World, last: bool): set<int> {
    set k | 0 <= k < |ps| && (ps[k].attempts + 1 >= cfg.maxAttempts) == last
            && (exists h :: 0 <= h < cfg.handlers && !world.outcome(ps[k], h).Ok?)
  }

  lemma OneMoreFailedAt(cfg: Config, ps: seq<Pending>, world: World, last: bool)
    requires ps != []
    ensures var n := |ps| - 1;
            var failed := exists h :: 0 <= h < cfg.handlers && !world.outcome(ps[n], h).Ok?;
            |FailedAt(cfg, ps, world, last)| == |FailedAt(cfg, ps[..n], world, last)|
              + if failed && (ps[n].attempts + 1 >= cfg.maxAttempts) == last then 1 else 0
  {
    var n := |ps| - 1;
    var front := ps[..n];
    assert forall k :: 0 <= k < n ==> front[k] == ps[k];
    var failed := exists h :: 0 <= h < cfg.handlers && !world.outcome(ps[n], h).Ok?;
    var all, some := FailedAt(cfg, ps, world, last), FailedAt(cfg, front, world, last);
    if failed && (ps[n].attempts + 1 >= cfg.maxAttempts) == last {
      assert all == some + {n};
    } else {
      assert all == some;
    }
  }

  /** What Dispatch returns is how many rows it removed. */
  lemma DispatchRemovesPassed(cfg: Config, rows: Rows, now: Time, batch: seq<Pending>, world: World)
    requires ClaimOf(rows, cfg.batch, now, batch)
    ensures |RowsAfterDispatch(cfg, rows, batch, world)| == |rows| - |Passing(batch, world, cfg.handlers)|
  {
    BatchInRows(rows, cfg.batch, now, batch);
    SettledRow(cfg, MarkClaimed(rows, Ids(batch)), batch, world, 0);
    PassingIds(batch, world, cfg.handlers);
    var passed := Passing(batch, world, cfg.handlers);
    var gone := set i | i in passed;
    NoDupCount(passed, gone);
    assert RowsAfterDispatch(cfg, rows, batch, world).Keys == rows.Keys - gone;
    assert gone <= rows.Keys;
  }

  /** Drain's last claim either took everything that was due, or was a full batch in which
      every delivery failed. */
  lemma DrainLeavesNothingDueUnlessFull(cfg: Config, rows: Rows, now: Time, batch: seq<Pending>, world: World)
    requires ClaimOf(rows, cfg.batch, now, batch) && Passing(batch, world, cfg.handlers) == []
    ensures |batch| == cfg.batch || (forall i :: i in DueIds(rows, now) ==> i in Ids(batch))
    ensures forall k :: 0 <= k < |batch| ==> Verdict(world, batch[k], 0, cfg.handlers).Some?
  {
    PassingIds(batch, world, cfg.handlers);
    if i :| i in DueIds(rows, now) && i !in Ids(batch) {
      BatchInRows(rows, cfg.batch, now, batch);
      FullBatch(rows, cfg.batch, now, batch, i);
    }
  }
}
