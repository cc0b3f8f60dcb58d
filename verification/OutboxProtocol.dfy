/** Any number of dispatchers (pkg/outbox/dispatcher.go) over one store, as a state
    machine whose steps are the store calls, handler calls and counter updates a dispatcher
    makes, in any interleaving. The State carries, beside what the
    program holds, a clock and a History of what happened, which no step depends on. */
module OutboxProtocol {
  import opened Collections
  import opened OutboxStore

  /** The settings the dispatchers share. A backoff is never negative. */
  datatype Config = Config(batch: nat, maxAttempts: nat, handlers: nat, backoff: nat -> nat)

  /** How one call of a handler ends. */
  datatype Outcome = Ok | Error(cause: string) | Panic(value: string)

  /** Where a dispatcher stands in one Dispatch: its last clock reading, rows still to
      deliver, the next handler for the first of them, why that delivery failed if it did,
      and the rows delivered. */
  datatype Phase =
    | Idle
    | Busy(readAt: Time, todo: seq<Pending>, handler: nat, cause: Option<string>, done: seq<EventId>)

  datatype Stats = Stats(delivered: nat, failed: nat, buried: nat, runs: nat)

  type Positive = n: int | n > 0 witness 1

  /** What a store call has done that the statistics do not show yet. */
  datatype Count = NoCount | CountRun | CountFailed | CountBuried | CountDelivered(n: Positive)

  datatype Worker = Worker(phase: Phase, stats: Stats, owes: Count)

  /** Handler number `handler` returned nil for delivery `attempt` of the
      `generation`-th row written for `id`. */
  datatype Call = Call(id: EventId, generation: nat, attempt: nat, handler: nat)

  datatype History = History(
    created: multiset<EventId>,            // rows ever written, per id
    holder: map<EventId, nat>,             // which worker holds each claimed row
    passed: set<Call>,                     // every handler call that returned nil
    deliveries: map<(EventId, nat), nat>,  // (id, generation) delivered, and on which attempt
    firstFail: map<(EventId, nat), Time>,  // reading at the first failure
    buriedAt: map<EventId, Time>)          // clock when the row was buried

  /** ledgers[h] is the durable record handler h writes, one entry per insert. */
  datatype State = State(clock: Time, rows: Rows, workers: seq<Worker>, ledgers: seq<seq<EventId>>, past: History)

  datatype Step =
    | Tick(to: Time)
    | Add(evs: seq<Event>)
    | Claim(w: nat, now: Time, batch: seq<Pending>)
    | Handle(w: nat, records: bool, outcome: Outcome)
    | Pass(w: nat)
    | Record(w: nat, now: Time)
    | Finish(w: nat)
    | Bump(w: nat)

  function CauseOf(e: Event, outcome: Outcome): string
    requires !outcome.Ok?
  {
    match outcome
    case Error(cause) => cause
    case Panic(value) => "outbox: handler panicked on " + e.name + ": " + value
  }

  /** A handler that is idempotent by event id. */
  function InsertIfAbsent(ledger: seq<EventId>, id: EventId): seq<EventId> {
    if id in ledger then ledger else ledger + [id]
  }

  /** Dispatcher.bump, for what the last store call left to count. */
  function Bumped(st: Stats, count: Count): Stats {
    match count
    case NoCount => st
    case CountRun => st.(runs := st.runs + 1)
    case CountFailed => st.(failed := st.failed + 1)
    case CountBuried => st.(buried := st.buried + 1)
    case CountDelivered(n) => st.(delivered := st.delivered + n)
  }

  ghost predicate AtWork(s: State, w: nat) {
    w < |s.workers| && s.workers[w].phase.Busy? && s.workers[w].owes.NoCount?
  }

  ghost predicate AtRow(s: State, w: nat) {
    AtWork(s, w) && s.workers[w].phase.todo != []
  }

  ghost predicate Enabled(cfg: Config, s: State, step: Step) {
    match step
    case Tick(to) => true
    case Add(evs) => true
    case Claim(w, now, batch) =>
      && w < |s.workers| && s.workers[w].phase.Idle? && s.workers[w].owes.NoCount?
      && now > ZERO_TIME && ClaimOf(s.rows, cfg.batch, now, batch)
    case Handle(w, records, outcome) =>
      && AtRow(s, w) && s.workers[w].phase.cause.None? && s.workers[w].phase.handler < cfg.handlers
      && |s.ledgers| == cfg.handlers && (outcome.Ok? ==> records)
    case Pass(w) => AtRow(s, w) && s.workers[w].phase.cause.None? && s.workers[w].phase.handler == cfg.handlers
    case Record(w, now) => AtRow(s, w) && s.workers[w].phase.cause.Some? && now > ZERO_TIME
    case Finish(w) => AtWork(s, w) && s.workers[w].phase.todo == []
    case Bump(w) => w < |s.workers| && !s.workers[w].owes.NoCount?
  }

  ghost function SetPhase(s: State, w: nat, phase: Phase): seq<Worker>
    requires w < |s.workers|
  {
    s.workers[w := s.workers[w].(phase := phase)]
  }

  ghost function AfterAdd(s: State, evs: seq<Event>): State {
    s.(rows := AddAll(s.rows, evs),
       past := s.past.(created := s.past.created + multiset(EventIds(evs) - s.rows.Keys)))
  }

  ghost function AfterClaim(s: State, w: nat, now: Time, batch: seq<Pending>): State
    requires w < |s.workers|
  {
    s.(rows := MarkClaimed(s.rows, Ids(batch)),
       workers := s.workers[w := Worker(Busy(now, batch, 0, None, []), s.workers[w].stats, CountRun)],
       past := s.past.(holder := s.past.holder + map i | i in Ids(batch) :: w))
  }

  ghost function AfterHandle(s: State, w: nat, records: bool, outcome: Outcome): State
    requires AtRow(s, w) && s.workers[w].phase.handler < |s.ledgers|
  {
    var ph := s.workers[w].phase;
    var p, h := ph.todo[0], ph.handler;
    var noted := s.(ledgers := if records then s.ledgers[h := InsertIfAbsent(s.ledgers[h], p.event.id)] else s.ledgers);
    if outcome.Ok? then
      noted.(workers := SetPhase(s, w, ph.(handler := h + 1)),
             past := s.past.(passed := s.past.passed + {Call(p.event.id, s.past.created[p.event.id], p.attempts, h)}))
    else
      noted.(workers := SetPhase(s, w, ph.(cause := Some(CauseOf(p.event, outcome)))))
  }

  ghost function AfterPass(s: State, w: nat): State
    requires AtRow(s, w)
  {
    var ph := s.workers[w].phase;
    s.(workers := SetPhase(s, w, ph.(todo := ph.todo[1..], handler := 0, done := ph.done + [ph.todo[0].event.id])))
  }

  ghost function WithFirst(first: map<(EventId, nat), Time>, key: (EventId, nat), now: Time)
    : map<(EventId, nat), Time>
  {
    if key in first then first else first[key := now]
  }

  /** How a failed row is put back: dead at the last attempt, else due after the backoff. */
  function RetryAt(cfg: Config, attempts: nat, now: Time): Time {
    if attempts >= cfg.maxAttempts then ZERO_TIME else now + cfg.backoff(attempts)
  }

  /** Dispatcher.fail: bury at the last attempt, which takes no clock reading, or else put
      back for later. */
  ghost function AfterRecord(cfg: Config, s: State, w: nat, now: Time): State
    requires AtRow(s, w) && s.workers[w].phase.cause.Some?
  {
    var ph := s.workers[w].phase;
    var id, attempts := ph.todo[0].event.id, ph.todo[0].attempts + 1;
    var last := attempts >= cfg.maxAttempts;
    var key := (id, s.past.created[id]);
    var next := ph.(readAt := if last then ph.readAt else now, todo := ph.todo[1..], handler := 0, cause := None);
    s.(rows := FailOne(s.rows, id, ph.cause.value, RetryAt(cfg, attempts, now)),
       workers := s.workers[w := Worker(next, s.workers[w].stats, if last then CountBuried else CountFailed)],
       past := s.past.(holder := s.past.holder - {id},
                       firstFail := WithFirst(s.past.firstFail, key, if last then s.clock else now),
                       buriedAt := if last then s.past.buriedAt[id := s.clock] else s.past.buriedAt))
  }

  ghost function AfterFinish(s: State, w: nat): State
    requires AtWork(s, w)
  {
    var ph := s.workers[w].phase;
    s.(rows := Without(s.rows, ph.done),
       workers := s.workers[w := Worker(Idle, s.workers[w].stats, CountOf(ph.done))],
       past := s.past.(holder := map i | i in s.past.holder && i !in ph.done :: s.past.holder[i],
                       deliveries := s.past.deliveries + Deliver(s, ph.done)))
  }

  /** With nothing delivered there is neither a store call nor anything to count. */
  function CountOf(done: seq<EventId>): Count {
    if done == [] then NoCount else CountDelivered(|done|)
  }

  ghost function AfterBump(s: State, w: nat): State
    requires w < |s.workers|
  {
    var v := s.workers[w];
    s.(workers := s.workers[w := Worker(v.phase, Bumped(v.stats, v.owes), NoCount)])
  }

  ghost function Deliver(s: State, done: seq<EventId>): map<(EventId, nat), nat> {
    map i | i in done && i in s.rows :: (i, s.past.created[i]) := s.rows[i].attempts
  }

  ghost function Apply(cfg: Config, s: State, step: Step): State
    requires Enabled(cfg, s, step)
  {
    match step
    case Tick(to) => s.(clock := to)
    case Add(evs) => AfterAdd(s, evs)
    case Claim(w, now, batch) => AfterClaim(s, w, now, batch)
    case Handle(w, records, outcome) => AfterHandle(s, w, records, outcome)
    case Pass(w) => AfterPass(s, w)
    case Record(w, now) => AfterRecord(cfg, s, w, now)
    case Finish(w) => AfterFinish(s, w)
    case Bump(w) => AfterBump(s, w)
  }

  /** An empty store, idle dispatchers, empty ledgers. */
  ghost function Start(cfg: Config, dispatchers: nat, clock: Time): State {
    State(clock, map[], seq(dispatchers, _ => Worker(Idle, Stats(0, 0, 0, 0), NoCount)), seq(cfg.handlers, _ => []),
          History(multiset{}, map[], {}, map[], map[], map[]))
  }

  ghost predicate Legal(cfg: Config, s: State, steps: seq<Step>)
    decreases steps
  {
    steps == [] || (Enabled(cfg, s, steps[0]) && Legal(cfg, Apply(cfg, s, steps[0]), steps[1..]))
  }

  ghost function Run(cfg: Config, s: State, steps: seq<Step>): State
    requires Legal(cfg, s, steps)
    decreases steps
  {
    if steps == [] then s else Run(cfg, Apply(cfg, s, steps[0]), steps[1..])
  }

  lemma OneStep(cfg: Config, s: State, step: Step)
    requires Enabled(cfg, s, step)
    ensures Legal(cfg, s, [step]) && Run(cfg, s, [step]) == Apply(cfg, s, step)
  {
    assert [step][1..] == [];
    assert Run(cfg, Apply(cfg, s, step), []) == Apply(cfg, s, step);
  }

  lemma {:induction false} RunAppend(cfg: Config, s: State, steps: seq<Step>, more: seq<Step>)
    requires Legal(cfg, s, steps) && Legal(cfg, Run(cfg, s, steps), more)
    ensures Legal(cfg, s, steps + more)
    ensures Run(cfg, s, steps + more) == Run(cfg, Run(cfg, s, steps), more)
    decreases steps
  {
    if steps == [] {
      assert steps + more == more;
    } else {
      RunAppend(cfg, Apply(cfg, s, steps[0]), steps[1..], more);
      assert (steps + more)[0] == steps[0] && (steps + more)[1..] == steps[1..] + more;
    }
  }

  /** The clock does not step back, and what a dispatcher reads is no later than it and no
      earlier than what the same dispatcher read before. */
  ghost predicate OnTime(s: State, step: Step) {
    match step
    case Tick(to) => s.clock <= to
    case Claim(w, now, batch) => now <= s.clock
    case Record(w, now) => AtWork(s, w) && s.workers[w].phase.readAt <= now <= s.clock
    case _ => true
  }

  ghost predicate Steady(cfg: Config, s: State, steps: seq<Step>)
    requires Legal(cfg, s, steps)
    decreases steps
  {
    steps == [] || (OnTime(s, steps[0]) && Steady(cfg, Apply(cfg, s, steps[0]), steps[1..]))
  }

  lemma {:induction false} SteadyAppend(cfg: Config, s: State, steps: seq<Step>, more: seq<Step>)
    requires Legal(cfg, s, steps) && Legal(cfg, Run(cfg, s, steps), more)
    requires Steady(cfg, s, steps) && Steady(cfg, Run(cfg, s, steps), more)
    ensures Legal(cfg, s, steps + more) && Steady(cfg, s, steps + more)
    decreases steps
  {
    RunAppend(cfg, s, steps, more);
    if steps == [] {
      assert steps + more == more;
    } else {
      SteadyAppend(cfg, Apply(cfg, s, steps[0]), steps[1..], more);
      assert (steps + more)[0] == steps[0] && (steps + more)[1..] == steps[1..] + more;
    }
  }

  // ---- What every step keeps ------------------------------------------------

  ghost predicate Held(ph: Phase, id: EventId) {
    ph.Busy? && (id in Ids(ph.todo) || id in ph.done)
  }

  ghost predicate RowsOk(cfg: Config, s: State) {
    && Keyed(s.rows)
    && (forall i :: i in s.rows ==> s.rows[i].attempts <= cfg.maxAttempts)
    && (forall i :: i in s.rows ==> (s.rows[i].buried <==> s.rows[i].attempts == cfg.maxAttempts))
    && (forall i :: i in s.rows && s.rows[i].buried ==> !s.rows[i].claimed)
    && (forall i :: i in s.rows ==> s.past.created[i] >= 1)
  }

  ghost predicate ClaimsMatch(rows: Rows, holder: map<EventId, nat>) {
    forall i :: i in holder <==> i in rows && rows[i].claimed
  }

  ghost predicate HoldsMatch(workers: seq<Worker>, holder: map<EventId, nat>) {
    && (forall w, i :: 0 <= w < |workers| ==> (Held(workers[w].phase, i) <==> i in holder && holder[i] == w))
    && (forall i :: i in holder ==> holder[i] < |workers|)
  }

  /** A row is claimed exactly when one dispatcher holds it. */
  ghost predicate HolderOk(s: State) {
    ClaimsMatch(s.rows, s.past.holder) && HoldsMatch(s.workers, s.past.holder)
  }

  ghost predicate PendingOk(rows: Rows, p: Pending) {
    var i := p.event.id;
    i in rows && p == Pending(rows[i].event, rows[i].attempts) && !rows[i].buried
  }

  /** What a dispatcher believes about the rows it holds is what the store says. */
  ghost predicate PhaseOk(cfg: Config, s: State, ph: Phase) {
    ph.Busy? ==>
      && NoDup(Ids(ph.todo)) && NoDup(ph.done) && (forall i :: i in ph.done ==> i !in Ids(ph.todo))
      && (forall k :: 0 <= k < |ph.todo| ==> PendingOk(s.rows, ph.todo[k]))
      && (forall i :: i in ph.done ==> i in s.rows && !s.rows[i].buried)
      && ph.handler <= cfg.handlers
  }

  ghost predicate PassedBy(s: State, id: EventId, attempt: nat, h: nat) {
    Call(id, s.past.created[id], attempt, h) in s.past.passed
  }

  /** Calls made on the way: the handlers before the next one passed the row at hand, and
      every handler passed the rows done, each on that row's current attempt. */
  ghost predicate CallsOk(cfg: Config, s: State, ph: Phase) {
    ph.Busy? ==>
      && (ph.todo != [] ==> forall h :: 0 <= h < ph.handler ==>
            PassedBy(s, ph.todo[0].event.id, ph.todo[0].attempts, h))
      && (ph.todo == [] ==> ph.handler == 0)
      && (forall i, h :: i in ph.done && i in s.rows && 0 <= h < cfg.handlers ==> PassedBy(s, i, s.rows[i].attempts, h))
  }

  ghost predicate PhasesOk(cfg: Config, s: State) {
    forall w :: 0 <= w < |s.workers| ==> PhaseOk(cfg, s, s.workers[w].phase)
  }

  ghost predicate AllCallsOk(cfg: Config, s: State) {
    forall w :: 0 <= w < |s.workers| ==> CallsOk(cfg, s, s.workers[w].phase)
  }

  ghost predicate LedgersOk(cfg: Config, s: State) {
    && |s.ledgers| == cfg.handlers
    && (forall h :: 0 <= h < cfg.handlers ==> NoDup(s.ledgers[h]))
    && (forall c :: c in s.past.passed ==> c.handler < cfg.handlers && c.id in s.ledgers[c.handler])
    && (forall h, i :: 0 <= h < cfg.handlers && i in s.ledgers[h] ==> s.past.created[i] >= 1)
  }

  /** Each row ever written is either still in the store or was delivered once, and what
      was delivered passed every handler in one attempt. */
  ghost predicate DeliveriesOk(cfg: Config, s: State) {
    && (forall i, g :: (i, g) in s.past.deliveries <==>
          1 <= g <= s.past.created[i] && !(i in s.rows && g == s.past.created[i]))
    && (forall i, g, h :: (i, g) in s.past.deliveries && 0 <= h < cfg.handlers ==>
          Call(i, g, s.past.deliveries[(i, g)], h) in s.past.passed)
  }

  ghost function BackoffSum(cfg: Config, n: nat): nat {
    if n == 0 then 0 else BackoffSum(cfg, n - 1) + cfg.backoff(n)
  }

  ghost predicate TimedRow(cfg: Config, s: State, i: EventId)
    requires i in s.rows && cfg.maxAttempts >= 1
  {
    var r, key := s.rows[i], (i, s.past.created[i]);
    && (r.attempts == 0 <==> key !in s.past.firstFail)
    && (r.attempts >= 1 && !r.buried ==> s.past.firstFail[key] + BackoffSum(cfg, r.attempts) <= r.dueAt)
    && (r.attempts >= 1 && r.buried ==>
          i in s.past.buriedAt && s.past.firstFail[key] + BackoffSum(cfg, cfg.maxAttempts - 1) <= s.past.buriedAt[i])
  }

  /** The rows a dispatcher has yet to deliver were due when it last read the clock. */
  ghost predicate PhaseTimely(s: State, ph: Phase) {
    ph.Busy? ==>
      && ph.readAt <= s.clock
      && (forall i :: i in Ids(ph.todo) && i in s.rows ==> s.rows[i].dueAt <= ph.readAt)
  }

  /** What holds as well while no clock steps back. */
  ghost predicate TimesOk(cfg: Config, s: State)
    requires cfg.maxAttempts >= 1
  {
    && (forall i :: i in s.rows ==> TimedRow(cfg, s, i))
    && (forall i, g :: (i, g) in s.past.firstFail ==> g <= s.past.created[i])
    && (forall w :: 0 <= w < |s.workers| ==> PhaseTimely(s, s.workers[w].phase))
  }

  /** Burials and deliveries a dispatcher has made, counted already or not yet. */
  ghost function BuriedBy(v: Worker): nat {
    v.stats.buried + if v.owes.CountBuried? then 1 else 0
  }

  ghost function DeliveredBy(v: Worker): nat {
    v.stats.delivered + if v.owes.CountDelivered? then v.owes.n else 0
  }

  ghost function BuriedSum(ws: seq<Worker>): nat {
    if ws == [] then 0 else BuriedSum(ws[..|ws| - 1]) + BuriedBy(ws[|ws| - 1])
  }

  ghost function DeliveredSum(ws: seq<Worker>): nat {
    if ws == [] then 0 else DeliveredSum(ws[..|ws| - 1]) + DeliveredBy(ws[|ws| - 1])
  }

  ghost predicate CountsOk(s: State) {
    BuriedSum(s.workers) == |BuriedIds(s.rows)| && DeliveredSum(s.workers) == |s.past.deliveries|
  }

  ghost predicate Inv(cfg: Config, s: State) {
    && cfg.maxAttempts >= 1
    && RowsOk(cfg, s)
    && HolderOk(s)
    && PhasesOk(cfg, s)
    && AllCallsOk(cfg, s)
    && LedgersOk(cfg, s)
    && DeliveriesOk(cfg, s)
    && CountsOk(s)
  }

  // ---- Frames: a phase keeps its facts when its rows do ------------------------

  ghost predicate SameRow(s: State, t: State, i: EventId) {
    && i in s.rows && i in t.rows
    && t.rows[i].event == s.rows[i].event && t.rows[i].attempts == s.rows[i].attempts
    && t.rows[i].dueAt == s.rows[i].dueAt && t.rows[i].buried == s.rows[i].buried
    && t.past.created[i] == s.past.created[i]
  }

  lemma PhaseFrame(cfg: Config, s: State, t: State, ph: Phase)
    requires PhaseOk(cfg, s, ph)
    requires forall i :: Held(ph, i) ==> SameRow(s, t, i)
    ensures PhaseOk(cfg, t, ph)
  {
    if ph.Busy? {
      forall k | 0 <= k < |ph.todo| ensures PendingOk(t.rows, ph.todo[k]) {
        assert Ids(ph.todo)[k] == ph.todo[k].event.id;
        assert Held(ph, ph.todo[k].event.id);
      }
      forall i | i in ph.done ensures i in t.rows && !t.rows[i].buried {
        assert Held(ph, i);
      }
    }
  }

  lemma CallsFrame(cfg: Config, s: State, t: State, ph: Phase)
    requires CallsOk(cfg, s, ph) && s.past.passed <= t.past.passed
    requires forall i :: Held(ph, i) ==> SameRow(s, t, i)
    ensures CallsOk(cfg, t, ph)
  {
    if ph.Busy? {
      if ph.todo != [] {
        assert Ids(ph.todo)[0] == ph.todo[0].event.id;
        assert Held(ph, ph.todo[0].event.id);
        forall h | 0 <= h < ph.handler ensures PassedBy(t, ph.todo[0].event.id, ph.todo[0].attempts, h) {
          assert PassedBy(s, ph.todo[0].event.id, ph.todo[0].attempts, h);
        }
      }
      forall i, h | i in ph.done && i in t.rows && 0 <= h < cfg.handlers ensures PassedBy(t, i, t.rows[i].attempts, h) {
        assert Held(ph, i);
        assert PassedBy(s, i, s.rows[i].attempts, h);
      }
    }
  }

  /** The other workers' rows are untouched when only rows of worker w change. */
  lemma OthersFrame(cfg: Config, s: State, t: State, w: nat)
    requires HolderOk(s) && PhasesOk(cfg, s) && AllCallsOk(cfg, s)
    requires s.past.passed <= t.past.passed
    requires |t.workers| == |s.workers|
    requires forall v :: 0 <= v < |s.workers| && v != w ==> t.workers[v].phase == s.workers[v].phase
    requires forall i :: i in s.past.holder && s.past.holder[i] != w ==> SameRow(s, t, i)
    ensures forall v :: 0 <= v < |s.workers| && v != w ==>
              PhaseOk(cfg, t, t.workers[v].phase) && CallsOk(cfg, t, t.workers[v].phase)
  {
    forall v | 0 <= v < |s.workers| && v != w
      ensures PhaseOk(cfg, t, t.workers[v].phase) && CallsOk(cfg, t, t.workers[v].phase)
    {
      PhaseFrame(cfg, s, t, s.workers[v].phase);
      CallsFrame(cfg, s, t, s.workers[v].phase);
    }
  }
}
