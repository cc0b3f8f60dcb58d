/** What the outbox promises, over every run of any number of dispatchers. */
module OutboxTheorems {
  import opened Collections
  import opened OutboxStore
  import opened OutboxProtocol
  import opened OutboxInvariant
  import opened OutboxTiming

  /** The states a system of dispatchers that share cfg can be in, whatever their clocks do. */
  ghost predicate Reachable(cfg: Config, s: State) {
    exists dispatchers: nat, clock: Time, steps: seq<Step> ::
      && Legal(cfg, Start(cfg, dispatchers, clock), steps)
      && s == Run(cfg, Start(cfg, dispatchers, clock), steps)
  }

  /** Those it can be in when no clock steps back. */
  ghost predicate ReachableOnTime(cfg: Config, s: State) {
    exists dispatchers: nat, clock: Time, steps: seq<Step> ::
      && Legal(cfg, Start(cfg, dispatchers, clock), steps)
      && Steady(cfg, Start(cfg, dispatchers, clock), steps)
      && s == Run(cfg, Start(cfg, dispatchers, clock), steps)
  }

  lemma ReachableIsOk(cfg: Config, s: State)
    requires cfg.maxAttempts >= 1 && Reachable(cfg, s)
    ensures Inv(cfg, s)
  {
    var dispatchers: nat, clock: Time, steps: seq<Step> :|
      && Legal(cfg, Start(cfg, dispatchers, clock), steps)
      && s == Run(cfg, Start(cfg, dispatchers, clock), steps);
    StartIsOk(cfg, dispatchers, clock);
    RunKeepsInv(cfg, Start(cfg, dispatchers, clock), steps);
  }

  lemma ReachableOnTimeIsOk(cfg: Config, s: State)
    requires cfg.maxAttempts >= 1 && ReachableOnTime(cfg, s)
    ensures Inv(cfg, s) && TimesOk(cfg, s)
  {
    var dispatchers: nat, clock: Time, steps: seq<Step> :|
      && Legal(cfg, Start(cfg, dispatchers, clock), steps)
      && Steady(cfg, Start(cfg, dispatchers, clock), steps)
      && s == Run(cfg, Start(cfg, dispatchers, clock), steps);
    StartIsOk(cfg, dispatchers, clock);
    RunKeepsInv(cfg, Start(cfg, dispatchers, clock), steps);
    RunKeepsTimes(cfg, Start(cfg, dispatchers, clock), steps);
  }

  // ---- Claiming --------------------------------------------------------------

  /** A row is claimed exactly when some dispatcher holds it, never two, and what that
      dispatcher holds agrees with the row. */
  lemma ClaimedIsHeldByOne(cfg: Config, s: State, i: EventId)
    requires cfg.maxAttempts >= 1 && Reachable(cfg, s)
    ensures (i in s.rows && s.rows[i].claimed) <==>
              exists w :: 0 <= w < |s.workers| && Held(s.workers[w].phase, i)
    ensures forall v, w :: 0 <= v < |s.workers| && 0 <= w < |s.workers| ==>
              Held(s.workers[v].phase, i) && Held(s.workers[w].phase, i) ==> v == w
    ensures forall w, k ::
              0 <= w < |s.workers| && HasToDo(s.workers[w].phase, k, i) ==>
              i in s.rows && s.workers[w].phase.todo[k] == Pending(s.rows[i].event, s.rows[i].attempts)
  {
    ReachableIsOk(cfg, s);
    if i in s.rows && s.rows[i].claimed {
      assert Held(s.workers[s.past.holder[i]].phase, i);
    }
    forall w, k | 0 <= w < |s.workers| && HasToDo(s.workers[w].phase, k, i)
      ensures i in s.rows && s.workers[w].phase.todo[k] == Pending(s.rows[i].event, s.rows[i].attempts)
    {
      assert PhaseOk(cfg, s, s.workers[w].phase);
      assert PendingOk(s.rows, s.workers[w].phase.todo[k]);
    }
  }

  /** The k-th of the rows a dispatcher still has to deliver is i's. */
  ghost predicate HasToDo(ph: Phase, k: int, i: EventId) {
    ph.Busy? && 0 <= k < |ph.todo| && ph.todo[k].event.id == i
  }

  // ---- Conservation ------------------------------------------------------------

  ghost predicate Waiting(s: State, i: EventId) {
    i in s.rows && !s.rows[i].claimed && !s.rows[i].buried
  }

  ghost predicate Claimed(s: State, i: EventId) {
    i in s.rows && s.rows[i].claimed
  }

  ghost predicate Buried(s: State, i: EventId) {
    i in s.rows && s.rows[i].buried
  }

  ghost predicate Delivered(s: State, i: EventId, generation: nat) {
    (i, generation) in s.past.deliveries
  }

  /** Nothing is lost and nothing is made up: of the rows ever written for an id, each is
      delivered once, except the last one while it is still in the store, where it is
      waiting, claimed or buried, and only one of these. */
  lemma EveryRowIsInOnePlace(cfg: Config, s: State, i: EventId, g: nat)
    requires cfg.maxAttempts >= 1 && Reachable(cfg, s)
    ensures Delivered(s, i, g) ==> 1 <= g <= s.past.created[i]
    ensures 1 <= g < s.past.created[i] ==> Delivered(s, i, g)
    ensures g == s.past.created[i] >= 1 ==>
              HowMany(Waiting(s, i), Claimed(s, i), Buried(s, i), Delivered(s, i, g)) == 1
  {
    ReachableIsOk(cfg, s);
  }

  ghost function HowMany(a: bool, b: bool, c: bool, d: bool): nat {
    (if a then 1 else 0) + (if b then 1 else 0) + (if c then 1 else 0) + if d then 1 else 0
  }

  // ---- Delivery and idempotent handlers ------------------------------------------

  /** A delivered row passed every handler, all in one attempt. */
  lemma DeliveredPassedEveryHandler(cfg: Config, s: State, i: EventId, g: nat)
    requires cfg.maxAttempts >= 1 && Reachable(cfg, s) && Delivered(s, i, g)
    ensures forall h :: 0 <= h < cfg.handlers ==> Call(i, g, s.past.deliveries[(i, g)], h) in s.past.passed
  {
    ReachableIsOk(cfg, s);
  }

  /** At least once plus idempotence is exactly once in effect: each handler's ledger has
      one entry for every delivered event, and never two for any event, whatever failed,
      panicked or was retried; and it has no entry for an event never published. */
  lemma ExactlyOnceInEffect(cfg: Config, s: State, h: nat, i: EventId)
    requires cfg.maxAttempts >= 1 && Reachable(cfg, s) && h < |s.ledgers|
    ensures multiset(s.ledgers[h])[i] <= 1
    ensures (exists g :: Delivered(s, i, g)) ==> multiset(s.ledgers[h])[i] == 1
    ensures multiset(s.ledgers[h])[i] == 1 ==> s.past.created[i] >= 1
  {
    ReachableIsOk(cfg, s);
    NoDupCounts(s.ledgers[h]);
    assert i in multiset(s.ledgers[h]) <==> i in s.ledgers[h];
    if g :| Delivered(s, i, g) {
      assert Call(i, g, s.past.deliveries[(i, g)], h) in s.past.passed;
    }
  }

  // ---- Burial ----------------------------------------------------------------------

  /** A row is buried exactly when its failures have reached the limit. */
  lemma BuriedAtTheLimit(cfg: Config, s: State)
    requires cfg.maxAttempts >= 1 && Reachable(cfg, s)
    ensures forall i :: i in s.rows ==> s.rows[i].attempts <= cfg.maxAttempts
    ensures forall i :: i in s.rows ==> (s.rows[i].buried <==> s.rows[i].attempts == cfg.maxAttempts)
  {
    ReachableIsOk(cfg, s);
  }

  /** The dispatchers' Buried and Delivered counters, added up. */
  ghost function BuriedCount(ws: seq<Worker>): nat {
    if ws == [] then 0 else BuriedCount(ws[..|ws| - 1]) + ws[|ws| - 1].stats.buried
  }

  ghost function DeliveredCount(ws: seq<Worker>): nat {
    if ws == [] then 0 else DeliveredCount(ws[..|ws| - 1]) + ws[|ws| - 1].stats.delivered
  }

  /** The dispatchers that have buried a row and not counted it yet. */
  ghost function Burying(ws: seq<Worker>): nat {
    if ws == [] then 0 else Burying(ws[..|ws| - 1]) + if ws[|ws| - 1].owes.CountBuried? then 1 else 0
  }

  /** The rows dispatchers have had removed as delivered and not counted yet. */
  ghost function Delivering(ws: seq<Worker>): nat {
    if ws == [] then 0
    else Delivering(ws[..|ws| - 1]) + if ws[|ws| - 1].owes.CountDelivered? then ws[|ws| - 1].owes.n else 0
  }

  lemma {:induction false} CountedAndOwed(ws: seq<Worker>)
    ensures BuriedSum(ws) == BuriedCount(ws) + Burying(ws)
    ensures DeliveredSum(ws) == DeliveredCount(ws) + Delivering(ws)
    ensures Burying(ws) == 0 <==> forall v :: v in ws ==> !v.owes.CountBuried?
    ensures Delivering(ws) == 0 <==> forall v :: v in ws ==> !v.owes.CountDelivered?
  {
    if ws == [] {
    } else {
      var n := |ws| - 1;
      CountedAndOwed(ws[..n]);
      assert ws == ws[..n] + [ws[n]];
    }
  }

  /** The counters never run ahead of the store and trail it by just what dispatchers stand
      between a store call and its count: what they counted as buried is what Depth counts
      exactly when none has a burial left to count, and the same goes for delivered. */
  lemma CountersTrailTheStore(cfg: Config, s: State)
    requires cfg.maxAttempts >= 1 && Reachable(cfg, s)
    ensures BuriedCount(s.workers) + Burying(s.workers) == |BuriedIds(s.rows)|
    ensures DeliveredCount(s.workers) + Delivering(s.workers) == |s.past.deliveries|
    ensures BuriedCount(s.workers) == |BuriedIds(s.rows)| <==> forall v :: v in s.workers ==> !v.owes.CountBuried?
    ensures DeliveredCount(s.workers) == |s.past.deliveries| <==> forall v :: v in s.workers ==> !v.owes.CountDelivered?
  {
    ReachableIsOk(cfg, s);
    CountedAndOwed(s.workers);
  }

  /** And they do trail it: one event, one handler that fails, one attempt, and a look at the
      store between Failed and the count. */
  lemma CountersCanTrail(cfg: Config) returns (s: State)
    requires cfg.batch >= 1 && cfg.maxAttempts == 1 && cfg.handlers == 1
    ensures Reachable(cfg, s) && BuriedCount(s.workers) == 0 && |BuriedIds(s.rows)| == 1
  {
    var e := Event(0, "", 0);
    var start := Start(cfg, 1, 1);
    var steps := [Add([e]), Claim(0, 1, [Pending(e, 0)])];
    var failing := [Bump(0), Handle(0, false, Error("")), Record(0, 1)];
    var held := ClaimedAlone(cfg, e, start, steps);
    s := FailedAlone(cfg, e, held, failing);
    RunAppend(cfg, start, steps, failing);
    assert s == Run(cfg, start, steps + failing);
    assert s.workers[..0] == [] && s.workers == [s.workers[0]];
    assert BuriedIds(s.rows) == {0};
  }

  lemma ClaimedAlone(cfg: Config, e: Event, start: State, steps: seq<Step>) returns (s: State)
    requires cfg.batch >= 1 && cfg.handlers == 1 && start == Start(cfg, 1, 1)
    requires e.id == 0 && steps == [Add([e]), Claim(0, 1, [Pending(e, 0)])]
    ensures Legal(cfg, start, steps) && s == Run(cfg, start, steps)
    ensures s.rows == map[0 := NewRow(e, 0).(claimed := true)] && |s.ledgers| == 1
    ensures s.workers == [Worker(Busy(1, [Pending(e, 0)], 0, None, []), Stats(0, 0, 0, 0), CountRun)]
  {
    OnlyRow(e, cfg.batch);
    OneStep(cfg, start, steps[0]);
    var added := Apply(cfg, start, steps[0]);
    OneStep(cfg, added, steps[1]);
    s := Apply(cfg, added, steps[1]);
    RunAppend(cfg, start, [steps[0]], [steps[1]]);
    assert steps == [steps[0]] + [steps[1]];
  }

  lemma OnlyRow(e: Event, n: nat)
    requires e.id == 0 && n >= 1
    ensures AddAll(map[], [e]) == map[0 := NewRow(e, 0)]
    ensures ClaimOf(map[0 := NewRow(e, 0)], n, 1, [Pending(e, 0)])
    ensures MarkClaimed(map[0 := NewRow(e, 0)], Ids([Pending(e, 0)])) == map[0 := NewRow(e, 0).(claimed := true)]
  {
    assert [e][..0] == [];
    var rows: Rows := map[0 := NewRow(e, 0)];
    assert DueIds(rows, 1) == {0};
    assert Ids([Pending(e, 0)]) == [0];
  }

  lemma FailedAlone(cfg: Config, e: Event, s: State, steps: seq<Step>) returns (t: State)
    requires cfg.maxAttempts == 1 && cfg.handlers == 1 && e.id == 0
    requires s.rows == map[0 := NewRow(e, 0).(claimed := true)] && |s.ledgers| == 1
    requires s.workers == [Worker(Busy(1, [Pending(e, 0)], 0, None, []), Stats(0, 0, 0, 0), CountRun)]
    requires steps == [Bump(0), Handle(0, false, Error("")), Record(0, 1)]
    ensures Legal(cfg, s, steps) && t == Run(cfg, s, steps)
    ensures t.rows.Keys == {0} && t.rows[0].buried
    ensures |t.workers| == 1 && t.workers[0].stats.buried == 0
  {
    OneStep(cfg, s, steps[0]);
    var counted := Apply(cfg, s, steps[0]);
    OneStep(cfg, counted, steps[1]);
    var tried := Apply(cfg, counted, steps[1]);
    OneStep(cfg, tried, steps[2]);
    t := Apply(cfg, tried, steps[2]);
    RunAppend(cfg, s, [steps[0]], [steps[1]]);
    RunAppend(cfg, s, [steps[0]] + [steps[1]], [steps[2]]);
    assert steps == [steps[0]] + [steps[1]] + [steps[2]];
  }

  ghost predicate Claims(step: Step, i: EventId) {
    step.Claim? && i in Ids(step.batch)
  }

  lemma BuriedStepStays(cfg: Config, s: State, step: Step, i: EventId)
    requires Inv(cfg, s) && Enabled(cfg, s, step) && Buried(s, i)
    ensures !Claims(step, i)
    ensures i in Apply(cfg, s, step).rows && Apply(cfg, s, step).rows[i] == s.rows[i]
  {
    assert i !in s.past.holder;
    match step
    case Add(evs) => AddFacts(s, evs);
    case Claim(w, now, batch) =>
      ClaimFacts(s, cfg, now, batch);
      UnheldStays(cfg, s, step, i);
    case _ => UnheldStays(cfg, s, step, i);
  }

  /** A row no dispatcher holds changes only by being claimed. */
  lemma UnheldStays(cfg: Config, s: State, step: Step, r: EventId)
    requires HolderOk(s) && PhasesOk(cfg, s) && Enabled(cfg, s, step)
    requires r in s.rows && r !in s.past.holder && !step.Add? && !Claims(step, r)
    ensures r in Apply(cfg, s, step).rows && Apply(cfg, s, step).rows[r] == s.rows[r]
  {
    match step
    case Record(w, now) =>
      AtHand(cfg, s, w);
      RecordLeavesOthers(cfg, s, w, now, r);
    case Finish(w) =>
      assert !Held(s.workers[w].phase, r);
      FinishLeavesOthers(s, w, r);
    case Claim(w, now, batch) => ClaimLeavesOthers(s, w, now, batch, r);
    case _ =>
  }

  /** Burial is forever: no later step claims the row or changes it. */
  lemma {:induction false} BuriedIsForever(cfg: Config, s: State, steps: seq<Step>, i: EventId)
    requires Inv(cfg, s) && Legal(cfg, s, steps) && Buried(s, i)
    ensures forall k :: 0 <= k < |steps| ==> !Claims(steps[k], i)
    ensures i in Run(cfg, s, steps).rows && Run(cfg, s, steps).rows[i] == s.rows[i]
    decreases steps
  {
    if steps == [] {
    } else {
      var rest := steps[1..];
      var t := BuriedOneStep(cfg, s, steps, rest, i);
      BuriedIsForever(cfg, t, rest, i);
      forall k | 0 <= k < |steps| ensures !Claims(steps[k], i) {
        assert k > 0 ==> steps[k] == rest[k - 1];
      }
    }
  }

  lemma BuriedOneStep(cfg: Config, s: State, steps: seq<Step>, rest: seq<Step>, i: EventId) returns (t: State)
    requires Inv(cfg, s) && steps != [] && rest == steps[1..] && Legal(cfg, s, steps) && Buried(s, i)
    ensures Inv(cfg, t) && Legal(cfg, t, rest) && Buried(t, i) && t.rows[i] == s.rows[i]
    ensures !Claims(steps[0], i) && Run(cfg, s, steps) == Run(cfg, t, rest)
  {
    BuriedStepStays(cfg, s, steps[0], i);
    StepKeepsInv(cfg, s, steps[0]);
    t := Apply(cfg, s, steps[0]);
  }

  /** While no clock steps back, burial comes no sooner than all the backoffs together after
      the first failure. */
  lemma BurialTakesAllTheBackoffs(cfg: Config, s: State, i: EventId)
    requires cfg.maxAttempts >= 1 && ReachableOnTime(cfg, s) && Buried(s, i)
    ensures i in s.past.buriedAt && (i, s.past.created[i]) in s.past.firstFail
    ensures s.past.buriedAt[i] - s.past.firstFail[(i, s.past.created[i])] >= BackoffSum(cfg, cfg.maxAttempts - 1)
  {
    ReachableOnTimeIsOk(cfg, s);
    BuriedLate(cfg, s, i);
  }

  lemma BuriedLate(cfg: Config, s: State, i: EventId)
    requires cfg.maxAttempts >= 1 && RowsOk(cfg, s) && TimesOk(cfg, s) && Buried(s, i)
    ensures i in s.past.buriedAt && i in s.past.created && (i, s.past.created[i]) in s.past.firstFail
    ensures s.past.buriedAt[i] - s.past.firstFail[(i, s.past.created[i])] >= BackoffSum(cfg, cfg.maxAttempts - 1)
  {
    assert TimedRow(cfg, s, i);
  }

  const SECOND: nat := 1_000_000_000

  function Power2(n: nat): nat {
    if n == 0 then 1 else 2 * Power2(n - 1)
  }

  function Min(a: nat, b: nat): nat {
    if a < b then a else b
  }

  /** Config.withDefaults: doubling from a second, capped. */
  function DefaultBackoff(attempt: nat): nat {
    Min(SECOND * Power2(Min(attempt, 9)), 10 * 60 * SECOND)
  }

  lemma {:induction false} Power2Grows(m: nat, n: nat)
    requires m <= n
    ensures Power2(m) <= Power2(n)
  {
    if m < n {
      Power2Grows(m, n - 1);
    }
  }

  /** The default never shrinks from one attempt to a later one, tops out at 512 seconds,
      and so never meets its ten-minute cap. */
  lemma DefaultBackoffShape(a: nat, b: nat)
    requires a <= b
    ensures DefaultBackoff(a) <= DefaultBackoff(b) <= 512 * SECOND
    ensures DefaultBackoff(a) == SECOND * Power2(Min(a, 9))
    ensures a == 0 ==> DefaultBackoff(a) == 1_000_000_000
    ensures a < 9 ==> DefaultBackoff(a + 1) == 2 * DefaultBackoff(a)
    ensures a >= 9 ==> DefaultBackoff(a) == 512_000_000_000
  {
    assert Power2(9) == 512;
    Power2Grows(Min(a, 9), Min(b, 9));
    Power2Grows(Min(b, 9), 9);
  }

  /** With the defaults that is 254 seconds. */
  lemma DefaultBurialTakes254Seconds(cfg: Config, s: State, i: EventId)
    requires cfg.maxAttempts == 8 && cfg.backoff == DefaultBackoff
    requires ReachableOnTime(cfg, s) && Buried(s, i)
    ensures i in s.past.buriedAt && (i, s.past.created[i]) in s.past.firstFail
    ensures s.past.buriedAt[i] - s.past.firstFail[(i, s.past.created[i])] >= 254_000_000_000
  {
    BurialTakesAllTheBackoffs(cfg, s, i);
    assert BackoffSum(cfg, 1) == 2 * SECOND;
    assert BackoffSum(cfg, 2) == 6 * SECOND;
    assert BackoffSum(cfg, 3) == 14 * SECOND;
    assert Power2(4) == 16;
    assert BackoffSum(cfg, 4) == 30 * SECOND;
    assert BackoffSum(cfg, 5) == 62 * SECOND;
    assert Power2(6) == 64;
    assert BackoffSum(cfg, 6) == 126 * SECOND;
    assert BackoffSum(cfg, 7) == 254 * SECOND;
  }

  // ---- No starvation ----------------------------------------------------------------

  function Spent(r: Row): nat {
    r.attempts + if r.claimed then 1 else 0
  }

  /** The delivery attempts the rows other than r can still use up. */
  ghost function AttemptsOwed(cfg: Config, rows: Rows, r: EventId): set<(EventId, nat)> {
    set i, a: nat | i in rows && i != r && !rows[i].buried && Spent(rows[i]) <= a < cfg.maxAttempts :: (i, a)
  }

  /** While nothing is claimed that is the sum, over the other unburied rows, of
      MaxAttempts less the attempts made. */
  ghost function OwedSum(cfg: Config, rows: Rows, ids: set<EventId>): nat
    requires ids <= rows.Keys && forall i :: i in ids ==> rows[i].attempts <= cfg.maxAttempts
  {
    if ids == {} then 0
    else
      var i :| i in ids;
      cfg.maxAttempts - rows[i].attempts + OwedSum(cfg, rows, ids - {i})
  }

  ghost function AttemptsOf(cfg: Config, rows: Rows, ids: set<EventId>): set<(EventId, nat)> {
    set i, a: nat | i in ids && i in rows && rows[i].attempts <= a < cfg.maxAttempts :: (i, a)
  }

  lemma {:induction false} Ladder(i: EventId, from: nat, upto: nat)
    requires from <= upto
    ensures |set a: nat | from <= a < upto :: (i, a)| == upto - from
    decreases upto - from
  {
    if from < upto {
      Ladder(i, from + 1, upto);
      assert (set a: nat | from <= a < upto :: (i, a)) == (set a: nat | from + 1 <= a < upto :: (i, a)) + {(i, from)};
    }
  }

  lemma {:induction false} OwedSumCounts(cfg: Config, rows: Rows, ids: set<EventId>)
    requires ids <= rows.Keys && forall i :: i in ids ==> rows[i].attempts <= cfg.maxAttempts
    ensures |AttemptsOf(cfg, rows, ids)| == OwedSum(cfg, rows, ids)
  {
    if ids == {} {
      assert AttemptsOf(cfg, rows, ids) == {};
    } else {
      var i :| i in ids && OwedSum(cfg, rows, ids) ==
          cfg.maxAttempts - rows[i].attempts + OwedSum(cfg, rows, ids - {i});
      OwedSumCounts(cfg, rows, ids - {i});
      var mine := set a: nat | rows[i].attempts <= a < cfg.maxAttempts :: (i, a);
      Ladder(i, rows[i].attempts, cfg.maxAttempts);
      assert AttemptsOf(cfg, rows, ids) == AttemptsOf(cfg, rows, ids - {i}) + mine;
    }
  }

  lemma OwedIsTheSum(cfg: Config, s: State, r: EventId)
    requires RowsOk(cfg, s) && forall i :: i in s.rows ==> !s.rows[i].claimed
    ensures |AttemptsOwed(cfg, s.rows, r)| == OwedSum(cfg, s.rows, s.rows.Keys - BuriedIds(s.rows) - {r})
  {
    var ids := s.rows.Keys - BuriedIds(s.rows) - {r};
    OwedSumCounts(cfg, s.rows, ids);
    assert AttemptsOwed(cfg, s.rows, r) == AttemptsOf(cfg, s.rows, ids);
  }

  /** A step that leaves the waiting row r where it is. */
  ghost predicate PassesOver(s: State, r: EventId, step: Step)
    requires r in s.rows
  {
    !step.Add? && !Claims(step, r) && (step.Claim? ==> s.rows[r].dueAt <= step.now)
  }

  lemma WaitingStays(cfg: Config, s: State, step: Step, r: EventId)
    requires Inv(cfg, s) && Enabled(cfg, s, step) && Waiting(s, r) && PassesOver(s, r, step)
    ensures r in Apply(cfg, s, step).rows && Apply(cfg, s, step).rows[r] == s.rows[r]
  {
    assert r !in s.past.holder;
    UnheldStays(cfg, s, step, r);
  }

  lemma FinishLeavesOthers(s: State, w: nat, r: EventId)
    requires AtWork(s, w) && r in s.rows && r !in s.workers[w].phase.done
    ensures var t := AfterFinish(s, w); r in t.rows && t.rows[r] == s.rows[r]
  {
  }

  lemma ClaimLeavesOthers(s: State, w: nat, now: Time, batch: seq<Pending>, r: EventId)
    requires w < |s.workers| && r in s.rows && r !in Ids(batch)
    ensures var t := AfterClaim(s, w, now, batch); r in t.rows && t.rows[r] == s.rows[r]
  {
  }

  lemma RecordLeavesOthers(cfg: Config, s: State, w: nat, now: Time, r: EventId)
    requires Enabled(cfg, s, Record(w, now)) && r in s.rows && r != s.workers[w].phase.todo[0].event.id
    ensures var t := AfterRecord(cfg, s, w, now); r in t.rows && t.rows[r] == s.rows[r]
  {
  }

  /** Outside a claim, the attempts owed only shrink. */
  lemma OwedShrinks(cfg: Config, s: State, step: Step, r: EventId)
    requires Inv(cfg, s) && Enabled(cfg, s, step) && !step.Add? && !step.Claim?
    ensures AttemptsOwed(cfg, Apply(cfg, s, step).rows, r) <= AttemptsOwed(cfg, s.rows, r)
  {
    match step
    case Record(w, now) => AtHand(cfg, s, w);
    case _ =>
  }

  ghost function Taken(rows: Rows, ids: seq<EventId>): set<(EventId, nat)> {
    set i | i in ids && i in rows :: (i, rows[i].attempts)
  }

  lemma {:induction false} TakenCounts(rows: Rows, ids: seq<EventId>)
    requires NoDup(ids) && forall i :: i in ids ==> i in rows
    ensures |Taken(rows, ids)| == |ids|
  {
    if ids == [] {
    } else {
      var n := |ids| - 1;
      TakenCounts(rows, ids[..n]);
      assert ids == ids[..n] + [ids[n]];
      assert Taken(rows, ids) == Taken(rows, ids[..n]) + {(ids[n], rows[ids[n]].attempts)};
    }
  }

  /** A claim that passes r over took a full batch, and used up one attempt of each row
      in it. */
  lemma ClaimUsesAttempts(cfg: Config, s: State, step: Step, r: EventId)
    requires Inv(cfg, s) && Enabled(cfg, s, step) && step.Claim? && Waiting(s, r) && PassesOver(s, r, step)
    ensures |AttemptsOwed(cfg, Apply(cfg, s, step).rows, r)| == |AttemptsOwed(cfg, s.rows, r)| - cfg.batch
  {
    var ids := Ids(step.batch);
    ClaimFacts(s, cfg, step.now, step.batch);
    FullBatch(s.rows, cfg.batch, step.now, step.batch, r);
    TakenCounts(s.rows, ids);
    MarkingTakes(cfg, s.rows, ids, r);
  }

  lemma MarkingTakes(cfg: Config, rows: Rows, ids: seq<EventId>, r: EventId)
    requires r !in ids
    requires forall i :: i in ids ==>
               i in rows && !rows[i].buried && !rows[i].claimed && rows[i].attempts < cfg.maxAttempts
    ensures Taken(rows, ids) <= AttemptsOwed(cfg, rows, r)
    ensures AttemptsOwed(cfg, MarkClaimed(rows, ids), r) == AttemptsOwed(cfg, rows, r) - Taken(rows, ids)
    ensures |AttemptsOwed(cfg, MarkClaimed(rows, ids), r)| == |AttemptsOwed(cfg, rows, r)| - |Taken(rows, ids)|
  {
  }

  lemma FullBatch(rows: Rows, n: nat, now: Time, batch: seq<Pending>, r: EventId)
    requires ClaimOf(rows, n, now, batch) && r in DueIds(rows, now) && r !in Ids(batch)
    requires forall i :: i in Ids(batch) ==> i in DueIds(rows, now)
    ensures |batch| == n
  {
    if |batch| != n {
      var taken := set i | i in Ids(batch);
      NoDupCount(Ids(batch), taken);
      assert taken + {r} <= DueIds(rows, now);
      SubsetSize(taken + {r}, DueIds(rows, now));
    }
  }

  ghost function ClaimCount(steps: seq<Step>): nat {
    if steps == [] then 0 else (if steps[0].Claim? then 1 else 0) + ClaimCount(steps[1..])
  }

  ghost predicate AllPassOver(dueAt: Time, r: EventId, steps: seq<Step>) {
    forall k :: 0 <= k < |steps| ==>
      !steps[k].Add? && !Claims(steps[k], r) && (steps[k].Claim? ==> dueAt <= steps[k].now)
  }

  /** Along any run that passes r over, every claim uses up a batch of attempts. */
  lemma {:induction false} ClaimsAreBounded(cfg: Config, s: State, steps: seq<Step>, r: EventId)
    requires Inv(cfg, s) && Legal(cfg, s, steps) && Waiting(s, r) && AllPassOver(s.rows[r].dueAt, r, steps)
    ensures RowsClaimed(steps, cfg.batch) <= |AttemptsOwed(cfg, s.rows, r)|
    decreases steps
  {
    if steps == [] {
    } else {
      var t := Apply(cfg, s, steps[0]);
      assert PassesOver(s, r, steps[0]);
      StepKeepsInv(cfg, s, steps[0]);
      WaitingStays(cfg, s, steps[0], r);
      assert AllPassOver(s.rows[r].dueAt, r, steps[1..]) by {
        assert forall k :: 0 <= k < |steps[1..]| ==> steps[1..][k] == steps[k + 1];
      }
      ClaimsAreBounded(cfg, t, steps[1..], r);
      OwedAfterStep(cfg, s, steps[0], r);
    }
  }

  lemma OwedAfterStep(cfg: Config, s: State, step: Step, r: EventId)
    requires Inv(cfg, s) && Enabled(cfg, s, step) && Waiting(s, r) && PassesOver(s, r, step)
    ensures |AttemptsOwed(cfg, Apply(cfg, s, step).rows, r)| + (if step.Claim? then cfg.batch else 0)
              <= |AttemptsOwed(cfg, s.rows, r)|
  {
    if step.Claim? {
      ClaimUsesAttempts(cfg, s, step, r);
    } else {
      OwedShrinks(cfg, s, step, r);
      SubsetSize(AttemptsOwed(cfg, Apply(cfg, s, step).rows, r), AttemptsOwed(cfg, s.rows, r));
    }
  }

  /** The rows full batches would have taken. */
  ghost function RowsClaimed(steps: seq<Step>, batch: nat): nat {
    if steps == [] then 0 else (if steps[0].Claim? then batch else 0) + RowsClaimed(steps[1..], batch)
  }

  lemma {:induction false} RowsClaimedIsProduct(steps: seq<Step>, batch: nat)
    ensures RowsClaimed(steps, batch) == ClaimCount(steps) * batch
  {
    if steps == [] {
    } else {
      RowsClaimedIsProduct(steps[1..], batch);
    }
  }

  /** No starvation: with nothing new added and the row due at every claim, the row is
      claimed by the time the dispatchers, however many and however they interleave, have
      made floor(P / batch) + 1 claims, where P counts the attempts the others have left,
      even if every one of those attempts fails. */
  lemma NoStarvation(cfg: Config, s: State, steps: seq<Step>, r: EventId)
    requires cfg.batch >= 1
    requires Inv(cfg, s) && Legal(cfg, s, steps) && Waiting(s, r)
    requires forall k :: 0 <= k < |steps| ==> !steps[k].Add? && (steps[k].Claim? ==> s.rows[r].dueAt <= steps[k].now)
    requires ClaimCount(steps) >= |AttemptsOwed(cfg, s.rows, r)| / cfg.batch + 1
    ensures exists k :: 0 <= k < |steps| && Claims(steps[k], r)
  {
    if forall k :: 0 <= k < |steps| ==> !Claims(steps[k], r) {
      ClaimsAreBounded(cfg, s, steps, r);
      RowsClaimedIsProduct(steps, cfg.batch);
      Multiples(cfg.batch, ClaimCount(steps), |AttemptsOwed(cfg, s.rows, r)|);
      assert false;
    }
  }

  lemma Multiples(b: nat, n: nat, p: nat)
    requires b >= 1 && n * b <= p
    ensures n <= p / b
  {
    var q := p / b;
    AboveQuotient(b, p, q);
    if n > q {
      TimesGrows(q + 1, n, b);
    }
  }

  lemma AboveQuotient(b: nat, p: nat, q: nat)
    requires b >= 1 && q == p / b
    ensures (q + 1) * b > p
  {
    assert p == q * b + p % b;
  }

  lemma TimesGrows(m: nat, n: nat, b: nat)
    requires m <= n
    ensures m * b <= n * b
  {
  }
}
