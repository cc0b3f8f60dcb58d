/** pkg/outbox/memory.go: the rows of the queue, and the store that updates them. */
module OutboxStore {
  import opened Collections
  import opened Sorting

  type EventId = nat
  type Time = int  // nanoseconds since Go's zero time

  const ZERO_TIME: Time := 0

  datatype Event = Event(id: EventId, name: string, occurredAt: Time)

  datatype Row = Row(event: Event, attempts: nat, dueAt: Time, claimed: bool, buried: bool,
                     reason: string, written: nat)

  type Rows = map<EventId, Row>

  /** A claimed row as the dispatcher sees it. */
  datatype Pending = Pending(event: Event, attempts: nat)

  datatype Level = Level(pending: nat, buried: nat, oldest: int)

  /** Every row sits under its own event's id. */
  ghost predicate Keyed(rows: Rows) {
    forall i :: i in rows ==> rows[i].event.id == i
  }

  function NewRow(e: Event, written: nat): Row {
    Row(e, 0, ZERO_TIME, false, false, "", written)
  }

  function AddOne(rows: Rows, e: Event): Rows {
    if e.id in rows then rows else rows[e.id := NewRow(e, |rows|)]
  }

  function AddAll(rows: Rows, evs: seq<Event>): Rows {
    if evs == [] then rows else AddOne(AddAll(rows, evs[..|evs| - 1]), evs[|evs| - 1])
  }

  function EventIds(evs: seq<Event>): set<EventId> {
    if evs == [] then {} else EventIds(evs[..|evs| - 1]) + {evs[|evs| - 1].id}
  }

  predicate Due(r: Row, now: Time) {
    !r.buried && !r.claimed && r.dueAt <= now
  }

  function DueIds(rows: Rows, now: Time): set<EventId> {
    set i | i in rows && Due(rows[i], now)
  }

  function BuriedIds(rows: Rows): set<EventId> {
    set i | i in rows && rows[i].buried
  }

  function Ids(ps: seq<Pending>): seq<EventId> {
    seq(|ps|, i requires 0 <= i < |ps| => ps[i].event.id)
  }

  /** What a claim of at most n rows may hand out: as many due rows as there are up to
      n, none twice, none written later than a due row left behind. */
  ghost predicate ClaimOf(rows: Rows, n: nat, now: Time, batch: seq<Pending>) {
    && |batch| == (if |DueIds(rows, now)| <= n then |DueIds(rows, now)| else n)
    && NoDup(Ids(batch))
    && (forall p :: p in batch ==>
          p.event.id in DueIds(rows, now) && p == Pending(rows[p.event.id].event, rows[p.event.id].attempts))
    && (forall p, i :: p in batch && i in DueIds(rows, now) && i !in Ids(batch)
          ==> rows[p.event.id].written <= rows[i].written)
  }

  /** Handed out in the order they were written. */
  ghost predicate InWrittenOrder(rows: Rows, batch: seq<Pending>) {
    forall j, k :: 0 <= j < k < |batch| && batch[j].event.id in rows && batch[k].event.id in rows ==>
      rows[batch[j].event.id].written <= rows[batch[k].event.id].written
  }

  function MarkClaimed(rows: Rows, ids: seq<EventId>): Rows {
    map i | i in rows :: if i in ids then rows[i].(claimed := true) else rows[i]
  }

  function FailRow(r: Row, reason: string, retryAt: Time): Row {
    var f := r.(attempts := r.attempts + 1, claimed := false, reason := reason);
    if retryAt == ZERO_TIME then f.(buried := true) else f.(dueAt := retryAt)
  }

  function FailOne(rows: Rows, id: EventId, reason: string, retryAt: Time): Rows {
    if id in rows then rows[id := FailRow(rows[id], reason, retryAt)] else rows
  }

  function FailAll(rows: Rows, ids: seq<EventId>, reason: string, retryAt: Time): Rows {
    if ids == [] then rows
    else FailOne(FailAll(rows, ids[..|ids| - 1], reason, retryAt), ids[|ids| - 1], reason, retryAt)
  }

  function Without(rows: Rows, ids: seq<EventId>): Rows {
    map i | i in rows && i !in ids :: rows[i]
  }

  /** The rows there before keep everything they had, and each id not yet there has one
      new row. */
  ghost predicate Grown(before: Rows, after: Rows, ids: set<EventId>) {
    && after.Keys == before.Keys + ids
    && (forall i :: i in before ==> after[i] == before[i])
    && (forall i :: i in after && i !in before ==>
          after[i] == NewRow(after[i].event, after[i].written) && after[i].event.id == i)
  }

  lemma AddOneGrows(before: Rows, mid: Rows, ids: set<EventId>, e: Event)
    requires Grown(before, mid, ids)
    ensures Grown(before, AddOne(mid, e), ids + {e.id})
  {
  }

  /** Adding is idempotent by id. */
  lemma {:induction false} AddIsIdempotentById(rows: Rows, evs: seq<Event>)
    ensures Grown(rows, AddAll(rows, evs), EventIds(evs))
  {
    if evs == [] {
    } else {
      var n := |evs| - 1;
      AddIsIdempotentById(rows, evs[..n]);
      AddOneGrows(rows, AddAll(rows, evs[..n]), EventIds(evs[..n]), evs[n]);
    }
  }

  /** A new row holds the first of the events carrying its id. */
  lemma {:induction false} FirstEventWins(rows: Rows, evs: seq<Event>, k: nat, i: EventId)
    requires i !in rows && FirstFor(evs, k, i)
    ensures i in AddAll(rows, evs) && AddAll(rows, evs)[i].event == evs[k]
  {
    var n := |evs| - 1;
    var mid := AddAll(rows, evs[..n]);
    assert AddAll(rows, evs) == AddOne(mid, evs[n]);
    if k < n {
      FirstEventWins(rows, evs[..n], k, i);
    } else {
      NotAmongIds(evs[..n], i);
      assert i !in mid by { AddIsIdempotentById(rows, evs[..n]); }
    }
  }

  /** That row is due at once, has failed no delivery, and is stamped with the number of rows
      there were. */
  lemma {:induction false} AddedRowIs(rows: Rows, evs: seq<Event>, k: nat, i: EventId)
    requires i !in rows && FirstFor(evs, k, i)
    ensures i in AddAll(rows, evs)
    ensures AddAll(rows, evs)[i] == Row(evs[k], 0, 0, false, false, "", |rows.Keys + set j | 0 <= j < k :: evs[j].id|)
  {
    IdsBefore(evs, k);
    StampedRow(rows, evs, k, i);
    assert |AddAll(rows, evs[..k])| == |AddAll(rows, evs[..k]).Keys|;
    AddIsIdempotentById(rows, evs[..k]);
  }

  lemma {:induction false} StampedRow(rows: Rows, evs: seq<Event>, k: nat, i: EventId)
    requires i !in rows && FirstFor(evs, k, i)
    ensures i in AddAll(rows, evs) && AddAll(rows, evs)[i] == NewRow(evs[k], |AddAll(rows, evs[..k])|)
  {
    var n := |evs| - 1;
    var front := evs[..n];
    assert AddAll(rows, evs) == AddOne(AddAll(rows, front), evs[n]);
    if k < n {
      StampedRow(rows, front, k, i);
      assert front[..k] == evs[..k];
    } else {
      NotAmongIds(front, i);
      assert i !in AddAll(rows, front) by { AddIsIdempotentById(rows, front); }
    }
  }

  lemma {:induction false} IdsBefore(evs: seq<Event>, k: nat)
    requires k <= |evs|
    ensures EventIds(evs[..k]) == set j | 0 <= j < k :: evs[j].id
  {
    if k > 0 {
      IdsBefore(evs, k - 1);
      assert evs[..k][..k - 1] == evs[..k - 1];
      assert (set j | 0 <= j < k :: evs[j].id) == (set j | 0 <= j < k - 1 :: evs[j].id) + {evs[k - 1].id};
    }
  }

  lemma {:induction false} NotAmongIds(evs: seq<Event>, i: EventId)
    requires forall k :: 0 <= k < |evs| ==> evs[k].id != i
    ensures i !in EventIds(evs)
  {
    if evs == [] {
    } else {
      NotAmongIds(evs[..|evs| - 1], i);
    }
  }

  /** The k-th event is the first carrying id i. */
  ghost predicate FirstFor(evs: seq<Event>, k: int, i: EventId) {
    0 <= k < |evs| && evs[k].id == i && forall j :: 0 <= j < k ==> evs[j].id != i
  }

  /** Failing a list of distinct rows fails each once; ids with no row are skipped. */
  lemma {:induction false} FailAllFailsEach(rows: Rows, ids: seq<EventId>, reason: string, retryAt: Time)
    requires NoDup(ids)
    ensures FailAll(rows, ids, reason, retryAt) ==
            map i | i in rows :: if i in ids then FailRow(rows[i], reason, retryAt) else rows[i]
  {
    if ids == [] {
    } else {
      var n := |ids| - 1;
      var before := ids[..n];
      assert ids == before + [ids[n]];
      FailAllFailsEach(rows, before, reason, retryAt);
      assert ids[n] !in before;
    }
  }

  /** What a failure does to one of the rows: one attempt more, released, with its reason,
      and buried if there is no time to retry, or else due then; the rest of it, and every
      other row, stays. */
  lemma FailedRowsAre(rows: Rows, ids: seq<EventId>, reason: string, retryAt: Time, i: EventId)
    requires NoDup(ids)
    ensures var after := FailAll(rows, ids, reason, retryAt);
            && (i in after <==> i in rows)
            && (i in rows && i !in ids ==> after[i] == rows[i])
            && (i in rows && i in ids ==>
                  && after[i].event == rows[i].event && after[i].written == rows[i].written
                  && after[i].attempts == rows[i].attempts + 1 && !after[i].claimed && after[i].reason == reason
                  && (if retryAt == 0 then after[i].buried && after[i].dueAt == rows[i].dueAt
                      else after[i].buried == rows[i].buried && after[i].dueAt == retryAt))
  {
    FailAllFailsEach(rows, ids, reason, retryAt);
  }

  /** A claim hands out as many as there are up to n of the rows that are neither buried nor
      claimed and are due by now, each once and as it stands, none written later than such a
      row left behind, and marks those rows and no others. */
  lemma ClaimIs(rows: Rows, n: nat, now: Time, batch: seq<Pending>)
    requires ClaimOf(rows, n, now, batch)
    ensures var free := set i | i in rows && !rows[i].buried && !rows[i].claimed && rows[i].dueAt <= now;
            && (|free| <= n ==> |batch| == |free|) && (|free| > n ==> |batch| == n)
            && (forall k :: 0 <= k < |batch| ==>
                  && batch[k].event.id in free
                  && batch[k].event == rows[batch[k].event.id].event
                  && batch[k].attempts == rows[batch[k].event.id].attempts)
            && (forall j, k :: 0 <= j < k < |batch| ==> batch[j].event.id != batch[k].event.id)
            && (forall k, i ::
                  0 <= k < |batch| && i in free && (forall j :: 0 <= j < |batch| ==> batch[j].event.id != i) ==>
                  rows[batch[k].event.id].written <= rows[i].written)
  {
    var free := set i | i in rows && !rows[i].buried && !rows[i].claimed && rows[i].dueAt <= now;
    assert free == DueIds(rows, now);
    forall k | 0 <= k < |batch| ensures batch[k] in batch && Ids(batch)[k] == batch[k].event.id {
    }
    forall k, i | 0 <= k < |batch| && i in free && (forall j :: 0 <= j < |batch| ==> batch[j].event.id != i)
      ensures rows[batch[k].event.id].written <= rows[i].written
    {
      assert i !in Ids(batch) && batch[k] in batch;
    }
  }

  lemma MarkedRowsAre(rows: Rows, batch: seq<Pending>, i: EventId)
    ensures var after := MarkClaimed(rows, Ids(batch));
            && (i in after <==> i in rows)
            && (i in rows && (exists k :: 0 <= k < |batch| && batch[k].event.id == i) ==>
                  after[i] == rows[i].(claimed := true))
            && (i in rows && (forall k :: 0 <= k < |batch| ==> batch[k].event.id != i) ==> after[i] == rows[i])
  {
    if k :| 0 <= k < |batch| && batch[k].event.id == i {
      assert Ids(batch)[k] == i;
    }
  }

  /** What Depth reports: the rows not buried, those buried, and the age of the oldest not
      buried, or zero if none is older. */
  lemma DepthIs(rows: Rows, now: Time, l: Level)
    requires Measured(rows, rows.Keys, now, l)
    ensures l.pending == |set i | i in rows && !rows[i].buried|
    ensures l.buried == |set i | i in rows && rows[i].buried|
    ensures forall i :: i in rows && !rows[i].buried ==> now - rows[i].event.occurredAt <= l.oldest
    ensures l.oldest == 0 || (l.oldest > 0 && exists i ::
              i in rows && !rows[i].buried && now - rows[i].event.occurredAt == l.oldest)
  {
    assert rows.Keys * BuriedIds(rows) == set i | i in rows && rows[i].buried;
    assert rows.Keys - BuriedIds(rows) == set i | i in rows && !rows[i].buried;
  }

  lemma MarkOneMore(rows: Rows, ids: seq<EventId>, i: EventId)
    requires i in rows
    ensures var marked := MarkClaimed(rows, ids);
            MarkClaimed(rows, ids + [i]) == marked[i := marked[i].(claimed := true)]
  {
  }

  lemma OnePendingMore(rs: seq<Row>, k: nat)
    requires k < |rs|
    ensures PendingOf(rs[..k + 1]) == PendingOf(rs[..k]) + [Pending(rs[k].event, rs[k].attempts)]
    ensures Ids(PendingOf(rs[..k + 1])) == Ids(PendingOf(rs[..k])) + [rs[k].event.id]
  {
    assert rs[..k + 1] == rs[..k] + [rs[k]];
  }

  lemma ClaimOneMore(rows: Rows, kept: seq<Row>, k: nat)
    requires k < |kept| && kept[k].event.id in rows
    ensures var marked, i := MarkClaimed(rows, Ids(PendingOf(kept[..k]))), kept[k].event.id;
            MarkClaimed(rows, Ids(PendingOf(kept[..k + 1]))) == marked[i := marked[i].(claimed := true)]
    ensures PendingOf(kept[..k + 1]) == PendingOf(kept[..k]) + [Pending(kept[k].event, kept[k].attempts)]
  {
    OnePendingMore(kept, k);
    MarkOneMore(rows, Ids(PendingOf(kept[..k])), kept[k].event.id);
  }

  function ByWritten(r: Row): Key {
    Key(r.written, 0)
  }

  class Memory {
    var rows: Rows

    constructor ()
      ensures rows == map[]
    {
      rows := map[];
    }

    method Add(evs: seq<Event>)
      modifies this
      ensures rows == AddAll(old(rows), evs)
    {
      for k := 0 to |evs|
        invariant rows == AddAll(old(rows), evs[..k])
      {
        assert evs[..k + 1][..k] == evs[..k];
        if evs[k].id !in rows {
          rows := rows[evs[k].id := NewRow(evs[k], |rows|)];
        }
      }
      assert evs[..|evs|] == evs;
    }

    method Claim(n: nat, now: Time) returns (batch: seq<Pending>)
      requires Keyed(rows)
      modifies this
      ensures ClaimOf(old(rows), n, now, batch)
      ensures rows == MarkClaimed(old(rows), Ids(batch))
      ensures InWrittenOrder(old(rows), batch)
    {
      var due := CollectDue(now);
      var sorted := SortSlice(due, ByWritten);
      var kept := if |sorted| > n then sorted[..n] else sorted;
      SortedPrefixIsClaim(rows, now, n, due, sorted, kept);
      KeptInOrder(rows, sorted, kept);
      batch := MarkAll(kept);
    }

    /** The second loop: marks the rows kept and hands them out. */
    method MarkAll(kept: seq<Row>) returns (batch: seq<Pending>)
      requires forall r :: r in kept ==> r.event.id in rows
      modifies this
      ensures batch == PendingOf(kept) && rows == MarkClaimed(old(rows), Ids(batch))
    {
      batch := [];
      for k := 0 to |kept|
        invariant batch == PendingOf(kept[..k])
        invariant rows == MarkClaimed(old(rows), Ids(batch))
      {
        var r := kept[k];
        assert r in kept;
        ClaimOneMore(old(rows), kept, k);
        rows := rows[r.event.id := rows[r.event.id].(claimed := true)];
        batch := batch + [Pending(r.event, r.attempts)];
      }
      assert kept[..|kept|] == kept;
    }

    /** The due rows, in whatever order the map yields them. */
    method CollectDue(now: Time) returns (due: seq<Row>)
      requires Keyed(rows)
      ensures DueRows(rows, now, due)
    {
      due := [];
      var left := rows.Keys;
      while left != {}
        invariant left <= rows.Keys
        invariant forall r :: r in due ==>
                    r.event.id in rows && r.event.id !in left && r == rows[r.event.id] && Due(r, now)
        invariant forall i :: i in rows && i !in left && Due(rows[i], now) ==> rows[i] in due
        invariant forall i, j :: 0 <= i < j < |due| ==> due[i].event.id != due[j].event.id
        decreases left
      {
        var i :| i in left;
        left := left - {i};
        var r := rows[i];
        if r.buried || r.claimed || r.dueAt > now {
          continue;
        }
        due := due + [r];
      }
    }

    method Delivered(ids: seq<EventId>)
      modifies this
      ensures rows == Without(old(rows), ids)
      ensures rows.Keys == old(rows).Keys - set i | i in ids
      ensures forall i :: i in rows ==> rows[i] == old(rows)[i]
    {
      for k := 0 to |ids|
        invariant rows == Without(old(rows), ids[..k])
      {
        rows := rows - {ids[k]};
      }
    }

    method Failed(ids: seq<EventId>, reason: string, retryAt: Time)
      modifies this
      ensures rows == FailAll(old(rows), ids, reason, retryAt)
    {
      for k := 0 to |ids|
        invariant rows == FailAll(old(rows), ids[..k], reason, retryAt)
      {
        assert ids[..k + 1][..k] == ids[..k];
        if ids[k] !in rows {
          continue;
        }
        var r := rows[ids[k]];
        r := r.(attempts := r.attempts + 1, claimed := false, reason := reason);
        if retryAt == ZERO_TIME {
          rows := rows[ids[k] := r.(buried := true)];
          continue;
        }
        rows := rows[ids[k] := r.(dueAt := retryAt)];
      }
      assert ids[..|ids|] == ids;
    }

    /** Owed and buried rows are counted apart; the age is that of the oldest row owed. */
    method Depth(now: Time) returns (l: Level)
      ensures Measured(rows, rows.Keys, now, l)
    {
      l := Level(0, 0, 0);
      var left := rows.Keys;
      ghost var seen := {};
      while left != {}
        invariant left + seen == rows.Keys && left !! seen
        invariant Measured(rows, seen, now, l)
        decreases left
      {
        var i :| i in left;
        MeasureOneMore(rows, seen, i, now, l);
        left, seen := left - {i}, seen + {i};
        var r := rows[i];
        if r.buried {
          l := l.(buried := l.buried + 1);
          continue;
        }
        var age := now - r.event.occurredAt;
        l := Level(l.pending + 1, l.buried, if age > l.oldest then age else l.oldest);
      }
    }
  }

  ghost predicate Counted(rows: Rows, seen: set<EventId>, l: Level) {
    l.buried == |seen * BuriedIds(rows)| && l.pending == |seen - BuriedIds(rows)|
  }

  ghost predicate Aged(rows: Rows, seen: set<EventId>, now: Time, oldest: int) {
    && oldest >= 0
    && (forall i :: i in rows && i in seen && !rows[i].buried ==> now - rows[i].event.occurredAt <= oldest)
    && (oldest > 0 ==> exists i :: i in rows && !rows[i].buried && now - rows[i].event.occurredAt == oldest)
  }

  ghost predicate Measured(rows: Rows, seen: set<EventId>, now: Time, l: Level) {
    Counted(rows, seen, l) && Aged(rows, seen, now, l.oldest)
  }

  function WithRow(l: Level, r: Row, now: Time): Level {
    var age := now - r.event.occurredAt;
    if r.buried then l.(buried := l.buried + 1)
    else Level(l.pending + 1, l.buried, if age > l.oldest then age else l.oldest)
  }

  lemma MeasureOneMore(rows: Rows, seen: set<EventId>, i: EventId, now: Time, l: Level)
    requires i in rows && i !in seen && Measured(rows, seen, now, l)
    ensures Measured(rows, seen + {i}, now, WithRow(l, rows[i], now))
  {
    CountOneMore(rows, seen, i, l);
    AgeOneMore(rows, seen, i, now, l.oldest);
  }

  lemma CountOneMore(rows: Rows, seen: set<EventId>, i: EventId, l: Level)
    requires i in rows && i !in seen && Counted(rows, seen, l)
    ensures Counted(rows, seen + {i}, if rows[i].buried then l.(buried := l.buried + 1)
              else l.(pending := l.pending + 1))
  {
    assert rows[i].buried <==> i in BuriedIds(rows);
    OneMoreOf(seen, BuriedIds(rows), i);
  }

  lemma OneMoreOf(seen: set<EventId>, some: set<EventId>, i: EventId)
    requires i !in seen
    ensures |(seen + {i}) * some| == |seen * some| + (if i in some then 1 else 0)
    ensures |(seen + {i}) - some| == |seen - some| + (if i in some then 0 else 1)
  {
    if i in some {
      assert (seen + {i}) * some == seen * some + {i};
      assert (seen + {i}) - some == seen - some;
    } else {
      assert (seen + {i}) * some == seen * some;
      assert (seen + {i}) - some == seen - some + {i};
    }
  }

  lemma AgeOneMore(rows: Rows, seen: set<EventId>, i: EventId, now: Time, oldest: int)
    requires i in rows && Aged(rows, seen, now, oldest)
    ensures rows[i].buried ==> Aged(rows, seen + {i}, now, oldest)
    ensures !rows[i].buried ==>
              var age := now - rows[i].event.occurredAt;
              Aged(rows, seen + {i}, now, if age > oldest then age else oldest)
  {
  }

  function PendingOf(rs: seq<Row>): seq<Pending> {
    seq(|rs|, i requires 0 <= i < |rs| => Pending(rs[i].event, rs[i].attempts))
  }

  ghost predicate DueRows(rows: Rows, now: Time, due: seq<Row>) {
    && (forall r :: r in due ==> r.event.id in rows && r == rows[r.event.id] && Due(r, now))
    && (forall i :: i in rows && Due(rows[i], now) ==> rows[i] in due)
    && (forall i, j :: 0 <= i < j < |due| ==> due[i].event.id != due[j].event.id)
  }

  lemma CountDue(rows: Rows, now: Time, due: seq<Row>)
    requires Keyed(rows) && DueRows(rows, now, due)
    ensures |due| == |DueIds(rows, now)|
  {
    var ids := seq(|due|, i requires 0 <= i < |due| => due[i].event.id);
    IdsOfDue(rows, now, due, ids);
    NoDupCount(ids, DueIds(rows, now));
  }

  lemma IdsOfDue(rows: Rows, now: Time, due: seq<Row>, ids: seq<EventId>)
    requires Keyed(rows) && DueRows(rows, now, due)
    requires |ids| == |due| && forall k :: 0 <= k < |due| ==> ids[k] == due[k].event.id
    ensures NoDup(ids) && forall i :: i in ids <==> i in DueIds(rows, now)
  {
    assert forall k :: 0 <= k < |due| ==> due[k] in due && ids[k] in DueIds(rows, now);
    forall i | i in DueIds(rows, now) ensures i in ids {
      var k :| 0 <= k < |due| && due[k] == rows[i];
      assert ids[k] == i;
    }
  }

  lemma SortedPrefixIsClaim(rows: Rows, now: Time, n: nat, due: seq<Row>, sorted: seq<Row>, kept: seq<Row>)
    requires Keyed(rows) && DueRows(rows, now, due)
    requires multiset(sorted) == multiset(due) && |sorted| == |due|
    requires InOrder(sorted, ByWritten)
    requires kept == if |sorted| > n then sorted[..n] else sorted
    ensures ClaimOf(rows, n, now, PendingOf(kept))
    ensures forall r :: r in kept ==> r.event.id in rows && r == rows[r.event.id]
  {
    CountDue(rows, now, due);
    assert forall i, j :: 0 <= i < j < |due| ==> due[i] != due[j];
    SameElementsNoDup(due, sorted);
    assert forall r :: r in sorted <==> r in multiset(sorted);
    assert forall r :: r in due <==> r in multiset(due);
    PrefixIdsDistinct(rows, sorted, kept);
    PrefixWellFormed(rows, now, sorted, kept);
    PrefixEarliest(rows, now, sorted, kept);
  }

  lemma KeptInOrder(rows: Rows, sorted: seq<Row>, kept: seq<Row>)
    requires InOrder(sorted, ByWritten) && kept <= sorted
    requires forall r :: r in kept ==> r.event.id in rows && r == rows[r.event.id]
    ensures InWrittenOrder(rows, PendingOf(kept))
  {
    var batch := PendingOf(kept);
    forall j, k | 0 <= j < k < |batch| ensures rows[batch[j].event.id].written <= rows[batch[k].event.id].written {
      assert kept[j] in kept && kept[k] in kept && sorted[j] == kept[j] && sorted[k] == kept[k];
      assert !ByWritten(sorted[k]).Below(ByWritten(sorted[j]));
    }
  }

  lemma PrefixWellFormed(rows: Rows, now: Time, sorted: seq<Row>, kept: seq<Row>)
    requires kept <= sorted
    requires forall r :: r in sorted ==> r.event.id in DueIds(rows, now) && r == rows[r.event.id]
    ensures forall p :: p in PendingOf(kept) ==>
              p.event.id in DueIds(rows, now) && p == Pending(rows[p.event.id].event, rows[p.event.id].attempts)
  {
    forall p | p in PendingOf(kept)
      ensures p.event.id in DueIds(rows, now) && p == Pending(rows[p.event.id].event, rows[p.event.id].attempts)
    {
      var k :| 0 <= k < |kept| && PendingOf(kept)[k] == p;
      assert sorted[k] in sorted;
    }
  }

  lemma PrefixEarliest(rows: Rows, now: Time, sorted: seq<Row>, kept: seq<Row>)
    requires Keyed(rows) && kept <= sorted && InOrder(sorted, ByWritten)
    requires forall r :: r in sorted ==> r.event.id in DueIds(rows, now) && r == rows[r.event.id]
    requires forall i :: i in DueIds(rows, now) ==> rows[i] in sorted
    ensures forall p, i :: p in PendingOf(kept) && i in DueIds(rows, now) && i !in Ids(PendingOf(kept))
              ==> p.event.id in rows && rows[p.event.id].written <= rows[i].written
  {
    forall p, i | p in PendingOf(kept) && i in DueIds(rows, now) && i !in Ids(PendingOf(kept))
      ensures p.event.id in rows && rows[p.event.id].written <= rows[i].written
    {
      var k :| 0 <= k < |kept| && PendingOf(kept)[k] == p;
      assert sorted[k] in sorted;
      assert forall m :: 0 <= m < |kept| ==> Ids(PendingOf(kept))[m] == kept[m].event.id;
      EarlierInPrefix(rows, sorted, kept, k, i);
    }
  }

  lemma PrefixIdsDistinct(rows: Rows, sorted: seq<Row>, kept: seq<Row>)
    requires NoDup(sorted) && kept <= sorted
    requires forall r :: r in sorted ==> r.event.id in rows && r == rows[r.event.id]
    ensures NoDup(Ids(PendingOf(kept)))
  {
    var ids := Ids(PendingOf(kept));
    forall i, j | 0 <= i < j < |ids| ensures ids[i] != ids[j] {
      assert kept[i] == sorted[i] && kept[j] == sorted[j];
      assert sorted[i] in sorted && sorted[j] in sorted;
    }
  }

  lemma EarlierInPrefix(rows: Rows, sorted: seq<Row>, kept: seq<Row>, k: nat, i: EventId)
    requires kept <= sorted && k < |kept|
    requires InOrder(sorted, ByWritten)
    requires i in rows && rows[i] in sorted && rows[i] !in kept
    ensures sorted[k].written <= rows[i].written
  {
    var rest := sorted[|kept|..];
    assert sorted == kept + rest;
    var m :| 0 <= m < |rest| && rest[m] == rows[i];
    assert sorted[|kept| + m] == rest[m];
    assert !ByWritten(sorted[|kept| + m]).Below(ByWritten(sorted[k]));
  }

  lemma {:induction false} NoDupCounts<T>(xs: seq<T>)
    ensures NoDup(xs) <==> forall x :: multiset(xs)[x] <= 1
  {
    if xs == [] {
    } else {
      var t := xs[..|xs| - 1];
      var z := xs[|xs| - 1];
      assert xs == t + [z];
      assert multiset(xs) == multiset(t) + multiset{z};
      NoDupCounts(t);
      if NoDup(xs) {
        assert z !in multiset(t) by { assert z !in t; }
      } else if NoDup(t) {
        var i, j :| 0 <= i < j < |xs| && xs[i] == xs[j];
        assert j == |xs| - 1 && z in t;
        assert multiset(xs)[z] >= 2;
      } else {
        var x :| multiset(t)[x] > 1;
        assert multiset(xs)[x] > 1;
      }
    }
  }

  lemma SameElementsNoDup<T>(xs: seq<T>, ys: seq<T>)
    requires multiset(xs) == multiset(ys) && NoDup(xs)
    ensures NoDup(ys)
  {
    NoDupCounts(xs);
    NoDupCounts(ys);
  }
}
