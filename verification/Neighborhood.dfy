/** root/research_neighborhood.go: the bounded breadth-first walk around one record, over
    the connections and the events that name it. */
module Neighborhood {
  import opened Collections

  type Id = nat  // 0 is the unset identifier

  datatype Connection = Connection(id: Id, kind: string, from: Id, to: Id)

  datatype Event = Event(id: Id, participants: seq<Id>, location: Option<Id>)

  /** What the stores answer while one request runs. */
  datatype Reads = Reads(connections: Id -> seq<Connection>, events: Id -> seq<Event>, kindOf: Id -> Option<string>)

  /** The request: "" asks for any kind. */
  datatype Query = Query(anchor: Id, anchorKind: string, depth: nat, limit: nat, kind: string, recordKind: string)

  // ---- The graph the two reads expose, as filtered ---------------------------------

  function Records(e: Event): seq<Id> {
    e.participants + if e.location.Some? then [e.location.value] else []
  }

  predicate Matches(q: Query, db: Reads, record: Id) {
    || q.recordKind == ""
    || (if record == q.anchor then Some(q.anchorKind) else db.kindOf(record)) == Some(q.recordKind)
  }

  predicate KeptConnection(q: Query, db: Reads, c: Connection) {
    (q.kind == "" || c.kind == q.kind) && (Matches(q, db, c.from) || Matches(q, db, c.to))
  }

  predicate KeptEvent(q: Query, db: Reads, e: Event) {
    q.recordKind == "" || exists r :: r in Records(e) && Matches(q, db, r)
  }

  /** Some kept connection or event of record s names x. */
  ghost predicate Names(q: Query, db: Reads, s: Id, x: Id) {
    || (exists c :: c in db.connections(s) && KeptConnection(q, db, c) && (x == c.from || x == c.to))
    || (exists e :: e in db.events(s) && KeptEvent(q, db, e) && x in Records(e))
  }

  /** The same, by a connection or event that names no unset identifier. */
  ghost predicate Hops(q: Query, db: Reads, s: Id, x: Id) {
    || (exists c ::
          c in db.connections(s) && KeptConnection(q, db, c) && c.from != 0 && c.to != 0 && (x == c.from || x == c.to))
    || (exists e :: e in db.events(s) && KeptEvent(q, db, e) && 0 !in Records(e) && x in Records(e))
  }

  ghost function Mentioned(db: Reads, s: Id): set<Id> {
    (set c | c in db.connections(s) :: c.from) + (set c | c in db.connections(s) :: c.to)
    + (set e, x | e in db.events(s) && x in Records(e) :: x)
  }

  ghost function NamedBy(q: Query, db: Reads, ss: set<Id>): set<Id> {
    set s, x | s in ss && x in Mentioned(db, s) && x != 0 && Names(q, db, s, x) :: x
  }

  ghost function HopsFrom(q: Query, db: Reads, ss: set<Id>): set<Id> {
    set s, x | s in ss && x in Mentioned(db, s) && Hops(q, db, s, x) :: x
  }

  ghost function Hop(q: Query, db: Reads): set<Id> -> set<Id> {
    (ss: set<Id>) => HopsFrom(q, db, ss)
  }

  ghost function Spread(start: set<Id>, hop: set<Id> -> set<Id>, n: nat): set<Id> {
    if n == 0 then start else Spread(start, hop, n - 1) + hop(Spread(start, hop, n - 1))
  }

  /** The records within n hops of the anchor. */
  ghost function Within(q: Query, db: Reads, n: nat): set<Id> {
    Spread({q.anchor}, Hop(q, db), n)
  }

  lemma WithinNext(q: Query, db: Reads, n: nat)
    ensures Within(q, db, 0) == {q.anchor}
    ensures Within(q, db, n + 1) == Within(q, db, n) + HopsFrom(q, db, Within(q, db, n))
  {
  }

  lemma {:induction false} SpreadGrows(start: set<Id>, hop: set<Id> -> set<Id>, m: nat, n: nat)
    requires m <= n
    ensures Spread(start, hop, m) <= Spread(start, hop, n)
    decreases n
  {
    if m < n {
      SpreadGrows(start, hop, m, n - 1);
    }
  }

  lemma {:induction false} SpreadKeepsHops(start: set<Id>, hop: set<Id> -> set<Id>, n: nat)
    requires forall a, b :: a <= b ==> hop(a) <= hop(b)
    ensures Spread(start, hop, n) <= start + hop(Spread(start, hop, n))
  {
    if n > 0 {
      var near := Spread(start, hop, n - 1);
      SpreadKeepsHops(start, hop, n - 1);
      assert near <= near + hop(near) && hop(near) <= hop(near + hop(near));
      assert Spread(start, hop, n) == near + hop(near);
    }
  }

  /** The anchor, and every record named by a kept connection or event of a record fewer than n
      hops away. */
  ghost function BallOf(q: Query, db: Reads, n: nat): set<Id> {
    {q.anchor} + if n == 0 then {} else NamedBy(q, db, Within(q, db, n - 1))
  }

  /** What a walk of this depth is to find. */
  ghost function Ball(q: Query, db: Reads): set<Id>
    requires q.depth >= 1
  {
    BallOf(q, db, q.depth)
  }

  /** No connection or event carries an unset identifier. */
  ghost predicate AllSet(db: Reads) {
    && (forall s, c :: c in db.connections(s) ==> c.from != 0 && c.to != 0)
    && (forall s, e :: e in db.events(s) ==> 0 !in Records(e))
  }

  lemma NamesIsMentioned(q: Query, db: Reads, s: Id, x: Id)
    requires Names(q, db, s, x)
    ensures x in Mentioned(db, s)
  {
  }

  lemma HopsIsNamed(q: Query, db: Reads, s: Id, x: Id)
    requires Hops(q, db, s, x)
    ensures Names(q, db, s, x) && x != 0 && x in Mentioned(db, s)
  {
  }

  /** With every identifier set, naming is hopping. */
  lemma AllSetNamesAreHops(q: Query, db: Reads, ss: set<Id>)
    requires AllSet(db)
    ensures NamedBy(q, db, ss) == HopsFrom(q, db, ss)
  {
    forall s, x | s in ss ensures x != 0 && Names(q, db, s, x) <==> Hops(q, db, s, x) {
    }
    forall x | x in NamedBy(q, db, ss) ensures x in HopsFrom(q, db, ss) {
    }
    forall x | x in HopsFrom(q, db, ss) ensures x in NamedBy(q, db, ss) {
      var s :| s in ss && x in Mentioned(db, s) && Hops(q, db, s, x);
      HopsIsNamed(q, db, s, x);
    }
  }

  /** With every identifier set, each ball is exactly what lies within so many hops. */
  lemma BallIsWithin(q: Query, db: Reads, n: nat)
    requires AllSet(db)
    ensures BallOf(q, db, n) == Within(q, db, n)
  {
    if n == 0 {
      WithinNext(q, db, 0);
    } else {
      AllSetNamesAreHops(q, db, Within(q, db, n - 1));
      AnchorWithin(q, db, n - 1);
      WithinKeepsHops(q, db, n - 1);
      WithinNext(q, db, n - 1);
    }
  }

  lemma AnchorWithin(q: Query, db: Reads, n: nat)
    ensures q.anchor in Within(q, db, n)
  {
    SpreadGrows({q.anchor}, Hop(q, db), 0, n);
  }

  lemma WithinGrows(q: Query, db: Reads, m: nat, n: nat)
    requires m <= n
    ensures Within(q, db, m) <= Within(q, db, n)
  {
    SpreadGrows({q.anchor}, Hop(q, db), m, n);
  }

  lemma HopsMonotone(q: Query, db: Reads, ss: set<Id>, tt: set<Id>)
    requires ss <= tt
    ensures HopsFrom(q, db, ss) <= HopsFrom(q, db, tt)
  {
  }

  /** Whatever lies within n hops, but for the anchor, is one hop from something that does. */
  lemma WithinKeepsHops(q: Query, db: Reads, n: nat)
    ensures Within(q, db, n) <= {q.anchor} + HopsFrom(q, db, Within(q, db, n))
  {
    var hop := Hop(q, db);
    forall a, b | a <= b ensures hop(a) <= hop(b) {
      HopsMonotone(q, db, a, b);
    }
    SpreadKeepsHops({q.anchor}, hop, n);
  }

  ghost predicate IsPath(q: Query, db: Reads, p: seq<Id>) {
    p != [] && p[0] == q.anchor && forall k :: 0 <= k < |p| - 1 ==> p[k + 1] in HopsFrom(q, db, {p[k]})
  }

  /** The records within 0, 1, 2 and so on hops. */
  ghost predicate AreLayers(start: set<Id>, hop: set<Id> -> set<Id>, layers: seq<set<Id>>) {
    && layers != [] && layers[0] == start
    && forall k :: 0 <= k < |layers| - 1 ==> layers[k + 1] == layers[k] + hop(layers[k])
  }

  lemma {:induction false} Layers(start: set<Id>, hop: set<Id> -> set<Id>, n: nat) returns (layers: seq<set<Id>>)
    ensures AreLayers(start, hop, layers) && |layers| == n + 1 && layers[n] == Spread(start, hop, n)
  {
    if n == 0 {
      layers := [start];
    } else {
      layers := Layers(start, hop, n - 1);
      layers := layers + [layers[n - 1] + hop(layers[n - 1])];
    }
  }

  lemma {:induction false} LayersGrow(start: set<Id>, hop: set<Id> -> set<Id>, layers: seq<set<Id>>, m: nat, n: nat)
    requires AreLayers(start, hop, layers) && m <= n < |layers|
    ensures layers[m] <= layers[n]
    decreases n
  {
    if m < n {
      LayersGrow(start, hop, layers, m, n - 1);
      assert layers[n - 1 + 1] == layers[n - 1] + hop(layers[n - 1]);
    }
  }

  lemma {:induction false} LayersSaturate(start: set<Id>, hop: set<Id> -> set<Id>, layers: seq<set<Id>>, m: nat, n: nat)
    requires AreLayers(start, hop, layers) && m <= n < |layers| && hop(layers[m]) <= layers[m]
    ensures layers[n] == layers[m]
    decreases n
  {
    if m < n {
      LayersSaturate(start, hop, layers, m, n - 1);
      assert layers[n - 1 + 1] == layers[n - 1] + hop(layers[n - 1]);
    }
  }

  /** Within n hops means what it says: a path of at most n hops leads there. */
  lemma WithinIsPaths(q: Query, db: Reads, n: nat, x: Id)
    ensures x in Within(q, db, n) <==> exists p :: IsPath(q, db, p) && p[|p| - 1] == x && |p| <= n + 1
  {
    if x in Within(q, db, n) {
      var layers := Layers({q.anchor}, Hop(q, db), n);
      var p := PathTo(q, db, layers, n, x);
    }
    if p :| IsPath(q, db, p) && p[|p| - 1] == x && |p| <= n + 1 {
      PathStaysWithin(q, db, p);
      WithinGrows(q, db, |p| - 1, n);
    }
  }

  lemma {:induction false} PathTo(q: Query, db: Reads, layers: seq<set<Id>>, n: nat, x: Id) returns (p: seq<Id>)
    requires AreLayers({q.anchor}, Hop(q, db), layers) && n < |layers| && x in layers[n]
    ensures IsPath(q, db, p) && p[|p| - 1] == x && |p| <= n + 1
    decreases n
  {
    if n == 0 {
      p := [x];
    } else if x in layers[n - 1] {
      p := PathTo(q, db, layers, n - 1, x);
    } else {
      assert layers[n - 1 + 1] == layers[n - 1] + HopsFrom(q, db, layers[n - 1]);
      var s := LastHop(q, db, layers[n - 1], x);
      var front := PathTo(q, db, layers, n - 1, s);
      p := ExtendPath(q, db, front, s, x);
    }
  }

  lemma LastHop(q: Query, db: Reads, nearer: set<Id>, x: Id) returns (s: Id)
    requires x in HopsFrom(q, db, nearer)
    ensures s in nearer && x in HopsFrom(q, db, {s})
  {
    s :| s in nearer && x in Mentioned(db, s) && Hops(q, db, s, x);
  }

  lemma ExtendPath(q: Query, db: Reads, front: seq<Id>, s: Id, x: Id) returns (p: seq<Id>)
    requires IsPath(q, db, front) && front[|front| - 1] == s && x in HopsFrom(q, db, {s})
    ensures IsPath(q, db, p) && p[|p| - 1] == x && |p| == |front| + 1
  {
    p := front + [x];
    forall k | 0 <= k < |p| - 1 ensures p[k + 1] in HopsFrom(q, db, {p[k]}) {
      assert p[k] == front[k];
    }
  }

  lemma {:induction false} PathStaysWithin(q: Query, db: Reads, p: seq<Id>)
    requires IsPath(q, db, p)
    ensures p[|p| - 1] in Within(q, db, |p| - 1)
  {
    if |p| > 1 {
      var front := p[..|p| - 1];
      assert forall k :: 0 <= k < |front| ==> front[k] == p[k];
      PathStaysWithin(q, db, front);
      WithinNext(q, db, |front| - 1);
      assert p[|p| - 1] in HopsFrom(q, db, {p[|p| - 2]});
    }
  }

  // ---- The walk ------------------------------------------------------------------------

  /** The variables of the walk, and the cache of record kinds. */
  datatype Found = Found(
    recordIDs: seq<Id>, seenRecords: set<Id>, truncated: bool,
    connections: seq<Connection>, seenConnections: set<Id>,
    events: seq<Event>, seenEvents: set<Id>,
    kinds: map<Id, string>)

  ghost predicate RecordsOk(q: Query, f: Found) {
    && NoDup(f.recordIDs) && (forall r :: r in f.recordIDs <==> r in f.seenRecords)
    && 1 <= |f.recordIDs| <= q.limit + 1 && f.recordIDs[0] == q.anchor
  }

  ghost predicate KindsOk(q: Query, db: Reads, f: Found) {
    && q.anchor in f.kinds && f.kinds[q.anchor] == q.anchorKind
    && forall r :: r in f.kinds && r != q.anchor ==> db.kindOf(r) == Some(f.kinds[r])
  }

  /** Once records have been dropped the answer is full, and a record of the ball is missing. */
  ghost predicate CutShort(q: Query, f: Found, ball: set<Id>) {
    f.truncated ==> |f.recordIDs| == q.limit + 1 && exists x :: x in ball && x !in f.seenRecords
  }

  ghost predicate ConnectionsOk(f: Found) {
    && (forall i, j :: 0 <= i < j < |f.connections| ==> f.connections[i].id != f.connections[j].id)
    && (forall c :: c in f.connections ==>
          c.id in f.seenConnections && c.from in f.seenRecords && c.to in f.seenRecords)
    && (forall i :: i in f.seenConnections ==> exists c :: c in f.connections && c.id == i)
  }

  ghost predicate EventsOk(f: Found) {
    && (forall i, j :: 0 <= i < j < |f.events| ==> f.events[i].id != f.events[j].id)
    && (forall e :: e in f.events ==> e.id in f.seenEvents && forall r :: r in Records(e) ==> r in f.seenRecords)
    && (forall i :: i in f.seenEvents ==> exists e :: e in f.events && e.id == i)
  }

  /** Everything returned comes from a kept connection or event of a record in ss. */
  ghost predicate FromWithin(q: Query, db: Reads, f: Found, ss: set<Id>) {
    && (forall c :: c in f.connections ==> KeptConnection(q, db, c) && exists s :: s in ss && c in db.connections(s))
    && (forall e :: e in f.events ==> KeptEvent(q, db, e) && exists s :: s in ss && e in db.events(s))
  }

  ghost predicate Ok(q: Query, db: Reads, f: Found, ball: set<Id>) {
    && RecordsOk(q, f) && KindsOk(q, db, f) && ConnectionsOk(f) && EventsOk(f) && CutShort(q, f, ball)
    && f.seenRecords <= ball
  }

  /** What only grows as the walk goes on. */
  ghost predicate Grows(f: Found, g: Found) {
    && f.seenRecords <= g.seenRecords && f.seenConnections <= g.seenConnections && f.seenEvents <= g.seenEvents
    && (f.truncated ==> g.truncated) && f.recordIDs <= g.recordIDs
  }

  ghost predicate ConnectionDone(f: Found, c: Connection) {
    || f.truncated
    || ((c.from == 0 || c.from in f.seenRecords) && (c.to == 0 || c.to in f.seenRecords)
        && (c.from != 0 && c.to != 0 ==> c.id in f.seenConnections))
  }

  ghost predicate EventDone(f: Found, e: Event) {
    || f.truncated
    || ((forall r :: r in Records(e) && r != 0 ==> r in f.seenRecords) && (0 !in Records(e) ==> e.id in f.seenEvents))
  }

  /** Nothing of record s is left to find. */
  ghost predicate RecordDone(q: Query, db: Reads, f: Found, s: Id) {
    && (forall c :: c in db.connections(s) && KeptConnection(q, db, c) ==> ConnectionDone(f, c))
    && (forall e :: e in db.events(s) && KeptEvent(q, db, e) ==> EventDone(f, e))
  }

  lemma DoneStays(q: Query, db: Reads, f: Found, g: Found, s: Id)
    requires Grows(f, g) && RecordDone(q, db, f, s)
    ensures RecordDone(q, db, g, s)
  {
  }

  /** recordKindMatches: through the cache, with the same answer as the store. */
  method RecordKindMatches(q: Query, db: Reads, f: Found, record: Id) returns (matches: bool, g: Found)
    requires KindsOk(q, db, f)
    ensures matches <==> Matches(q, db, record)
    ensures g == f.(kinds := g.kinds) && KindsOk(q, db, g)
  {
    g := f;
    if q.recordKind == "" {
      return true, g;
    }
    if record in f.kinds {
      return f.kinds[record] == q.recordKind, g;
    }
    var found := db.kindOf(record);
    if found.None? {
      return false, g;
    }
    g := f.(kinds := f.kinds[record := found.value]);
    matches := found.value == q.recordKind;
  }

  /** addRecord: whether the record is among those returned, adding it if there is room. */
  method AddRecord(q: Query, db: Reads, f: Found, record: Id, ghost ball: set<Id>) returns (visible: bool, g: Found)
    requires Ok(q, db, f, ball) && (record != 0 ==> record in ball)
    ensures Ok(q, db, g, ball) && Grows(f, g)
    ensures g == f.(recordIDs := g.recordIDs, seenRecords := g.seenRecords, truncated := g.truncated)
    ensures visible ==> record != 0 && record in g.seenRecords
    ensures !visible ==> record == 0 || g.truncated
  {
    g := f;
    if record == 0 {
      return false, g;
    }
    if record in f.seenRecords {
      return true, g;
    }
    if |f.recordIDs| >= q.limit + 1 {
      g := f.(truncated := true);
      return false, g;
    }
    g := f.(seenRecords := f.seenRecords + {record}, recordIDs := f.recordIDs + [record]);
    visible := true;
    StillCut(q, f, g, ball);
  }

  lemma StillCut(q: Query, f: Found, g: Found, ball: set<Id>)
    requires CutShort(q, f, ball) && |f.recordIDs| < q.limit + 1 && g.truncated == f.truncated
    ensures CutShort(q, g, ball)
  {
  }

  /** The frontier being gathered for the next level. */
  datatype Queue = Queue(items: seq<Id>, seen: set<Id>)

  ghost predicate QueueOk(q: Query, queue: Queue) {
    NoDup(queue.items) && (forall r :: r in queue.items <==> r in queue.seen) && 0 !in queue.seen
        && q.anchor !in queue.seen
  }

  method QueueNext(q: Query, queue: Queue, record: Id) returns (longer: Queue)
    requires QueueOk(q, queue)
    ensures QueueOk(q, longer)
    ensures longer.seen == queue.seen + if record == 0 || record == q.anchor then {} else {record}
  {
    longer := queue;
    if record == 0 || record == q.anchor {
      return;
    }
    if record in queue.seen {
      return;
    }
    longer := Queue(queue.items + [record], queue.seen + {record});
  }

  method QueueAll(q: Query, queue: Queue, records: seq<Id>) returns (longer: Queue)
    requires QueueOk(q, queue)
    ensures QueueOk(q, longer)
    ensures queue.seen <= longer.seen
    ensures forall r :: r in longer.seen ==> r in queue.seen || r in records
    ensures forall r :: r in records ==> r == 0 || r == q.anchor || r in longer.seen
  {
    longer := queue;
    for k := 0 to |records|
      invariant QueueOk(q, longer) && queue.seen <= longer.seen
      invariant forall r :: r in longer.seen ==> r in queue.seen || r in records
      invariant forall m :: 0 <= m < k ==> records[m] == 0 || records[m] == q.anchor || records[m] in longer.seen
    {
      longer := QueueNext(q, longer, records[k]);
    }
  }

  /** What visiting an item that names these records may add to the frontier. */
  ghost predicate Queued(q: Query, before: Queue, after: Queue, names: seq<Id>, whole: bool, deeper: bool,
                         truncated: bool) {
    && QueueOk(q, after) && before.seen <= after.seen
    && (forall r :: r in after.seen ==> r in before.seen || (whole && r in names))
    && (whole && deeper && !truncated ==> forall r :: r in names ==> r == q.anchor || r in after.seen)
  }

  method ConnectionMatches(q: Query, db: Reads, f: Found, c: Connection) returns (kept: bool, g: Found)
    requires KindsOk(q, db, f)
    ensures kept <==> KeptConnection(q, db, c)
    ensures g == f.(kinds := g.kinds) && KindsOk(q, db, g)
  {
    g := f;
    if q.kind != "" && c.kind != q.kind {
      return false, g;
    }
    if q.recordKind != "" {
      var fromMatches, toMatches;
      fromMatches, g := RecordKindMatches(q, db, g, c.from);
      toMatches, g := RecordKindMatches(q, db, g, c.to);
      if !fromMatches && !toMatches {
        return false, g;
      }
    }
    kept := true;
  }

  method EventMatches(q: Query, db: Reads, f: Found, e: Event) returns (kept: bool, g: Found)
    requires KindsOk(q, db, f)
    ensures kept <==> KeptEvent(q, db, e)
    ensures g == f.(kinds := g.kinds) && KindsOk(q, db, g)
  {
    g := f;
    if q.recordKind == "" {
      return true, g;
    }
    kept := false;
    for k := 0 to |e.participants|
      invariant kept <==> exists m :: 0 <= m < k && Matches(q, db, e.participants[m])
      invariant g == f.(kinds := g.kinds) && KindsOk(q, db, g)
    {
      var matched;
      matched, g := RecordKindMatches(q, db, g, e.participants[k]);
      kept := kept || matched;
    }
    if e.location.Some? {
      var matched;
      matched, g := RecordKindMatches(q, db, g, e.location.value);
      kept := kept || matched;
      assert Records(e)[|e.participants|] == e.location.value;
    }
    assert forall m :: 0 <= m < |e.participants| ==> Records(e)[m] == e.participants[m];
  }

  /** All the records a connection or event names, every one tried whatever became of the
      others. */
  method AddAll(q: Query, db: Reads, f: Found, records: seq<Id>, ghost ball: set<Id>) returns (all: bool, g: Found)
    requires Ok(q, db, f, ball) && forall r :: r in records && r != 0 ==> r in ball
    ensures Ok(q, db, g, ball) && Grows(f, g)
    ensures g == f.(recordIDs := g.recordIDs, seenRecords := g.seenRecords, truncated := g.truncated)
    ensures all ==> forall r :: r in records ==> r != 0 && r in g.seenRecords
    ensures !all ==> 0 in records || g.truncated
    ensures g.truncated || forall r :: r in records && r != 0 ==> r in g.seenRecords
  {
    all, g := true, f;
    for k := 0 to |records|
      invariant Ok(q, db, g, ball) && Grows(f, g)
      invariant g == f.(recordIDs := g.recordIDs, seenRecords := g.seenRecords, truncated := g.truncated)
      invariant all ==> forall m :: 0 <= m < k ==> records[m] != 0 && records[m] in g.seenRecords
      invariant !all ==> 0 in records || g.truncated
      invariant g.truncated || forall m :: 0 <= m < k && records[m] != 0 ==> records[m] in g.seenRecords
    {
      var visible;
      visible, g := AddRecord(q, db, g, records[k], ball);
      if !visible {
        all := false;
      }
    }
  }

  method VisitConnection(q: Query, db: Reads, f: Found, c: Connection, queue: Queue, deeper: bool,
                         ghost ball: set<Id>, ghost ss: set<Id>)
    returns (g: Found, longer: Queue)
    requires Ok(q, db, f, ball) && FromWithin(q, db, f, ss) && QueueOk(q, queue)
    requires exists s :: s in ss && c in db.connections(s)
    requires KeptConnection(q, db, c) ==> (c.from == 0 || c.from in ball) && (c.to == 0 || c.to in ball)
    ensures Ok(q, db, g, ball) && FromWithin(q, db, g, ss) && Grows(f, g)
    ensures KeptConnection(q, db, c) ==> ConnectionDone(g, c)
    ensures Queued(q, queue, longer, [c.from, c.to], KeptConnection(q, db, c) && c.from != 0
              && c.to != 0, deeper, g.truncated)
  {
    longer := queue;
    var kept;
    kept, g := ConnectionMatches(q, db, f, c);
    if !kept {
      return;
    }
    var visible;
    visible, g := AddAll(q, db, g, [c.from, c.to], ball);
    assert c.from in [c.from, c.to] && c.to in [c.from, c.to];
    if !visible {
      return;
    }
    if c.id !in g.seenConnections {
      ConnectionAdded(q, db, g, c, ball, ss);
      g := g.(seenConnections := g.seenConnections + {c.id}, connections := g.connections + [c]);
    }
    if deeper {
      longer := QueueAll(q, longer, [c.from, c.to]);
    }
  }

  lemma ConnectionAdded(q: Query, db: Reads, f: Found, c: Connection, ball: set<Id>, ss: set<Id>)
    requires Ok(q, db, f, ball) && FromWithin(q, db, f, ss) && KeptConnection(q, db, c)
    requires c.id !in f.seenConnections && c.from in f.seenRecords && c.to in f.seenRecords
    requires exists s :: s in ss && c in db.connections(s)
    ensures var g := f.(seenConnections := f.seenConnections + {c.id}, connections := f.connections + [c]);
            Ok(q, db, g, ball) && FromWithin(q, db, g, ss) && Grows(f, g)
  {
    var g := f.(seenConnections := f.seenConnections + {c.id}, connections := f.connections + [c]);
    assert forall d :: d in g.connections <==> d in f.connections || d == c;
  }

  method VisitEvent(q: Query, db: Reads, f: Found, e: Event, queue: Queue, deeper: bool,
                    ghost ball: set<Id>, ghost ss: set<Id>)
    returns (g: Found, longer: Queue)
    requires Ok(q, db, f, ball) && FromWithin(q, db, f, ss) && QueueOk(q, queue)
    requires exists s :: s in ss && e in db.events(s)
    requires KeptEvent(q, db, e) ==> forall r :: r in Records(e) && r != 0 ==> r in ball
    ensures Ok(q, db, g, ball) && FromWithin(q, db, g, ss) && Grows(f, g)
    ensures KeptEvent(q, db, e) ==> EventDone(g, e)
    ensures Queued(q, queue, longer, Records(e), KeptEvent(q, db, e) && 0 !in Records(e), deeper, g.truncated)
  {
    longer := queue;
    var kept;
    kept, g := EventMatches(q, db, f, e);
    if !kept {
      return;
    }
    var visible;
    visible, g := AddAll(q, db, g, Records(e), ball);
    if !visible {
      return;
    }
    if e.id !in g.seenEvents {
      EventAdded(q, db, g, e, ball, ss);
      g := g.(seenEvents := g.seenEvents + {e.id}, events := g.events + [e]);
    }
    if deeper {
      longer := QueueAll(q, longer, Records(e));
    }
  }

  lemma EventAdded(q: Query, db: Reads, f: Found, e: Event, ball: set<Id>, ss: set<Id>)
    requires Ok(q, db, f, ball) && FromWithin(q, db, f, ss) && KeptEvent(q, db, e)
    requires e.id !in f.seenEvents && forall r :: r in Records(e) ==> r in f.seenRecords
    requires exists s :: s in ss && e in db.events(s)
    ensures var g := f.(seenEvents := f.seenEvents + {e.id}, events := f.events + [e]);
            Ok(q, db, g, ball) && FromWithin(q, db, g, ss) && Grows(f, g)
  {
    var g := f.(seenEvents := f.seenEvents + {e.id}, events := f.events + [e]);
    assert forall d :: d in g.events <==> d in f.events || d == e;
  }

  // ---- Record by record, level by level ------------------------------------------------

  ghost predicate AllQueued(q: Query, queue: Queue, names: seq<Id>) {
    0 !in names ==> forall r :: r in names ==> r == q.anchor || r in queue.seen
  }

  /** The first n connections of s, and the first m events, have been seen to. */
  ghost predicate PartDone(q: Query, db: Reads, f: Found, s: Id, n: nat, m: nat)
    requires n <= |db.connections(s)| && m <= |db.events(s)|
  {
    && (forall k :: 0 <= k < n && KeptConnection(q, db, db.connections(s)[k]) ==>
          ConnectionDone(f, db.connections(s)[k]))
    && (forall k :: 0 <= k < m && KeptEvent(q, db, db.events(s)[k]) ==> EventDone(f, db.events(s)[k]))
  }

  ghost predicate PartQueued(q: Query, db: Reads, queue: Queue, s: Id, n: nat, m: nat)
    requires n <= |db.connections(s)| && m <= |db.events(s)|
  {
    && (forall k :: 0 <= k < n && KeptConnection(q, db, db.connections(s)[k]) ==>
          AllQueued(q, queue, [db.connections(s)[k].from, db.connections(s)[k].to]))
    && (forall k :: 0 <= k < m && KeptEvent(q, db, db.events(s)[k]) ==> AllQueued(q, queue, Records(db.events(s)[k])))
  }

  ghost predicate QueuedFrom(q: Query, db: Reads, before: Queue, after: Queue, s: Id) {
    before.seen <= after.seen && forall r :: r in after.seen ==> r in before.seen || Hops(q, db, s, r)
  }

  lemma PartStays(q: Query, db: Reads, f: Found, g: Found, s: Id, n: nat, m: nat)
    requires n <= |db.connections(s)| && m <= |db.events(s)|
    requires Grows(f, g) && PartDone(q, db, f, s, n, m)
    ensures PartDone(q, db, g, s, n, m)
  {
  }

  lemma QueuedByConnection(q: Query, db: Reads, before: Queue, mid: Queue, after: Queue, s: Id, c: Connection,
                           deeper: bool, truncated: bool)
    requires QueuedFrom(q, db, before, mid, s) && c in db.connections(s)
    requires Queued(q, mid, after, [c.from, c.to], KeptConnection(q, db, c) && c.from != 0
              && c.to != 0, deeper, truncated)
    ensures QueuedFrom(q, db, before, after, s)
  {
    forall r | r in after.seen && r !in mid.seen ensures Hops(q, db, s, r) {
      assert r in [c.from, c.to];
    }
  }

  lemma QueuedByEvent(q: Query, db: Reads, before: Queue, mid: Queue, after: Queue, s: Id, e: Event, deeper: bool,
                      truncated: bool)
    requires QueuedFrom(q, db, before, mid, s) && e in db.events(s)
    requires Queued(q, mid, after, Records(e), KeptEvent(q, db, e) && 0 !in Records(e), deeper, truncated)
    ensures QueuedFrom(q, db, before, after, s)
  {
  }

  method VisitRecord(q: Query, db: Reads, f: Found, s: Id, queue: Queue, deeper: bool, ghost ball: set<Id>,
                     ghost ss: set<Id>)
    returns (g: Found, longer: Queue)
    requires Ok(q, db, f, ball) && FromWithin(q, db, f, ss) && QueueOk(q, queue) && s in ss
    requires forall x :: x != 0 && Names(q, db, s, x) ==> x in ball
    ensures Ok(q, db, g, ball) && FromWithin(q, db, g, ss) && Grows(f, g) && QueueOk(q, longer)
    ensures RecordDone(q, db, g, s)
    ensures QueuedFrom(q, db, queue, longer, s)
    ensures deeper && !g.truncated ==> forall r :: Hops(q, db, s, r) ==> r == q.anchor || r in longer.seen
  {
    g, longer := f, queue;
    var cs, es := db.connections(s), db.events(s);
    for k := 0 to |cs|
      invariant Ok(q, db, g, ball) && FromWithin(q, db, g, ss) && Grows(f, g) && QueueOk(q, longer)
      invariant PartDone(q, db, g, s, k, 0) && QueuedFrom(q, db, queue, longer, s)
      invariant deeper && !g.truncated ==> PartQueued(q, db, longer, s, k, 0)
    {
      g, longer := NextConnection(q, db, g, s, k, queue, longer, deeper, ball, ss);
    }
    for k := 0 to |es|
      invariant Ok(q, db, g, ball) && FromWithin(q, db, g, ss) && Grows(f, g) && QueueOk(q, longer)
      invariant PartDone(q, db, g, s, |cs|, k) && QueuedFrom(q, db, queue, longer, s)
      invariant deeper && !g.truncated ==> PartQueued(q, db, longer, s, |cs|, k)
    {
      g, longer := NextEvent(q, db, g, s, k, queue, longer, deeper, ball, ss);
    }
    AllPartsDone(q, db, g, s);
    if deeper && !g.truncated {
      AllPartsQueued(q, db, longer, s);
    }
  }

  lemma AllPartsDone(q: Query, db: Reads, g: Found, s: Id)
    requires PartDone(q, db, g, s, |db.connections(s)|, |db.events(s)|)
    ensures RecordDone(q, db, g, s)
  {
    forall c | c in db.connections(s) && KeptConnection(q, db, c) ensures ConnectionDone(g, c) {
      var k :| 0 <= k < |db.connections(s)| && db.connections(s)[k] == c;
    }
    forall e | e in db.events(s) && KeptEvent(q, db, e) ensures EventDone(g, e) {
      var k :| 0 <= k < |db.events(s)| && db.events(s)[k] == e;
    }
  }

  lemma AllPartsQueued(q: Query, db: Reads, queue: Queue, s: Id)
    requires PartQueued(q, db, queue, s, |db.connections(s)|, |db.events(s)|)
    ensures forall r :: Hops(q, db, s, r) ==> r == q.anchor || r in queue.seen
  {
    forall r | Hops(q, db, s, r) ensures r == q.anchor || r in queue.seen {
      if c :|
        c in db.connections(s) && KeptConnection(q, db, c) && c.from != 0 && c.to != 0 && (r == c.from || r == c.to)
      {
        var k :| 0 <= k < |db.connections(s)| && db.connections(s)[k] == c;
        assert AllQueued(q, queue, [c.from, c.to]) && r in [c.from, c.to];
      } else {
        var e :| e in db.events(s) && KeptEvent(q, db, e) && 0 !in Records(e) && r in Records(e);
        var k :| 0 <= k < |db.events(s)| && db.events(s)[k] == e;
        assert AllQueued(q, queue, Records(e));
      }
    }
  }

  method NextConnection(q: Query, db: Reads, f: Found, s: Id, k: nat, ghost first: Queue, queue: Queue, deeper: bool,
                        ghost ball: set<Id>, ghost ss: set<Id>)
    returns (g: Found, longer: Queue)
    requires Ok(q, db, f, ball) && FromWithin(q, db, f, ss) && QueueOk(q, queue) && s in ss
    requires forall x :: x != 0 && Names(q, db, s, x) ==> x in ball
    requires k < |db.connections(s)| && PartDone(q, db, f, s, k, 0) && QueuedFrom(q, db, first, queue, s)
    requires deeper && !f.truncated ==> PartQueued(q, db, queue, s, k, 0)
    ensures Ok(q, db, g, ball) && FromWithin(q, db, g, ss) && Grows(f, g) && QueueOk(q, longer)
    ensures PartDone(q, db, g, s, k + 1, 0) && QueuedFrom(q, db, first, longer, s)
    ensures deeper && !g.truncated ==> PartQueued(q, db, longer, s, k + 1, 0)
  {
    var c := db.connections(s)[k];
    assert c in db.connections(s);
    g, longer := VisitConnection(q, db, f, c, queue, deeper, ball, ss);
    PartStays(q, db, f, g, s, k, 0);
    QueuedByConnection(q, db, first, queue, longer, s, c, deeper, g.truncated);
    assert c.from in [c.from, c.to] && c.to in [c.from, c.to];
  }

  method NextEvent(q: Query, db: Reads, f: Found, s: Id, k: nat, ghost first: Queue, queue: Queue, deeper: bool,
                   ghost ball: set<Id>, ghost ss: set<Id>)
    returns (g: Found, longer: Queue)
    requires Ok(q, db, f, ball) && FromWithin(q, db, f, ss) && QueueOk(q, queue) && s in ss
    requires forall x :: x != 0 && Names(q, db, s, x) ==> x in ball
    requires k < |db.events(s)| && PartDone(q, db, f, s, |db.connections(s)|, k) && QueuedFrom(q, db, first, queue, s)
    requires deeper && !f.truncated ==> PartQueued(q, db, queue, s, |db.connections(s)|, k)
    ensures Ok(q, db, g, ball) && FromWithin(q, db, g, ss) && Grows(f, g) && QueueOk(q, longer)
    ensures PartDone(q, db, g, s, |db.connections(s)|, k + 1) && QueuedFrom(q, db, first, longer, s)
    ensures deeper && !g.truncated ==> PartQueued(q, db, longer, s, |db.connections(s)|, k + 1)
  {
    var e := db.events(s)[k];
    assert e in db.events(s);
    g, longer := VisitEvent(q, db, f, e, queue, deeper, ball, ss);
    PartStays(q, db, f, g, s, |db.connections(s)|, k);
    QueuedByEvent(q, db, first, queue, longer, s, e, deeper, g.truncated);
  }

  method VisitLevel(q: Query, db: Reads, f: Found, frontier: seq<Id>, deeper: bool, ghost ball: set<Id>,
                    ghost ss: set<Id>)
    returns (g: Found, next: Queue)
    requires Ok(q, db, f, ball) && FromWithin(q, db, f, ss) && forall s :: s in frontier ==> s in ss
    requires forall s, x :: s in frontier && x != 0 && Names(q, db, s, x) ==> x in ball
    ensures Ok(q, db, g, ball) && FromWithin(q, db, g, ss) && Grows(f, g) && QueueOk(q, next)
    ensures forall s :: s in frontier ==> RecordDone(q, db, g, s)
    ensures forall r :: r in next.seen ==> exists s :: s in frontier && Hops(q, db, s, r)
    ensures deeper && !g.truncated ==> forall s, r :: s in frontier && Hops(q, db, s, r) ==>
              r == q.anchor || r in next.seen
  {
    g, next := f, Queue([], {});
    for k := 0 to |frontier|
      invariant Ok(q, db, g, ball) && FromWithin(q, db, g, ss) && Grows(f, g) && QueueOk(q, next)
      invariant forall m :: 0 <= m < k ==> RecordDone(q, db, g, frontier[m])
      invariant forall r :: r in next.seen ==> exists s :: s in frontier && Hops(q, db, s, r)
      invariant deeper && !g.truncated ==>
                  forall m, r :: 0 <= m < k && Hops(q, db, frontier[m], r) ==> r == q.anchor || r in next.seen
    {
      ghost var before := g;
      g, next := VisitRecord(q, db, g, frontier[k], next, deeper, ball, ss);
      forall m | 0 <= m < k ensures RecordDone(q, db, g, frontier[m]) {
        DoneStays(q, db, before, g, frontier[m]);
      }
    }
  }

  /** Where the walk stands between levels, `near` being the records within as many hops as
      levels were visited: the frontier is among them, and unless records were dropped, what
      is not on it is finished and leads nowhere new. */
  ghost predicate AtLevel(q: Query, db: Reads, f: Found, near: set<Id>, frontier: seq<Id>) {
    && q.anchor in near
    && (forall s :: s in frontier ==> s in near)
    && (!f.truncated ==> forall s :: s in near && s !in frontier ==>
          RecordDone(q, db, f, s) && forall r :: Hops(q, db, s, r) ==> r in near)
  }

  /** Unless records were dropped, nothing within reach is left to find. */
  ghost predicate Finished(q: Query, db: Reads, f: Found, reach: set<Id>) {
    !f.truncated ==> forall s :: s in reach ==> RecordDone(q, db, f, s)
  }

  lemma HopLands(q: Query, db: Reads, near: set<Id>, s: Id, r: Id)
    requires s in near && Hops(q, db, s, r)
    ensures r in HopsFrom(q, db, near)
  {
    HopsIsNamed(q, db, s, r);
  }

  lemma NextLevel(q: Query, db: Reads, f: Found, g: Found, near: set<Id>, frontier: seq<Id>, next: Queue)
    requires AtLevel(q, db, f, near, frontier) && Grows(f, g)
    requires forall s :: s in frontier ==> RecordDone(q, db, g, s)
    requires forall r :: r in next.seen ==> exists s :: s in frontier && Hops(q, db, s, r)
    requires !g.truncated ==> forall s, r :: s in frontier && Hops(q, db, s, r) ==> r == q.anchor || r in next.seen
    requires forall r :: r in next.items <==> r in next.seen
    ensures AtLevel(q, db, g, near + HopsFrom(q, db, near), next.items)
  {
    var wider := near + HopsFrom(q, db, near);
    forall s | s in next.items ensures s in wider {
      var t :| t in frontier && Hops(q, db, t, s);
      HopLands(q, db, near, t, s);
    }
    if !g.truncated {
      forall s | s in wider && s !in next.items
        ensures RecordDone(q, db, g, s) && forall r :: Hops(q, db, s, r) ==> r in wider
      {
        NotQueuedIsOld(q, db, near, frontier, next, s);
        if s !in frontier {
          DoneStays(q, db, f, g, s);
        }
        forall r | Hops(q, db, s, r) ensures r in wider {
          HopLands(q, db, near, s, r);
        }
      }
    }
  }

  lemma NotQueuedIsOld(q: Query, db: Reads, now: set<Id>, frontier: seq<Id>, next: Queue, s: Id)
    requires q.anchor in now && s in now + HopsFrom(q, db, now) && s !in next.seen
    requires forall t, r :: t in frontier && Hops(q, db, t, r) ==> r == q.anchor || r in next.seen
    requires forall t :: t in now && t !in frontier ==> forall r :: Hops(q, db, t, r) ==> r in now
    ensures s in now
  {
    if s in HopsFrom(q, db, now) {
      var t :| t in now && s in Mentioned(db, t) && Hops(q, db, t, s);
    }
  }

  lemma LastLevel(q: Query, db: Reads, f: Found, g: Found, near: set<Id>, frontier: seq<Id>)
    requires AtLevel(q, db, f, near, frontier) && Grows(f, g)
    requires forall s :: s in frontier ==> RecordDone(q, db, g, s)
    ensures Finished(q, db, g, near)
  {
    if !g.truncated {
      forall s | s in near ensures RecordDone(q, db, g, s) {
        if s !in frontier {
          DoneStays(q, db, f, g, s);
        }
      }
    }
  }

  /** An empty frontier means no deeper level has anything more. */
  lemma NothingDeeper(q: Query, db: Reads, f: Found, layers: seq<set<Id>>, level: nat)
    requires AreLayers({q.anchor}, Hop(q, db), layers) && level < |layers| && AtLevel(q, db, f, layers[level], [])
    ensures Finished(q, db, f, layers[|layers| - 1])
  {
    if !f.truncated {
      HopsStayIn(q, db, layers[level]);
      LayersSaturate({q.anchor}, Hop(q, db), layers, level, |layers| - 1);
    }
  }

  lemma HopsStayIn(q: Query, db: Reads, ss: set<Id>)
    requires forall s, r :: s in ss && Hops(q, db, s, r) ==> r in ss
    ensures HopsFrom(q, db, ss) <= ss
  {
  }

  lemma FinishedHasTheBall(q: Query, db: Reads, f: Found, reach: set<Id>, ball: set<Id>)
    requires ball == {q.anchor} + NamedBy(q, db, reach)
    requires RecordsOk(q, f) && CutShort(q, f, ball) && f.seenRecords <= ball && Finished(q, db, f, reach)
    ensures !f.truncated ==> f.seenRecords == ball
    ensures f.truncated <==> |ball| > q.limit + 1
  {
    var mine := set r | r in f.recordIDs;
    NoDupCount(f.recordIDs, mine);
    assert mine == f.seenRecords;
    if f.truncated {
      var x :| x in ball && x !in f.seenRecords;
      SubsetSize(mine + {x}, ball);
    } else {
      SeesTheBall(q, db, f, reach, ball);
    }
  }

  lemma SeesTheBall(q: Query, db: Reads, f: Found, reach: set<Id>, ball: set<Id>)
    requires ball == {q.anchor} + NamedBy(q, db, reach)
    requires RecordsOk(q, f) && Finished(q, db, f, reach) && !f.truncated
    ensures ball <= f.seenRecords
  {
    assert f.recordIDs[0] in f.recordIDs;
    forall x | x in NamedBy(q, db, reach) ensures x in f.seenRecords {
      var s :| s in reach && x in Mentioned(db, s) && x != 0 && Names(q, db, s, x);
      DoneIsSeen(q, db, f, s, x);
    }
  }

  lemma DoneIsSeen(q: Query, db: Reads, f: Found, s: Id, x: Id)
    requires RecordDone(q, db, f, s) && !f.truncated && x != 0 && Names(q, db, s, x)
    ensures x in f.seenRecords
  {
  }

  /** The records returned are the nearest: those of a ball come before those outside it, and
      nothing outside is there while something of the ball is missing. */
  ghost predicate Nearest(f: Found, ball: set<Id>) {
    && (forall i, j :: 0 <= i < j < |f.recordIDs| && f.recordIDs[j] in ball ==> f.recordIDs[i] in ball)
    && (ball <= f.seenRecords || f.seenRecords <= ball)
  }

  /** A ball the walk is done with. */
  ghost predicate BallDone(f: Found, ball: set<Id>) {
    Nearest(f, ball) && (f.truncated || ball <= f.seenRecords)
  }

  lemma InsideIsNearest(q: Query, f: Found, ball: set<Id>)
    requires RecordsOk(q, f) && f.seenRecords <= ball
    ensures Nearest(f, ball)
  {
  }

  /** Once full the records stay, and before that a ball done with is all there. */
  lemma BallStaysDone(q: Query, f: Found, g: Found, ball: set<Id>)
    requires RecordsOk(q, f) && RecordsOk(q, g) && Grows(f, g) && BallDone(f, ball)
    requires f.truncated ==> |f.recordIDs| == q.limit + 1
    ensures BallDone(g, ball)
  {
    if f.truncated {
      assert g.recordIDs == f.recordIDs;
      assert g.seenRecords == f.seenRecords;
    } else {
      forall i, j | 0 <= i < j < |g.recordIDs| && g.recordIDs[j] in ball ensures g.recordIDs[i] in ball {
        assert g.recordIDs[j] in f.recordIDs;
        var k :| 0 <= k < |f.recordIDs| && f.recordIDs[k] == g.recordIDs[j];
        assert g.recordIDs[k] == g.recordIDs[j];
        assert f.recordIDs[i] == g.recordIDs[i];
      }
    }
  }

  /** The balls of radius 0, 1, 2 and so on, from the layers. */
  ghost predicate AreBalls(q: Query, db: Reads, layers: seq<set<Id>>, balls: seq<set<Id>>) {
    && |balls| == |layers| + 1 && balls[0] == {q.anchor}
    && forall n :: 1 <= n < |balls| ==> balls[n] == {q.anchor} + NamedBy(q, db, layers[n - 1])
  }

  lemma BallsGrow(q: Query, db: Reads, layers: seq<set<Id>>, balls: seq<set<Id>>, m: nat, n: nat)
    requires AreLayers({q.anchor}, Hop(q, db), layers) && AreBalls(q, db, layers, balls) && m <= n < |balls|
    ensures balls[m] <= balls[n]
  {
    if 0 < m < n {
      LayersGrow({q.anchor}, Hop(q, db), layers, m - 1, n - 1);
    }
  }

  lemma {:induction false} LayersAreWithin(q: Query, db: Reads, layers: seq<set<Id>>, n: nat)
    requires AreLayers({q.anchor}, Hop(q, db), layers) && n < |layers|
    ensures layers[n] == Within(q, db, n)
  {
    if n > 0 {
      LayersAreWithin(q, db, layers, n - 1);
      assert layers[n - 1 + 1] == layers[n - 1] + HopsFrom(q, db, layers[n - 1]);
      WithinNext(q, db, n - 1);
    }
  }

  lemma BallsAre(q: Query, db: Reads, layers: seq<set<Id>>, balls: seq<set<Id>>, n: nat)
    requires AreLayers({q.anchor}, Hop(q, db), layers) && AreBalls(q, db, layers, balls) && n < |balls|
    ensures balls[n] == BallOf(q, db, n)
  {
    if n > 0 {
      LayersAreWithin(q, db, layers, n - 1);
    }
  }

  lemma WiderIsOk(q: Query, db: Reads, f: Found, ball: set<Id>, wider: set<Id>)
    requires Ok(q, db, f, ball) && ball <= wider
    ensures Ok(q, db, f, wider)
  {
  }

  /** The walk. Its records are distinct, the anchor first, at most limit + 1 of them, all of
      the ball, the nearest first; every connection and event returned comes from a record
      fewer than depth hops away and has all its records among them; and records were dropped
      exactly when the ball holds more than limit + 1. */
  method Walk(q: Query, db: Reads) returns (f: Found)
    requires q.depth >= 1
    ensures Ok(q, db, f, Ball(q, db)) && FromWithin(q, db, f, Within(q, db, q.depth - 1))
    ensures f.truncated <==> |Ball(q, db)| > q.limit + 1
    ensures !f.truncated ==> f.seenRecords == Ball(q, db)
    ensures Finished(q, db, f, Within(q, db, q.depth - 1))
    ensures forall n: nat :: n <= q.depth ==> Nearest(f, BallOf(q, db, n))
    ensures 1 <= |f.recordIDs| <= q.limit + 1 && f.recordIDs[0] == q.anchor
    ensures forall i, j :: 0 <= i < j < |f.recordIDs| ==> f.recordIDs[i] != f.recordIDs[j]
    ensures forall c :: c in f.connections ==> c.from in f.recordIDs && c.to in f.recordIDs
    ensures forall e :: e in f.events ==>
              && (forall p :: p in e.participants ==> p in f.recordIDs)
              && (e.location.Some? ==> e.location.value in f.recordIDs)
  {
    ghost var layers := Layers({q.anchor}, Hop(q, db), q.depth - 1);
    ghost var balls :=
      [{q.anchor}] + seq(q.depth, n requires 0 <= n < q.depth => {q.anchor} + NamedBy(q, db, layers[n]));
    f := WalkLevels(q, db, layers, balls);
    BallsAre(q, db, layers, balls, q.depth);
    FinishedHasTheBall(q, db, f, layers[q.depth - 1], balls[q.depth]);
    forall n: nat | n <= q.depth ensures Nearest(f, BallOf(q, db, n)) {
      BallsAre(q, db, layers, balls, n);
    }
  }

  method WalkLevels(q: Query, db: Reads, ghost layers: seq<set<Id>>, ghost balls: seq<set<Id>>)
    returns (f: Found)
    requires q.depth >= 1 && AreLayers({q.anchor}, Hop(q, db), layers) && |layers| == q.depth
    requires AreBalls(q, db, layers, balls)
    ensures Ok(q, db, f, balls[q.depth]) && FromWithin(q, db, f, layers[q.depth - 1])
    ensures Finished(q, db, f, layers[q.depth - 1])
    ensures forall n :: 0 <= n <= q.depth ==> Nearest(f, balls[n])
  {
    f := Found([q.anchor], {q.anchor}, false, [], {}, [], {}, map[q.anchor := q.anchorKind]);
    ghost var reach := layers[q.depth - 1];
    Begins(q, db, f, reach, balls[0]);
    var frontier := [q.anchor];
    var level := 1;
    while level <= q.depth && |frontier| > 0
      invariant 1 <= level <= q.depth + 1
      invariant Ok(q, db, f, balls[level - 1]) && FromWithin(q, db, f, reach) && BallsDone(f, balls, level)
      invariant level <= q.depth ==> AtLevel(q, db, f, layers[level - 1], frontier)
      invariant level > q.depth ==> Finished(q, db, f, reach)
      decreases q.depth + 1 - level
    {
      ghost var before := f;
      LevelBegins(q, db, f, layers, balls, level);
      f, frontier := OneLevel(q, db, f, level < q.depth, frontier, layers[level - 1], reach, balls[level]);
      LevelDone(q, before, f, balls, level);
      level := level + 1;
    }
    if level <= q.depth {
      assert frontier == [];
      NothingDeeper(q, db, f, layers, level - 1);
    }
    EndsNearest(q, db, f, layers, balls, level - 1);
  }

  ghost predicate BallsDone(f: Found, balls: seq<set<Id>>, level: nat)
    requires level <= |balls|
  {
    forall n :: 0 <= n < level ==> BallDone(f, balls[n])
  }

  lemma LevelBegins(q: Query, db: Reads, f: Found, layers: seq<set<Id>>, balls: seq<set<Id>>, level: nat)
    requires AreLayers({q.anchor}, Hop(q, db), layers) && AreBalls(q, db, layers, balls) && 1 <= level <= |layers|
    requires Ok(q, db, f, balls[level - 1])
    ensures Ok(q, db, f, balls[level]) && balls[level] == {q.anchor} + NamedBy(q, db, layers[level - 1])
    ensures layers[level - 1] <= layers[|layers| - 1]
    ensures level < |layers| ==> layers[level] == layers[level - 1] + Hop(q, db)(layers[level - 1])
  {
    LayersGrow({q.anchor}, Hop(q, db), layers, level - 1, |layers| - 1);
    BallsGrow(q, db, layers, balls, level - 1, level);
    WiderIsOk(q, db, f, balls[level - 1], balls[level]);
    if level < |layers| {
      NextLayer({q.anchor}, Hop(q, db), layers, level - 1);
    }
  }

  lemma NextLayer(start: set<Id>, hop: set<Id> -> set<Id>, layers: seq<set<Id>>, k: nat)
    requires AreLayers(start, hop, layers) && k + 1 < |layers|
    ensures layers[k + 1] == layers[k] + hop(layers[k])
  {
  }

  lemma LevelDone(q: Query, f: Found, g: Found, balls: seq<set<Id>>, level: nat)
    requires level < |balls| && RecordsOk(q, f) && RecordsOk(q, g) && Grows(f, g)
    requires level > 0 && CutShort(q, f, balls[level - 1]) && BallsDone(f, balls, level)
    requires g.seenRecords <= balls[level] && (g.truncated || balls[level] <= g.seenRecords)
    ensures BallsDone(g, balls, level + 1)
  {
    forall n | 0 <= n < level ensures BallDone(g, balls[n]) {
      BallStaysDone(q, f, g, balls[n]);
    }
    InsideIsNearest(q, g, balls[level]);
  }

  /** After the last level visited, every wider ball holds all that was found. */
  lemma EndsNearest(q: Query, db: Reads, f: Found, layers: seq<set<Id>>, balls: seq<set<Id>>, level: nat)
    requires AreLayers({q.anchor}, Hop(q, db), layers) && AreBalls(q, db, layers, balls) && level < |balls|
    requires Ok(q, db, f, balls[level]) && BallsDone(f, balls, level + 1)
    ensures Ok(q, db, f, balls[|layers|])
    ensures forall n :: 0 <= n < |balls| ==> Nearest(f, balls[n])
  {
    forall n | level <= n < |balls| ensures Nearest(f, balls[n]) {
      BallsGrow(q, db, layers, balls, level, n);
      InsideIsNearest(q, f, balls[n]);
    }
    BallsGrow(q, db, layers, balls, level, |layers|);
    WiderIsOk(q, db, f, balls[level], balls[|layers|]);
  }

  lemma Begins(q: Query, db: Reads, f: Found, reach: set<Id>, ball: set<Id>)
    requires f == Found([q.anchor], {q.anchor}, false, [], {}, [], {}, map[q.anchor := q.anchorKind])
              && ball == {q.anchor}
    ensures Ok(q, db, f, ball) && FromWithin(q, db, f, reach) && BallDone(f, ball)
    ensures AtLevel(q, db, f, {q.anchor}, [q.anchor])
  {
  }

  method OneLevel(q: Query, db: Reads, f: Found, deeper: bool, frontier: seq<Id>, ghost near: set<Id>,
                  ghost reach: set<Id>, ghost ball: set<Id>)
    returns (g: Found, next: seq<Id>)
    requires AtLevel(q, db, f, near, frontier) && near <= reach && (!deeper ==> near == reach)
    requires Ok(q, db, f, ball) && FromWithin(q, db, f, reach) && ball == {q.anchor} + NamedBy(q, db, near)
    ensures Ok(q, db, g, ball) && FromWithin(q, db, g, reach) && Grows(f, g)
    ensures g.truncated || ball <= g.seenRecords
    ensures if deeper then AtLevel(q, db, g, near + Hop(q, db)(near), next) else Finished(q, db, g, reach)
  {
    var queue;
    FrontierNamesBall(q, db, frontier, near);
    g, queue := VisitLevel(q, db, f, frontier, deeper, ball, reach);
    next := queue.items;
    LastLevel(q, db, f, g, near, frontier);
    if !g.truncated {
      SeesTheBall(q, db, g, near, ball);
    }
    if deeper {
      NextLevel(q, db, f, g, near, frontier, queue);
    }
  }

  lemma FrontierNamesBall(q: Query, db: Reads, frontier: seq<Id>, reach: set<Id>)
    requires forall s :: s in frontier ==> s in reach
    ensures forall s, x :: s in frontier && x != 0 && Names(q, db, s, x) ==> x in NamedBy(q, db, reach)
  {
    forall s, x | s in frontier && x != 0 && Names(q, db, s, x) ensures x in NamedBy(q, db, reach) {
      NamesIsMentioned(q, db, s, x);
    }
  }

  /** When nothing was dropped, every kept connection and event of the records fewer than
      depth hops away that names no unset identifier is among those returned, by its id. */
  lemma FinishedHasEveryItem(q: Query, db: Reads, f: Found, s: Id)
    requires q.depth >= 1 && !f.truncated && Finished(q, db, f, Within(q, db, q.depth - 1))
              && s in Within(q, db, q.depth - 1)
    requires ConnectionsOk(f) && EventsOk(f)
    ensures forall c :: c in db.connections(s) && KeptConnection(q, db, c) && c.from != 0 && c.to != 0 ==>
              exists d :: d in f.connections && d.id == c.id
    ensures forall e :: e in db.events(s) && KeptEvent(q, db, e) && 0 !in Records(e) ==>
              exists d :: d in f.events && d.id == e.id
  {
    assert RecordDone(q, db, f, s);
  }

  // ---- The filter, the hops and the ball, spelled out -----------------------------------------

  /** The kind asked for is the record's own: the anchor's as the request found it, any
      other's as the store has it. */
  ghost predicate OfKind(q: Query, db: Reads, x: Id) {
    if x == q.anchor then q.anchorKind == q.recordKind else db.kindOf(x) == Some(q.recordKind)
  }

  /** A connection passes when its kind is the one asked for, if one is, and either of its
      ends is of the record kind asked for, if one is. */
  lemma ConnectionFilterIs(q: Query, db: Reads, c: Connection)
    ensures KeptConnection(q, db, c) <==>
              && (q.kind == "" || c.kind == q.kind)
              && (q.recordKind == "" || OfKind(q, db, c.from) || OfKind(q, db, c.to))
  {
  }

  /** An event passes when any of its participants or its location is of the record kind
      asked for, if one is. */
  lemma EventFilterIs(q: Query, db: Reads, e: Event)
    ensures KeptEvent(q, db, e) <==>
              || q.recordKind == ""
              || (exists p :: p in e.participants && OfKind(q, db, p))
              || (e.location.Some? && OfKind(q, db, e.location.value))
  {
    RecordsAre(e);
    if p :| p in e.participants && OfKind(q, db, p) {
      assert p in Records(e) && Matches(q, db, p);
    }
    if e.location.Some? && OfKind(q, db, e.location.value) {
      assert e.location.value in Records(e) && Matches(q, db, e.location.value);
    }
  }

  lemma RecordsAre(e: Event)
    ensures forall x :: x in Records(e) <==> x in e.participants || (e.location.Some? && x == e.location.value)
  {
    var all := Records(e);
    forall x | x in e.participants || (e.location.Some? && x == e.location.value) ensures x in all {
      if x in e.participants {
        var k :| 0 <= k < |e.participants| && e.participants[k] == x;
        assert all[k] == x;
      } else {
        assert all[|e.participants|] == x;
      }
    }
  }

  /** One hop leads from s to either end of a connection of s that passes, and to every
      participant and the location of an event of s that passes; never by way of a connection
      or an event that names an unset identifier. */
  lemma HopIs(q: Query, db: Reads, s: Id, x: Id)
    ensures x in HopsFrom(q, db, {s}) <==>
              || (exists c :: c in db.connections(s) && KeptConnection(q, db, c)
                    && c.from != 0 && c.to != 0 && (x == c.from || x == c.to))
              || (exists e :: e in db.events(s) && KeptEvent(q, db, e)
                    && 0 !in e.participants && e.location != Some(0)
                    && (x in e.participants || e.location == Some(x)))
  {
    forall e ensures forall y :: y in Records(e) <==> y in e.participants || e.location == Some(y) {
      RecordsAre(e);
    }
    if Hops(q, db, s, x) {
      HopsIsNamed(q, db, s, x);
    }
    assert x in HopsFrom(q, db, {s}) <==> Hops(q, db, s, x);
  }

  /** With every identifier set, the records come nearest first, and a record is left out only
      when nothing farther away than it is returned. */
  lemma NearestFirst(q: Query, db: Reads, f: Found, n: nat)
    requires AllSet(db) && RecordsOk(q, f) && Nearest(f, BallOf(q, db, n))
    ensures forall i, j :: 0 <= i < j < |f.recordIDs| && f.recordIDs[j] in Within(q, db, n) ==>
              f.recordIDs[i] in Within(q, db, n)
    ensures (exists x :: x in Within(q, db, n) && x !in f.recordIDs) ==>
              forall r :: r in f.recordIDs ==> r in Within(q, db, n)
  {
    BallIsWithin(q, db, n);
  }

  /** Nothing was dropped: then both ends of each connection that passes, and each participant
      and the location of each event that passes, of a record fewer than depth hops away, are
      among the records returned, unset identifiers apart. */
  lemma UntruncatedHasEveryRecord(q: Query, db: Reads, f: Found, s: Id)
    requires q.depth >= 1 && s in Within(q, db, q.depth - 1)
    requires RecordsOk(q, f) && f.seenRecords == Ball(q, db)
    ensures forall c :: c in db.connections(s) && KeptConnection(q, db, c) ==>
              && (c.from != 0 ==> c.from in f.recordIDs)
              && (c.to != 0 ==> c.to in f.recordIDs)
    ensures forall e :: e in db.events(s) && KeptEvent(q, db, e) ==>
              && (forall p :: p in e.participants && p != 0 ==> p in f.recordIDs)
              && (e.location.Some? && e.location.value != 0 ==> e.location.value in f.recordIDs)
  {
    BallIsNamed(q, db, Within(q, db, q.depth - 1));
    NamedAreIn(q, db, f, Within(q, db, q.depth - 1), s);
    forall e | e in db.events(s) && KeptEvent(q, db, e)
      ensures forall p :: p in e.participants && p != 0 ==> p in f.recordIDs
      ensures e.location.Some? && e.location.value != 0 ==> e.location.value in f.recordIDs
    {
      EventNames(q, db, s, e);
    }
    forall c | c in db.connections(s) && KeptConnection(q, db, c)
      ensures (c.from != 0 ==> c.from in f.recordIDs) && (c.to != 0 ==> c.to in f.recordIDs)
    {
      assert Names(q, db, s, c.from) && Names(q, db, s, c.to);
    }
  }

  lemma BallIsNamed(q: Query, db: Reads, near: set<Id>)
    requires q.depth >= 1 && near == Within(q, db, q.depth - 1)
    ensures Ball(q, db) == {q.anchor} + NamedBy(q, db, near)
  {
  }

  lemma NamedAreIn(q: Query, db: Reads, f: Found, near: set<Id>, s: Id)
    requires s in near && RecordsOk(q, f) && f.seenRecords == {q.anchor} + NamedBy(q, db, near)
    ensures forall x :: x != 0 && Names(q, db, s, x) ==> x in f.recordIDs
  {
    forall x | x != 0 && Names(q, db, s, x) ensures x in f.recordIDs {
      NamedByOne(q, db, near, s, x);
    }
  }

  lemma NamedByOne(q: Query, db: Reads, near: set<Id>, s: Id, x: Id)
    requires s in near && x != 0 && Names(q, db, s, x)
    ensures x in NamedBy(q, db, near)
  {
    NamesIsMentioned(q, db, s, x);
  }

  lemma EventNames(q: Query, db: Reads, s: Id, e: Event)
    requires e in db.events(s) && KeptEvent(q, db, e)
    ensures forall x :: x in e.participants || (e.location.Some? && x == e.location.value) ==> Names(q, db, s, x)
  {
    RecordsAre(e);
  }
}
