/** pkg/clock/fake.go: a clock that moves only when told to, and the timers on it. */
module FakeClock {
  import opened Sorting

  datatype Waiter = Waiter(deadline: int, number: nat)

  datatype Clock = Clock(wall: int, elapsed: int, waiters: seq<Waiter>, next: nat)

  function ByDeadline(w: Waiter): Key {
    Key(w.deadline, w.number)
  }

  function DueOf(ws: seq<Waiter>, elapsed: int): seq<Waiter> {
    if ws == [] then []
    else DueOf(ws[..|ws| - 1], elapsed) + if ws[|ws| - 1].deadline <= elapsed then [ws[|ws| - 1]] else []
  }

  function RestOf(ws: seq<Waiter>, elapsed: int): seq<Waiter> {
    if ws == [] then []
    else RestOf(ws[..|ws| - 1], elapsed) + if ws[|ws| - 1].deadline <= elapsed then [] else [ws[|ws| - 1]]
  }

  // ---- One operation -----------------------------------------------------------------------

  datatype Op = Advance(d: nat) | Set(t: int) | After(delay: int) | Sleep(d: nat, cancelled: bool)

  /** The timers an advance fires, in the order it fires them. */
  function Batch(c: Clock, d: nat): seq<Waiter> {
    Sorted(DueOf(c.waiters, c.elapsed + d), ByDeadline)
  }

  function Advanced(c: Clock, d: nat): Clock {
    Clock(c.wall + d, c.elapsed + d, RestOf(c.waiters, c.elapsed + d), c.next)
  }

  predicate Advances(op: Op) {
    op.Advance? || (op.Sleep? && !op.cancelled)
  }

  function Do(c: Clock, op: Op): Clock {
    match op
    case Advance(d) => Advanced(c, d)
    case Set(t) => c.(wall := t)
    case After(delay) => c.(waiters := c.waiters + [Waiter(c.elapsed + delay, c.next)], next := c.next + 1)
    case Sleep(d, cancelled) => if cancelled then c else Advanced(c, d)
  }

  function Fires(c: Clock, op: Op): seq<Waiter> {
    if Advances(op) then Batch(c, op.d) else []
  }

  /** An advance moves both clocks by as much, and of the timers keeps those whose deadline has
      not come. */
  lemma AdvancedIs(c: Clock, d: nat)
    ensures var after := Do(c, Op.Advance(d));
            && after.wall == c.wall + d && after.elapsed == c.elapsed + d && after.next == c.next
            && forall w :: w in after.waiters <==> w in c.waiters && w.deadline > c.elapsed + d
  {
    DueAndRest(c.waiters, c.elapsed + d);
  }

  // ---- Runs ----------------------------------------------------------------------------------

  /** A timer that fired: at which operation, and the wall time its channel carries. */
  datatype Firing = Firing(waiter: Waiter, at: nat, wall: int)

  function NewFake(at: int): Clock {
    Clock(at, 0, [], 0)
  }

  function Run(start: int, ops: seq<Op>): Clock {
    if ops == [] then NewFake(start) else Do(Run(start, ops[..|ops| - 1]), ops[|ops| - 1])
  }

  function Stamp(ws: seq<Waiter>, at: nat, wall: int): seq<Firing> {
    seq(|ws|, i requires 0 <= i < |ws| => Firing(ws[i], at, wall))
  }

  function Log(start: int, ops: seq<Op>): seq<Firing> {
    if ops == [] then []
    else
      var n := |ops| - 1;
      Log(start, ops[..n]) + Stamp(Fires(Run(start, ops[..n]), ops[n]), n, Run(start, ops).wall)
  }

  ghost predicate Distinct(ws: seq<Waiter>) {
    forall i, j :: 0 <= i < j < |ws| ==> ws[i].number != ws[j].number
  }

  ghost predicate LogDistinct(log: seq<Firing>) {
    forall i, j :: 0 <= i < j < |log| ==> log[i].waiter.number != log[j].waiter.number
  }

  /** Timer numbers are used once, and a timer is pending or fired but not both. */
  ghost predicate NumbersOk(c: Clock, log: seq<Firing>) {
    && Distinct(c.waiters) && LogDistinct(log)
    && (forall w :: w in c.waiters ==> w.number < c.next)
    && (forall f :: f in log ==> f.waiter.number < c.next)
    && (forall w, f :: w in c.waiters && f in log ==> w.number != f.waiter.number)
  }

  lemma {:induction false} DueAndRest(ws: seq<Waiter>, elapsed: int)
    ensures forall w :: w in DueOf(ws, elapsed) <==> w in ws && w.deadline <= elapsed
    ensures forall w :: w in RestOf(ws, elapsed) <==> w in ws && w.deadline > elapsed
    ensures Distinct(ws) ==> Distinct(DueOf(ws, elapsed)) && Distinct(RestOf(ws, elapsed))
  {
    if ws == [] {
    } else {
      var n := |ws| - 1;
      assert ws == ws[..n] + [ws[n]];
      DueAndRest(ws[..n], elapsed);
      if Distinct(ws) {
        assert forall w :: w in ws[..n] ==> w.number != ws[n].number;
      }
    }
  }

  lemma {:induction false} DistinctByCount(ws: seq<Waiter>, vs: seq<Waiter>)
    requires multiset(ws) == multiset(vs) && Distinct(vs)
    ensures Distinct(ws)
  {
    forall i, j | 0 <= i < j < |ws| ensures ws[i].number != ws[j].number {
      assert ws[i] in multiset(vs) && ws[j] in multiset(vs);
      if ws[i].number == ws[j].number {
        assert ws[i] == ws[j];
        TwiceCounts(ws, i, j);
        OnceCounts(vs, ws[i]);
        assert false;
      }
    }
  }

  lemma TwiceCounts(ws: seq<Waiter>, i: nat, j: nat)
    requires i < j < |ws| && ws[i] == ws[j]
    ensures multiset(ws)[ws[i]] >= 2
  {
    assert ws == ws[..j] + [ws[j]] + ws[j + 1..];
    assert ws[i] in ws[..j];
  }

  lemma {:induction false} OnceCounts(vs: seq<Waiter>, v: Waiter)
    requires Distinct(vs)
    ensures multiset(vs)[v] <= 1
  {
    if vs == [] {
    } else {
      var n := |vs| - 1;
      assert vs == vs[..n] + [vs[n]];
      OnceCounts(vs[..n], v);
      if v == vs[n] {
        assert v !in vs[..n];
      }
    }
  }

  lemma SameElements(xs: seq<Waiter>, ys: seq<Waiter>)
    requires multiset(xs) == multiset(ys)
    ensures forall x :: x in xs <==> x in ys
  {
    forall x ensures x in xs <==> x in ys {
      assert x in xs <==> x in multiset(xs);
      assert x in ys <==> x in multiset(ys);
    }
  }

  lemma SortedMembers(ws: seq<Waiter>)
    ensures forall w :: w in Sorted(ws, ByDeadline) <==> w in ws
    ensures InOrder(Sorted(ws, ByDeadline), ByDeadline)
    ensures Distinct(ws) ==> Distinct(Sorted(ws, ByDeadline))
  {
    SortedIsOrdered(ws, ByDeadline);
    SameElements(Sorted(ws, ByDeadline), ws);
    if Distinct(ws) {
      DistinctByCount(Sorted(ws, ByDeadline), ws);
    }
  }

  lemma BatchMeans(c: Clock, d: nat)
    ensures forall w :: w in Batch(c, d) <==> w in c.waiters && w.deadline <= c.elapsed + d
    ensures InOrder(Batch(c, d), ByDeadline)
    ensures Distinct(c.waiters) ==> Distinct(Batch(c, d))
  {
    SortedDue(c.waiters, c.elapsed + d);
  }

  /** In order: an earlier deadline first, and of two equal deadlines the timer made first. */
  lemma BatchInOrder(c: Clock, d: nat, i: nat, j: nat)
    requires Distinct(c.waiters) && i < j < |Batch(c, d)|
    ensures var a, b := Batch(c, d)[i], Batch(c, d)[j];
            a.deadline < b.deadline || (a.deadline == b.deadline && a.number < b.number)
  {
    BatchMeans(c, d);
    OrderedPair(Batch(c, d), i, j);
  }

  lemma OrderedPair(ws: seq<Waiter>, i: nat, j: nat)
    requires i < j < |ws| && InOrder(ws, ByDeadline) && Distinct(ws)
    ensures ws[i].deadline < ws[j].deadline || (ws[i].deadline == ws[j].deadline && ws[i].number < ws[j].number)
  {
    assert !ByDeadline(ws[j]).Below(ByDeadline(ws[i]));
  }

  lemma SortedDue(ws: seq<Waiter>, e: int)
    ensures forall w :: w in Sorted(DueOf(ws, e), ByDeadline) <==> w in ws && w.deadline <= e
    ensures InOrder(Sorted(DueOf(ws, e), ByDeadline), ByDeadline)
    ensures Distinct(ws) ==> Distinct(Sorted(DueOf(ws, e), ByDeadline))
  {
    DueAndRest(ws, e);
    SortedFilter(ws, DueOf(ws, e), e);
  }

  lemma SortedFilter(ws: seq<Waiter>, due: seq<Waiter>, e: int)
    requires (forall w :: w in due <==> w in ws && w.deadline <= e) && (Distinct(ws) ==> Distinct(due))
    ensures forall w :: w in Sorted(due, ByDeadline) <==> w in ws && w.deadline <= e
    ensures InOrder(Sorted(due, ByDeadline), ByDeadline)
    ensures Distinct(ws) ==> Distinct(Sorted(due, ByDeadline))
  {
    SortedMembers(due);
  }

  lemma StampedMembers(ws: seq<Waiter>, at: nat, wall: int)
    ensures forall f :: f in Stamp(ws, at, wall) <==> f == Firing(f.waiter, at, wall) && f.waiter in ws
  {
    var fs := Stamp(ws, at, wall);
    forall f: Firing | f == Firing(f.waiter, at, wall) && f.waiter in ws ensures f in fs {
      var i :| 0 <= i < |ws| && ws[i] == f.waiter;
      assert fs[i] == f;
    }
  }

  lemma LogGrows(log: seq<Firing>, ws: seq<Waiter>, at: nat, wall: int)
    requires LogDistinct(log) && Distinct(ws) && forall w, f :: w in ws && f in log ==> w.number != f.waiter.number
    ensures LogDistinct(log + Stamp(ws, at, wall))
  {
    var more, fs := log + Stamp(ws, at, wall), Stamp(ws, at, wall);
    forall i, j | 0 <= i < j < |more| ensures more[i].waiter.number != more[j].waiter.number {
      if j >= |log| {
        assert more[j] == fs[j - |log|] && ws[j - |log|] in ws;
        if i < |log| {
          assert log[i] in log;
        } else {
          assert more[i] == fs[i - |log|];
        }
      }
    }
  }

  lemma AdvanceKeepsNumbers(c: Clock, log: seq<Firing>, d: nat, at: nat, wall: int)
    requires NumbersOk(c, log)
    ensures NumbersOk(Advanced(c, d), log + Stamp(Batch(c, d), at, wall))
  {
    BatchMeans(c, d);
    DueAndRest(c.waiters, c.elapsed + d);
    StampedMembers(Batch(c, d), at, wall);
    LogGrows(log, Batch(c, d), at, wall);
    forall w, f | w in RestOf(c.waiters, c.elapsed + d) && f in Stamp(Batch(c, d), at, wall)
      ensures w.number != f.waiter.number
    {
      DistinctMembers(c.waiters, w, f.waiter);
    }
  }

  lemma DistinctMembers(ws: seq<Waiter>, v: Waiter, w: Waiter)
    requires Distinct(ws) && v in ws && w in ws
    ensures v.number == w.number ==> v == w
  {
    var i :| 0 <= i < |ws| && ws[i] == v;
    var j :| 0 <= j < |ws| && ws[j] == w;
  }

  lemma OpKeepsNumbers(c: Clock, log: seq<Firing>, op: Op, at: nat, wall: int)
    requires NumbersOk(c, log)
    ensures NumbersOk(Do(c, op), log + Stamp(Fires(c, op), at, wall))
  {
    if Advances(op) {
      AdvanceKeepsNumbers(c, log, op.d, at, wall);
    } else {
      assert log + Stamp([], at, wall) == log;
    }
  }

  /** Over every run each timer fires at most once, and none that has fired is pending. */
  lemma {:induction false} FiresAtMostOnce(start: int, ops: seq<Op>)
    ensures NumbersOk(Run(start, ops), Log(start, ops))
  {
    if ops == [] {
    } else {
      var n := |ops| - 1;
      FiresAtMostOnce(start, ops[..n]);
      OpKeepsNumbers(Run(start, ops[..n]), Log(start, ops[..n]), ops[n], n, Run(start, ops).wall);
    }
  }

  // ---- When a timer fires --------------------------------------------------------------------

  /** The timer an After makes. */
  function MadeBy(start: int, ops: seq<Op>, i: nat): Waiter
    requires i < |ops| && ops[i].After?
  {
    var c := Run(start, ops[..i]);
    Waiter(c.elapsed + ops[i].delay, c.next)
  }

  /** Operation j is an advance that brings the monotonic reading to the deadline. */
  predicate Reaches(start: int, ops: seq<Op>, j: nat, deadline: int)
    requires j < |ops|
  {
    Advances(ops[j]) && Run(start, ops[..j + 1]).elapsed >= deadline
  }

  function WallAfter(start: int, ops: seq<Op>, j: nat): int
    requires j < |ops|
  {
    Run(start, ops[..j + 1]).wall
  }

  /** Operation j is the first after i to do so. */
  ghost predicate FirstReach(start: int, ops: seq<Op>, i: nat, j: nat, deadline: int) {
    i < j < |ops| && Reaches(start, ops, j, deadline) && forall k :: i < k < j ==> !Reaches(start, ops, k, deadline)
  }

  ghost predicate Unreached(start: int, ops: seq<Op>, i: nat, deadline: int) {
    forall k :: i < k < |ops| ==> !Reaches(start, ops, k, deadline)
  }

  /** How far the advances and the sleeps not cancelled move a clock. */
  function Moved(ops: seq<Op>): nat {
    if ops == [] then 0
    else
      var op := ops[|ops| - 1];
      Moved(ops[..|ops| - 1]) + if op.Advance? then op.d else if op.Sleep? && !op.cancelled then op.d else 0
  }

  lemma {:induction false} ElapsedIsMoved(start: int, ops: seq<Op>)
    ensures Run(start, ops).elapsed == Moved(ops)
  {
    if ops == [] {
    } else {
      ElapsedIsMoved(start, ops[..|ops| - 1]);
    }
  }

  /** The wall clock is the start, or what it was last set to, and what it has moved since. */
  lemma {:induction false} WallFromStart(start: int, ops: seq<Op>)
    requires forall k :: 0 <= k < |ops| ==> !ops[k].Set?
    ensures Run(start, ops).wall == start + Moved(ops)
  {
    if ops == [] {
    } else {
      WallFromStart(start, ops[..|ops| - 1]);
    }
  }

  lemma {:induction false} WallFromSet(start: int, ops: seq<Op>, s: nat)
    requires s < |ops| && ops[s].Set? && forall k :: s < k < |ops| ==> !ops[k].Set?
    ensures Run(start, ops).wall == ops[s].t + Moved(ops[s + 1..])
    decreases |ops|
  {
    var n := |ops| - 1;
    if s < n {
      var since := ops[s + 1..];
      assert since[..|since| - 1] == ops[..n][s + 1..] && since[|since| - 1] == ops[n];
      WallFromSet(start, ops[..n], s);
    }
  }

  /** So a timer that fires carries the start, or the last setting before, and the advances
      since, the one that fired it among them. */
  lemma FiredTimeIs(start: int, ops: seq<Op>, f: Firing)
    requires f in Log(start, ops)
    ensures f.at < |ops|
    ensures (forall k :: 0 <= k <= f.at ==> !ops[k].Set?) ==> f.wall == start + Moved(ops[..f.at + 1])
    ensures forall s :: 0 <= s <= f.at && ops[s].Set? && (forall k :: s < k <= f.at ==> !ops[k].Set?) ==>
              f.wall == ops[s].t + Moved(ops[s + 1..f.at + 1])
  {
    FiredWhen(start, ops, f);
    var upto := ops[..f.at + 1];
    assert forall k :: 0 <= k <= f.at ==> upto[k] == ops[k];
    if forall k :: 0 <= k <= f.at ==> !ops[k].Set? {
      WallFromStart(start, upto);
    }
    forall s | 0 <= s <= f.at && ops[s].Set? && (forall k :: s < k <= f.at ==> !ops[k].Set?)
      ensures f.wall == ops[s].t + Moved(ops[s + 1..f.at + 1])
    {
      WallFromSet(start, upto, s);
      assert upto[s + 1..] == ops[s + 1..f.at + 1];
    }
  }

  /** A timer's deadline is what the clock had moved when it was made and its delay; an
      operation reaches it if it is an advance, or a sleep not cancelled, that moves the clock
      that far. */
  lemma ReachingIs(start: int, ops: seq<Op>, i: nat, j: nat)
    requires i < |ops| && ops[i].After? && j < |ops|
    ensures MadeBy(start, ops, i).deadline == Moved(ops[..i]) + ops[i].delay
    ensures Reaches(start, ops, j, MadeBy(start, ops, i).deadline) <==>
              && (ops[j].Advance? || (ops[j].Sleep? && !ops[j].cancelled))
              && Moved(ops[..j + 1]) >= Moved(ops[..i]) + ops[i].delay
  {
    ElapsedIsMoved(start, ops[..i]);
    ElapsedIsMoved(start, ops[..j + 1]);
  }

  lemma {:induction false} FiredWhen(start: int, ops: seq<Op>, f: Firing)
    requires f in Log(start, ops)
    ensures f.at < |ops| && f.wall == Run(start, ops[..f.at + 1]).wall
  {
    if ops == [] {
    } else {
      var n := |ops| - 1;
      var front, fired := Log(start, ops[..n]), Stamp(Fires(Run(start, ops[..n]), ops[n]), n, Run(start, ops).wall);
      assert Log(start, ops) == front + fired;
      if f in front {
        FiredWhen(start, ops[..n], f);
        assert ops[..n][..f.at + 1] == ops[..f.at + 1];
      } else {
        StampedMembers(Fires(Run(start, ops[..n]), ops[n]), n, Run(start, ops).wall);
        assert ops[..n + 1] == ops;
      }
    }
  }

  ghost predicate PendingIn(c: Clock, log: seq<Firing>, w: Waiter) {
    w in c.waiters && forall f :: f in log ==> f.waiter.number != w.number
  }

  ghost predicate Pending(start: int, ops: seq<Op>, w: Waiter) {
    PendingIn(Run(start, ops), Log(start, ops), w)
  }

  lemma RunStep(start: int, ops: seq<Op>, n: nat)
    requires n < |ops|
    ensures Run(start, ops[..n + 1]) == Do(Run(start, ops[..n]), ops[n])
    ensures Log(start, ops[..n + 1]) == Log(start, ops[..n])
              + Stamp(Fires(Run(start, ops[..n]), ops[n]), n, Run(start, ops[..n + 1]).wall)
  {
    var upto := ops[..n + 1];
    assert upto[..n] == ops[..n] && upto[n] == ops[n];
  }

  lemma AfterMakes(c: Clock, log: seq<Firing>, delay: int, at: nat, wall: int)
    requires NumbersOk(c, log)
    ensures PendingIn(Do(c, Op.After(delay)), log + Stamp([], at, wall), Waiter(c.elapsed + delay, c.next))
  {
    assert log + Stamp([], at, wall) == log;
  }

  lemma JustMade(start: int, ops: seq<Op>, i: nat)
    requires i < |ops| && ops[i].After?
    ensures Pending(start, ops[..i + 1], MadeBy(start, ops, i))
  {
    RunStep(start, ops, i);
    FiresAtMostOnce(start, ops[..i]);
    AfterMakes(Run(start, ops[..i]), Log(start, ops[..i]), ops[i].delay, i, Run(start, ops[..i + 1]).wall);
  }

  /** A pending timer through one operation: fired if that is an advance that reaches its
      deadline, and pending still if not. */
  lemma OpOnPending(c: Clock, log: seq<Firing>, op: Op, w: Waiter, at: nat, wall: int)
    requires NumbersOk(c, log) && PendingIn(c, log, w)
    ensures var more := log + Stamp(Fires(c, op), at, wall);
            if Advances(op) && Do(c, op).elapsed >= w.deadline then Firing(w, at, wall) in more
            else PendingIn(Do(c, op), more, w)
  {
    var fs := Stamp(Fires(c, op), at, wall);
    StampedMembers(Fires(c, op), at, wall);
    if Advances(op) {
      BatchMeans(c, op.d);
      DueAndRest(c.waiters, c.elapsed + op.d);
      forall v | v in Batch(c, op.d) && v.number == w.number ensures v == w {
        DistinctMembers(c.waiters, v, w);
      }
      InConcat(log, fs, Firing(w, at, wall));
    } else {
      assert fs == [] && log + fs == log;
    }
  }

  lemma InConcat<T>(xs: seq<T>, ys: seq<T>, y: T)
    ensures y in ys ==> y in xs + ys
  {
    if y in ys {
      var i :| 0 <= i < |ys| && ys[i] == y;
      assert (xs + ys)[|xs| + i] == y;
    }
  }

  lemma OneMoreOp(start: int, ops: seq<Op>, n: nat, w: Waiter)
    requires n < |ops| && Pending(start, ops[..n], w)
    ensures Reaches(start, ops, n, w.deadline) ==>
              Firing(w, n, Run(start, ops[..n + 1]).wall) in Log(start, ops[..n + 1])
    ensures !Reaches(start, ops, n, w.deadline) ==> Pending(start, ops[..n + 1], w)
  {
    RunStep(start, ops, n);
    FiresAtMostOnce(start, ops[..n]);
    OpOnPending(Run(start, ops[..n]), Log(start, ops[..n]), ops[n], w, n, Run(start, ops[..n + 1]).wall);
  }

  lemma {:induction false} StillPending(start: int, ops: seq<Op>, i: nat, n: nat)
    requires i < n <= |ops| && ops[i].After?
    requires forall k :: i < k < n ==> !Reaches(start, ops, k, MadeBy(start, ops, i).deadline)
    ensures Pending(start, ops[..n], MadeBy(start, ops, i))
    decreases n
  {
    if n == i + 1 {
      JustMade(start, ops, i);
    } else {
      StillPending(start, ops, i, n - 1);
      OneMoreOp(start, ops, n - 1, MadeBy(start, ops, i));
    }
  }

  lemma {:induction false} LogKeeps(start: int, ops: seq<Op>, n: nat)
    requires n <= |ops|
    ensures Log(start, ops[..n]) <= Log(start, ops)
    decreases |ops| - n
  {
    if n < |ops| {
      LogKeeps(start, ops, n + 1);
      assert ops[..n + 1][..n] == ops[..n];
    } else {
      assert ops[..n] == ops;
    }
  }

  /** A timer made by an After fires if and only if a later advance brings the monotonic
      reading to its deadline; it fires at the first that does, never at a Set, and its
      channel carries the wall time of that moment. */
  lemma FiresAtFirstReach(start: int, ops: seq<Op>, i: nat, w: Waiter, log: seq<Firing>)
    requires i < |ops| && ops[i].After? && w == MadeBy(start, ops, i) && log == Log(start, ops)
    ensures Unreached(start, ops, i, w.deadline) <==> Pending(start, ops, w)
    ensures forall f :: f in log && f.waiter.number == w.number ==>
              f == Firing(w, f.at, f.wall) && FirstReach(start, ops, i, f.at, w.deadline)
              && f.wall == WallAfter(start, ops, f.at)
    ensures forall j :: FirstReach(start, ops, i, j, w.deadline) ==> Firing(w, j, WallAfter(start, ops, j)) in log
  {
    if Unreached(start, ops, i, w.deadline) {
      NeverReached(start, ops, i);
    } else {
      var k :| i < k < |ops| && Reaches(start, ops, k, w.deadline);
      var j := LeastReach(start, ops, i, k, w.deadline);
      FiredAt(start, ops, i, j, w, log);
      assert forall m :: FirstReach(start, ops, i, m, w.deadline) ==> m == j;
    }
  }

  lemma NeverReached(start: int, ops: seq<Op>, i: nat)
    requires i < |ops| && ops[i].After? && Unreached(start, ops, i, MadeBy(start, ops, i).deadline)
    ensures Pending(start, ops, MadeBy(start, ops, i))
  {
    StillPending(start, ops, i, |ops|);
    assert ops[..|ops|] == ops;
  }

  lemma {:induction false} LeastReach(start: int, ops: seq<Op>, i: nat, k: nat, deadline: int) returns (j: nat)
    requires i < k < |ops| && Reaches(start, ops, k, deadline)
    ensures FirstReach(start, ops, i, j, deadline)
    decreases k
  {
    if m :| i < m < k && Reaches(start, ops, m, deadline) {
      j := LeastReach(start, ops, i, m, deadline);
    } else {
      j := k;
    }
  }

  lemma FiredAt(start: int, ops: seq<Op>, i: nat, j: nat, w: Waiter, log: seq<Firing>)
    requires i < |ops| && ops[i].After? && w == MadeBy(start, ops, i) && log == Log(start, ops)
    requires FirstReach(start, ops, i, j, w.deadline)
    ensures Firing(w, j, WallAfter(start, ops, j)) in log
    ensures forall f :: f in log && f.waiter.number == w.number ==> f == Firing(w, j, WallAfter(start, ops, j))
    ensures !Pending(start, ops, w)
  {
    var f := Firing(w, j, WallAfter(start, ops, j));
    FiredBy(start, ops, i, j, w);
    LogKeeps(start, ops, j + 1);
    InPrefix(Log(start, ops[..j + 1]), log, f);
    FiresAtMostOnce(start, ops);
    OnlyOneInLog(log, f);
  }

  lemma FiredBy(start: int, ops: seq<Op>, i: nat, j: nat, w: Waiter)
    requires i < |ops| && ops[i].After? && w == MadeBy(start, ops, i)
    requires FirstReach(start, ops, i, j, w.deadline)
    ensures Firing(w, j, WallAfter(start, ops, j)) in Log(start, ops[..j + 1])
  {
    StillPending(start, ops, i, j);
    OneMoreOp(start, ops, j, w);
  }

  lemma InPrefix<T>(xs: seq<T>, ys: seq<T>, x: T)
    requires xs <= ys && x in xs
    ensures x in ys
  {
    var i :| 0 <= i < |xs| && xs[i] == x;
    assert ys[i] == x;
  }

  lemma OnlyOneInLog(log: seq<Firing>, f: Firing)
    requires LogDistinct(log) && f in log
    ensures forall g :: g in log && g.waiter.number == f.waiter.number ==> g == f
  {
    var i :| 0 <= i < |log| && log[i] == f;
    forall g | g in log && g.waiter.number == f.waiter.number ensures g == f {
      var j :| 0 <= j < |log| && log[j] == g;
    }
  }

  // ---- Order, and splitting an advance ---------------------------------------------------------

  lemma AppendOne(ws: seq<Waiter>, w: Waiter, e: int)
    ensures RestOf(ws + [w], e) == (if w.deadline <= e then RestOf(ws, e) else RestOf(ws, e) + [w])
    ensures DueOf(ws + [w], e) == (if w.deadline <= e then DueOf(ws, e) + [w] else DueOf(ws, e))
  {
    assert (ws + [w])[..|ws|] == ws;
  }

  /** Dropping what is due by e1 and then what is due by e2 is dropping what is due by e2,
      and what is dropped is the same. */
  lemma {:induction false} DropTwice(ws: seq<Waiter>, rest: seq<Waiter>, e1: int, e2: int,
                                     twice: seq<Waiter>, once: seq<Waiter>)
    requires e1 <= e2 && rest == RestOf(ws, e1) && twice == RestOf(rest, e2) && once == RestOf(ws, e2)
    ensures twice == once
    ensures multiset(DueOf(ws, e2)) == multiset(DueOf(ws, e1)) + multiset(DueOf(rest, e2))
  {
    if ws == [] {
    } else {
      var n := |ws| - 1;
      var front, w := ws[..n], ws[n];
      assert ws == front + [w];
      DropTwice(front, RestOf(front, e1), e1, e2, RestOf(RestOf(front, e1), e2), RestOf(front, e2));
      DropStep(front, w, e1, e2);
    }
  }

  lemma DropStep(front: seq<Waiter>, w: Waiter, e1: int, e2: int)
    requires e1 <= e2
    requires RestOf(RestOf(front, e1), e2) == RestOf(front, e2)
    requires multiset(DueOf(front, e2)) == multiset(DueOf(front, e1)) + multiset(DueOf(RestOf(front, e1), e2))
    ensures RestOf(RestOf(front + [w], e1), e2) == RestOf(front + [w], e2)
    ensures multiset(DueOf(front + [w], e2)) ==
              multiset(DueOf(front + [w], e1)) + multiset(DueOf(RestOf(front + [w], e1), e2))
  {
    AppendOne(front, w, e1);
    AppendOne(front, w, e2);
    if w.deadline > e1 {
      AppendOne(RestOf(front, e1), w, e2);
    }
  }

  lemma TwoBatchesInOrder(xs: seq<Waiter>, ys: seq<Waiter>, e: int)
    requires InOrder(xs, ByDeadline) && InOrder(ys, ByDeadline)
    requires (forall x :: x in xs ==> x.deadline <= e) && (forall y :: y in ys ==> y.deadline > e)
    ensures InOrder(xs + ys, ByDeadline)
  {
    var zs := xs + ys;
    forall i, j | 0 <= i < j < |zs| ensures !ByDeadline(zs[j]).Below(ByDeadline(zs[i])) {
      if i < |xs| <= j {
        assert zs[i] in xs && zs[j] in ys;
      }
    }
  }

  /** Advancing in two steps fires the same timers in the same order as in one, and leaves
      the clock the same. */
  lemma SplittingAnAdvance(c: Clock, d: nat, e: nat)
    requires Distinct(c.waiters)
    ensures Batch(c, d) + Batch(Advanced(c, d), e) == Batch(c, d + e)
    ensures Advanced(Advanced(c, d), e) == Advanced(c, d + e)
  {
    var mid := Advanced(c, d);
    SplitBatches(c, d, e, mid, Batch(c, d), Batch(mid, e), Batch(c, d + e));
    SplitClock(c, d, e, mid, Advanced(mid, e), Advanced(c, d + e));
  }

  lemma SplitClock(c: Clock, d: nat, e: nat, mid: Clock, stepped: Clock, straight: Clock)
    requires mid == Advanced(c, d) && stepped == Advanced(mid, e) && straight == Advanced(c, d + e)
    ensures stepped == straight
  {
    RestAgrees(c.waiters, mid.waiters, c.elapsed + d, c.elapsed + d + e, stepped.waiters, straight.waiters);
  }

  /** The half of DropTwice that says what stays, without the half about what goes. */
  lemma RestAgrees(ws: seq<Waiter>, rest: seq<Waiter>, e1: int, e2: int, twice: seq<Waiter>, once: seq<Waiter>)
    requires e1 <= e2 && rest == RestOf(ws, e1) && twice == RestOf(rest, e2) && once == RestOf(ws, e2)
    ensures twice == once
  {
    DropTwice(ws, rest, e1, e2, twice, once);
  }

  lemma SplitBatches(c: Clock, d: nat, e: nat, mid: Clock, first: seq<Waiter>, second: seq<Waiter>, both: seq<Waiter>)
    requires Distinct(c.waiters) && mid == Advanced(c, d)
    requires first == Batch(c, d) && second == Batch(mid, e) && both == Batch(c, d + e)
    ensures first + second == both
  {
    SplittingABatch(c.waiters, mid.waiters, c.elapsed + d, c.elapsed + d + e);
  }

  lemma SplittingABatch(ws: seq<Waiter>, rest: seq<Waiter>, e1: int, e2: int)
    requires Distinct(ws) && e1 <= e2 && rest == RestOf(ws, e1)
    ensures Sorted(DueOf(ws, e1), ByDeadline) + Sorted(DueOf(rest, e2), ByDeadline) == Sorted(DueOf(ws, e2), ByDeadline)
  {
    DropTwice(ws, rest, e1, e2, RestOf(rest, e2), RestOf(ws, e2));
    DueAndRest(ws, e1);
    DueAndRest(ws, e2);
    DueAndRest(rest, e2);
    SplitSorted(ws, DueOf(ws, e1), DueOf(rest, e2), DueOf(ws, e2), e1);
  }

  lemma SplitSorted(ws: seq<Waiter>, a: seq<Waiter>, b: seq<Waiter>, ab: seq<Waiter>, e: int)
    requires Distinct(ws) && (forall w :: w in ab ==> w in ws)
    requires multiset(ab) == multiset(a) + multiset(b)
    requires (forall w :: w in a ==> w.deadline <= e) && (forall w :: w in b ==> w.deadline > e)
    ensures Sorted(a, ByDeadline) + Sorted(b, ByDeadline) == Sorted(ab, ByDeadline)
  {
    SortedMembers(a);
    SortedMembers(b);
    SortedMembers(ab);
    SortedJoin(a, b, ab);
    JoinInOrder(ws, Sorted(a, ByDeadline), Sorted(b, ByDeadline), Sorted(ab, ByDeadline), e);
  }

  lemma JoinInOrder(ws: seq<Waiter>, xs: seq<Waiter>, ys: seq<Waiter>, zs: seq<Waiter>, e: int)
    requires Distinct(ws) && (forall w :: w in zs ==> w in ws) && multiset(zs) == multiset(xs + ys)
    requires InOrder(xs, ByDeadline) && InOrder(ys, ByDeadline) && InOrder(zs, ByDeadline)
    requires (forall w :: w in xs ==> w.deadline <= e) && (forall w :: w in ys ==> w.deadline > e)
    ensures xs + ys == zs
  {
    TwoBatchesInOrder(xs, ys, e);
    KeysTellApart(ws, zs);
    InOrderIsUnique(zs, xs + ys, ByDeadline);
  }

  lemma SortedJoin(a: seq<Waiter>, b: seq<Waiter>, ab: seq<Waiter>)
    requires multiset(ab) == multiset(a) + multiset(b)
    ensures multiset(Sorted(ab, ByDeadline)) == multiset(Sorted(a, ByDeadline) + Sorted(b, ByDeadline))
  {
    SortedIsOrdered(a, ByDeadline);
    SortedIsOrdered(b, ByDeadline);
    SortedIsOrdered(ab, ByDeadline);
  }

  lemma KeysTellApart(ws: seq<Waiter>, some: seq<Waiter>)
    requires Distinct(ws) && forall w :: w in some ==> w in ws
    ensures KeysDiffer(some, ByDeadline)
  {
  }

  lemma TakenApart(c: Clock, d: nat, ws: seq<Waiter>, e: int, due: seq<Waiter>, rest: seq<Waiter>)
    requires Distinct(ws) && due == Sorted(DueOf(ws, e), ByDeadline) && rest == RestOf(ws, e)
    requires ws == c.waiters && e == c.elapsed + d
    ensures due == Batch(c, d) && rest == Advanced(c, d).waiters
    ensures Distinct(due) && (forall w :: w in due ==> w in ws)
    ensures Distinct(rest) && (forall w :: w in rest ==> w in ws)
    ensures forall v, w :: v in rest && w in due ==> v.number != w.number
  {
    TakenMembers(ws, e, due, rest);
    PendingApart(ws, rest, due);
  }

  lemma TakenMembers(ws: seq<Waiter>, e: int, due: seq<Waiter>, rest: seq<Waiter>)
    requires Distinct(ws) && due == Sorted(DueOf(ws, e), ByDeadline) && rest == RestOf(ws, e)
    ensures Distinct(due) && Distinct(rest)
    ensures forall w :: w in due <==> w in ws && w.deadline <= e
    ensures forall w :: w in rest <==> w in ws && w.deadline > e
  {
    SortedDue(ws, e);
    DueAndRest(ws, e);
  }

  /** Timers with numbers already given out, each with its channel there and empty. */
  ghost predicate Ready(ws: seq<Waiter>, next: nat, channels: map<nat, seq<int>>) {
    && Distinct(ws)
    && (forall w :: w in ws ==> w.number < next && w.number in channels && channels[w.number] == [])
  }

  /** The fired timers' channels hold the time, and the others what they held. */
  ghost predicate Sent(before: map<nat, seq<int>>, after: map<nat, seq<int>>, due: seq<Waiter>, now: int) {
    && after.Keys == before.Keys
    && (forall w :: w in due ==> w.number in after && after[w.number] == [now])
    && (forall n :: n in before && (forall w :: w in due ==> w.number != n) ==> n in after && after[n] == before[n])
  }

  lemma StillReady(ws: seq<Waiter>, rest: seq<Waiter>, due: seq<Waiter>, next: nat,
                   before: map<nat, seq<int>>, after: map<nat, seq<int>>, now: int)
    requires Ready(ws, next, before) && Distinct(rest) && (forall w :: w in rest ==> w in ws)
    requires forall v, w :: v in rest && w in due ==> v.number != w.number
    requires Sent(before, after, due, now)
    ensures Ready(rest, next, after)
  {
  }

  lemma PendingApart(ws: seq<Waiter>, rest: seq<Waiter>, due: seq<Waiter>)
    requires Distinct(ws) && (forall w :: w in rest ==> w in ws) && (forall w :: w in due ==> w in ws)
    requires forall v, w :: v in rest && w in due ==> v.deadline > w.deadline
    ensures forall v, w :: v in rest && w in due ==> v.number != w.number
  {
    forall v, w | v in rest && w in due ensures v.number != w.number {
      DistinctMembers(ws, v, w);
    }
  }

  // ---- The fake itself ---------------------------------------------------------------------------

  class Fake {
    var wall: int
    var elapsed: int
    var waiters: seq<Waiter>
    var number: nat
    var channels: map<nat, seq<int>>  // what each timer's one-place channel holds

    ghost function View(): Clock
      reads this
    {
      Clock(wall, elapsed, waiters, number)
    }

    /** Every pending timer's channel is there and empty. */
    ghost predicate Valid()
      reads this
    {
      Ready(waiters, number, channels)
    }

    constructor (at: int)
      ensures Valid() && View() == NewFake(at)
      ensures wall == at && elapsed == 0 && waiters == [] && number == 0
    {
      wall, elapsed, waiters, number, channels := at, 0, [], 0, map[];
    }

    /** Every send finds its channel empty, so none of them blocks. */
    method Advance(d: nat) returns (now: int)
      requires Valid()
      modifies this
      ensures Valid() && View() == Do(old(View()), Op.Advance(d)) && now == wall
      ensures Sent(old(channels), channels, Batch(old(View()), d), now)
      ensures wall == old(wall) + d && elapsed == old(elapsed) + d && number == old(number)
    {
      ghost var c := View();
      wall := wall + d;
      elapsed := elapsed + d;
      var due := Take();
      now := wall;
      TakenApart(c, d, c.waiters, elapsed, due, waiters);
      ghost var before := channels;
      Send(due, now);
      StillReady(c.waiters, waiters, due, number, before, channels, now);
    }

    method Send(due: seq<Waiter>, now: int)
      requires Distinct(due) && forall w :: w in due ==> w.number in channels && channels[w.number] == []
      modifies this`channels
      ensures Sent(old(channels), channels, due, now)
    {
      for k := 0 to |due|
        invariant forall m :: 0 <= m < k ==> due[m].number in channels && channels[due[m].number] == [now]
        invariant forall m :: k <= m < |due| ==> due[m].number in channels && channels[due[m].number] == []
        invariant forall n :: n in old(channels) && (forall w :: w in due ==> w.number != n) ==>
                    n in channels && channels[n] == old(channels)[n]
        invariant channels.Keys == old(channels).Keys
      {
        var n := due[k].number;
        assert |channels[n]| < 1;  // room in the channel
        channels := channels[n := channels[n] + [now]];
      }
    }

    method Set(t: int)
      requires Valid()
      modifies this
      ensures Valid() && View() == Do(old(View()), Op.Set(t)) && channels == old(channels)
      ensures wall == t && elapsed == old(elapsed) && waiters == old(waiters) && number == old(number)
    {
      wall := t;
    }

    /** Sleeping is advancing, unless the context is already done. */
    method Sleep(d: nat, cancelled: bool) returns (err: bool)
      requires Valid()
      modifies this
      ensures Valid() && View() == Do(old(View()), Op.Sleep(d, cancelled)) && err == cancelled
      ensures Sent(old(channels), channels, Fires(old(View()), Op.Sleep(d, cancelled)), wall)
      ensures !cancelled ==> wall == old(wall) + d && elapsed == old(elapsed) + d
      ensures cancelled ==> wall == old(wall) && elapsed == old(elapsed) && waiters == old(waiters)
    {
      if cancelled {
        return true;
      }
      var now := Advance(d);
      err := false;
    }

    method After(delay: int) returns (channel: nat)
      requires Valid()
      modifies this
      ensures Valid() && View() == Do(old(View()), Op.After(delay))
      ensures channel == old(number) && channels == old(channels)[channel := []]
      ensures waiters == old(waiters) + [Waiter(old(elapsed) + delay, channel)] && number == channel + 1
      ensures wall == old(wall) && elapsed == old(elapsed)
    {
      var w := Waiter(elapsed + delay, number);
      channel := number;
      channels := channels[channel := []];
      number := number + 1;
      waiters := waiters + [w];
    }

    method Take() returns (due: seq<Waiter>)
      requires Distinct(waiters)
      modifies this`waiters
      ensures waiters == RestOf(old(waiters), elapsed)
      ensures due == Sorted(DueOf(old(waiters), elapsed), ByDeadline)
    {
      due := [];
      var rest := [];
      for k := 0 to |waiters|
        invariant due == DueOf(waiters[..k], elapsed) && rest == RestOf(waiters[..k], elapsed)
      {
        assert waiters[..k + 1][..k] == waiters[..k];
        if waiters[k].deadline <= elapsed {
          due := due + [waiters[k]];
        } else {
          rest := rest + [waiters[k]];
        }
      }
      assert waiters[..|waiters|] == waiters;
      ghost var found := due;
      DueAndRest(waiters, elapsed);
      due := SortSlice(due, ByDeadline);
      SortedIsOrdered(found, ByDeadline);
      SameElements(due, found);
      KeysTellApart(waiters, due);
      InOrderIsUnique(due, Sorted(found, ByDeadline), ByDeadline);
      waiters := rest;
    }
  }
}
