/** What the limiter promises over every sequence of calls with a clock that does not go
    back, against the limiter that never evicts. */
module LimitTheorems {
  import opened Collections
  import opened Limit
  import opened LimitEviction

  datatype Request = Allow(key: Key, now: Time) | Ask(key: Key, now: Time)

  /** One call as it happened: the request, and what an eviction left before it. */
  datatype Turn = Turn(request: Request, mid: Buckets, kept: Buckets)

  datatype Answer = Granted | Refused(wait: int) | Left(tokens: int)

  ghost function Answered(rule: Rule, kept: Buckets, r: Request): Answer {
    var have := View(rule, kept, r.key, r.now);
    if r.Ask? then Left(have)
    else if have >= rule.every then Granted
    else Refused(rule.every - have)
  }

  ghost function After(rule: Rule, kept: Buckets, r: Request): Buckets {
    if r.Ask? then Touched(rule, kept, r.key, r.now) else Reserved(rule, kept, r.key, r.now)
  }

  /** A sequence of calls the bounded limiter can go through from m, at clock readings
      that do not go back. */
  ghost predicate Happens(rule: Rule, maxKeys: nat, m: Buckets, at: Time, turns: seq<Turn>)
    decreases turns
  {
    turns == [] ||
    (var t := turns[0];
     && at <= t.request.now
     && MayLeave(rule, maxKeys, m, t.request.key, t.request.now, t.mid, t.kept)
     && Happens(rule, maxKeys, After(rule, t.kept, t.request), t.request.now, turns[1..]))
  }

  ghost function Ends(rule: Rule, m: Buckets, turns: seq<Turn>): Buckets
    decreases turns
  {
    if turns == [] then m else Ends(rule, After(rule, turns[0].kept, turns[0].request), turns[1..])
  }

  ghost function Answers(rule: Rule, turns: seq<Turn>): (answers: seq<Answer>)
    ensures |answers| == |turns|
    decreases turns
  {
    if turns == [] then [] else [Answered(rule, turns[0].kept, turns[0].request)] + Answers(rule, turns[1..])
  }

  ghost function LastAt(at: Time, turns: seq<Turn>): Time {
    if turns == [] then at else turns[|turns| - 1].request.now
  }

  ghost function Requests(turns: seq<Turn>): seq<Request> {
    seq(|turns|, i requires 0 <= i < |turns| => turns[i].request)
  }

  // The limiter that never evicts.

  ghost function FreeEnds(rule: Rule, m: Buckets, rs: seq<Request>): Buckets
    decreases rs
  {
    if rs == [] then m else FreeEnds(rule, After(rule, m, rs[0]), rs[1..])
  }

  ghost function FreeAnswers(rule: Rule, m: Buckets, rs: seq<Request>): (answers: seq<Answer>)
    ensures |answers| == |rs|
    decreases rs
  {
    if rs == [] then [] else [Answered(rule, m, rs[0])] + FreeAnswers(rule, After(rule, m, rs[0]), rs[1..])
  }

  ghost function GrantsTo(rs: seq<Request>, answers: seq<Answer>, key: Key): nat
    requires |rs| == |answers|
    decreases rs
  {
    if rs == [] then 0
    else (if rs[0].key == key && answers[0].Granted? then 1 else 0) + GrantsTo(rs[1..], answers[1..], key)
  }

  /** Buckets as calls leave them: never overdrawn, no fuller than full, and seen by now. */
  ghost predicate Sound(rule: Rule, m: Buckets, now: Time) {
    forall k :: k in m ==> 0 <= m[k].tokens <= Full(rule) && m[k].seen <= now
  }

  lemma SoundStays(rule: Rule, m: Buckets, at: Time, r: Request)
    requires Sound(rule, m, at) && at <= r.now
    ensures Sound(rule, After(rule, m, r), r.now)
  {
  }

  /** Time passing does to a key's view what it does to a bucket: adds, up to full. */
  lemma ViewLater(rule: Rule, m: Buckets, at: Time, key: Key, now: Time)
    requires Sound(rule, m, at) && at <= now
    ensures View(rule, m, key, at) <= View(rule, m, key, now) <= Full(rule)
    ensures View(rule, m, key, now) ==
            if View(rule, m, key, at) + (now - at) > Full(rule) then Full(rule) else View(rule, m, key, at) + (now - at)
  {
  }

  /** A call changes its own key's view by what it grants, and no other key's. */
  lemma ViewAfter(rule: Rule, m: Buckets, r: Request, key: Key, now: Time)
    requires Sound(rule, m, r.now) && r.now <= now
    ensures key != r.key ==> View(rule, After(rule, m, r), key, now) == View(rule, m, key, now)
    ensures View(rule, After(rule, m, r), r.key, r.now) ==
            View(rule, m, r.key, r.now) - if Answered(rule, m, r).Granted? then rule.every else 0
  {
  }

  // ---- Never worse than unbounded -----------------------------------------------

  /** What n grants cost, in units. */
  ghost function Cost(rule: Rule, n: nat): nat {
    if n == 0 then 0 else Cost(rule, n - 1) + rule.every
  }

  lemma {:induction false} CostIsProduct(rule: Rule, n: nat)
    ensures Cost(rule, n) == n * rule.every
  {
    if n > 0 {
      CostIsProduct(rule, n - 1);
    }
  }

  lemma {:induction false} CostGrows(rule: Rule, m: nat, n: nat)
    requires m <= n
    ensures Cost(rule, m) <= Cost(rule, n)
  {
    if m < n {
      CostGrows(rule, m, n - 1);
    }
  }

  /** The joint invariant: no fewer grants, and no fewer grants and tokens together. */
  ghost predicate NoWorse(rule: Rule, grants: nat, view: int, free: nat, freeView: int) {
    grants >= free && Cost(rule, grants) + view >= Cost(rule, free) + freeView
  }

  lemma NoWorseLater(rule: Rule, grants: nat, view: int, free: nat, freeView: int, elapsed: nat)
    requires NoWorse(rule, grants, view, free, freeView)
    requires view <= Full(rule) && freeView <= Full(rule)
    ensures NoWorse(rule, grants, if view + elapsed > Full(rule) then Full(rule) else view + elapsed,
                    free, if freeView + elapsed > Full(rule) then Full(rule) else freeView + elapsed)
  {
    CostGrows(rule, free, grants);
  }

  lemma NoWorseAllow(rule: Rule, grants: nat, view: int, free: nat, freeView: int)
    requires NoWorse(rule, grants, view, free, freeView)
    ensures NoWorse(rule,
                    grants + (if view >= rule.every then 1 else 0),
                        view - (if view >= rule.every then rule.every else 0),
                    free + (if freeView >= rule.every then 1 else 0),
                        freeView - (if freeView >= rule.every then rule.every else 0))
  {
    if view < rule.every <= freeView {
      assert grants != free;
    }
    assert Cost(rule, grants + 1) == Cost(rule, grants) + rule.every;
    assert Cost(rule, free + 1) == Cost(rule, free) + rule.every;
  }

  /** Evicting leaves every key with at least what it had. */
  lemma KeptHasMore(rule: Rule, m: Buckets, kept: Buckets, at: Time, key: Key, now: Time)
    requires Sound(rule, m, at) && at <= now && PartOf(kept, m)
    ensures Sound(rule, kept, at)
    ensures View(rule, m, key, now) <= View(rule, kept, key, now) <= Full(rule)
  {
    ViewLater(rule, m, at, key, now);
  }

  /** The time before a call, and the eviction in it. */
  lemma WaitKeepsNoWorse(rule: Rule, m: Buckets, kept: Buckets, f: Buckets, at: Time, now: Time, key: Key, g: nat,
                         gf: nat)
    requires at <= now && PartOf(kept, m) && Sound(rule, m, at) && Sound(rule, f, at)
    requires NoWorse(rule, g, View(rule, m, key, at), gf, View(rule, f, key, at))
    ensures NoWorse(rule, g, View(rule, kept, key, now), gf, View(rule, f, key, now))
  {
    KeptHasMore(rule, m, kept, at, key, now);
    ViewLater(rule, m, at, key, now);
    ViewLater(rule, f, at, key, now);
    NoWorseLater(rule, g, View(rule, m, key, at), gf, View(rule, f, key, at), now - at);
  }

  /** The call itself. */
  lemma CallKeepsNoWorse(rule: Rule, kept: Buckets, f: Buckets, r: Request, key: Key, g: nat, gf: nat)
    requires Sound(rule, kept, r.now) && Sound(rule, f, r.now)
    requires NoWorse(rule, g, View(rule, kept, key, r.now), gf, View(rule, f, key, r.now))
    ensures NoWorse(rule, g + OneIf(key == r.key && Answered(rule, kept, r).Granted?),
              View(rule, After(rule, kept, r), key, r.now),
                    gf + OneIf(key == r.key && Answered(rule, f, r).Granted?),
                        View(rule, After(rule, f, r), key, r.now))
  {
    ViewAfter(rule, kept, r, key, r.now);
    ViewAfter(rule, f, r, key, r.now);
    if key == r.key && r.Allow? {
      NoWorseAllow(rule, g, View(rule, kept, key, r.now), gf, View(rule, f, key, r.now));
    }
  }

  lemma TurnKeepsNoWorse(rule: Rule, m: Buckets, kept: Buckets, f: Buckets, at: Time, r: Request, key: Key, g: nat,
                         gf: nat)
    requires at <= r.now && PartOf(kept, m) && Sound(rule, m, at) && Sound(rule, f, at)
    requires NoWorse(rule, g, View(rule, m, key, at), gf, View(rule, f, key, at))
    ensures Sound(rule, After(rule, kept, r), r.now) && Sound(rule, After(rule, f, r), r.now)
    ensures NoWorse(rule, g + OneIf(key == r.key && Answered(rule, kept, r).Granted?),
              View(rule, After(rule, kept, r), key, r.now),
                    gf + OneIf(key == r.key && Answered(rule, f, r).Granted?),
                        View(rule, After(rule, f, r), key, r.now))
  {
    WaitKeepsNoWorse(rule, m, kept, f, at, r.now, key, g, gf);
    CallKeepsNoWorse(rule, kept, f, r, key, g, gf);
    SoundStays(rule, kept, at, r);
    SoundStays(rule, f, at, r);
  }

  lemma HeadOfRun(turns: seq<Turn>)
    requires turns != []
    ensures Requests(turns)[0] == turns[0].request && Requests(turns)[1..] == Requests(turns[1..])
  {
  }

  /** How the two limiters compare for a key once the calls are over, if the key had
      already had g and gf grants. */
  ghost predicate EndsNoWorse(rule: Rule, m: Buckets, f: Buckets, at: Time, turns: seq<Turn>, key: Key, g: nat,
                              gf: nat) {
    var rs, end := Requests(turns), LastAt(at, turns);
    NoWorse(rule, g + GrantsTo(rs, Answers(rule, turns), key), View(rule, Ends(rule, m, turns), key, end),
            gf + GrantsTo(rs, FreeAnswers(rule, f, rs), key), View(rule, FreeEnds(rule, f, rs), key, end))
  }

  ghost function OneIf(granted: bool): nat {
    if granted then 1 else 0
  }

  lemma EndsNoWorseStep(rule: Rule, m: Buckets, f: Buckets, at: Time, turns: seq<Turn>, key: Key, g: nat, gf: nat,
                        m2: Buckets, f2: Buckets, g2: nat, gf2: nat)
    requires turns != []
    requires var t, r := turns[0], turns[0].request;
             && m2 == After(rule, t.kept, r) && f2 == After(rule, f, r)
             && g2 == g + OneIf(key == r.key && Answered(rule, t.kept, r).Granted?)
             && gf2 == gf + OneIf(key == r.key && Answered(rule, f, r).Granted?)
    requires EndsNoWorse(rule, m2, f2, turns[0].request.now, turns[1..], key, g2, gf2)
    ensures EndsNoWorse(rule, m, f, at, turns, key, g, gf)
  {
    HeadOfRun(turns);
    HeadOfAnswers(rule, f, turns, key);
    assert LastAt(turns[0].request.now, turns[1..]) == LastAt(at, turns);
  }

  lemma {:induction false} NeverWorseFrom(rule: Rule, maxKeys: nat, m: Buckets, f: Buckets, at: Time, turns: seq<Turn>,
                                          key: Key, g: nat, gf: nat)
    requires Sound(rule, m, at) && Sound(rule, f, at) && Happens(rule, maxKeys, m, at, turns)
    requires NoWorse(rule, g, View(rule, m, key, at), gf, View(rule, f, key, at))
    ensures EndsNoWorse(rule, m, f, at, turns, key, g, gf)
    decreases turns
  {
    if turns == [] {
    } else {
      var t, r := turns[0], turns[0].request;
      var m2, f2 := After(rule, t.kept, r), After(rule, f, r);
      var g2 := g + OneIf(key == r.key && Answered(rule, t.kept, r).Granted?);
      var gf2 := gf + OneIf(key == r.key && Answered(rule, f, r).Granted?);
      FirstTurnNoWorse(rule, maxKeys, m, f, at, turns, key, g, gf, m2, f2, g2, gf2);
      NeverWorseFrom(rule, maxKeys, m2, f2, r.now, turns[1..], key, g2, gf2);
      EndsNoWorseStep(rule, m, f, at, turns, key, g, gf, m2, f2, g2, gf2);
    }
  }

  lemma FirstTurnNoWorse(rule: Rule, maxKeys: nat, m: Buckets, f: Buckets, at: Time, turns: seq<Turn>, key: Key,
                         g: nat, gf: nat, m2: Buckets, f2: Buckets, g2: nat, gf2: nat)
    requires turns != [] && Sound(rule, m, at) && Sound(rule, f, at) && Happens(rule, maxKeys, m, at, turns)
    requires NoWorse(rule, g, View(rule, m, key, at), gf, View(rule, f, key, at))
    requires var t, r := turns[0], turns[0].request;
             && m2 == After(rule, t.kept, r) && f2 == After(rule, f, r)
             && g2 == g + OneIf(key == r.key && Answered(rule, t.kept, r).Granted?)
             && gf2 == gf + OneIf(key == r.key && Answered(rule, f, r).Granted?)
    ensures var now := turns[0].request.now;
            && Sound(rule, m2, now) && Sound(rule, f2, now) && Happens(rule, maxKeys, m2, now, turns[1..])
            && NoWorse(rule, g2, View(rule, m2, key, now), gf2, View(rule, f2, key, now))
  {
    var t := turns[0];
    KeptIsPart(rule, maxKeys, m, t.request, t.mid, t.kept);
    TurnKeepsNoWorse(rule, m, t.kept, f, at, t.request, key, g, gf);
  }

  lemma HeadOfAnswers(rule: Rule, f: Buckets, turns: seq<Turn>, key: Key)
    requires turns != []
    ensures var t, r, rs := turns[0], turns[0].request, Requests(turns);
            && GrantsTo(rs, Answers(rule, turns), key) ==
                 (if key == r.key && Answered(rule, t.kept, r).Granted? then 1 else 0)
                 + GrantsTo(Requests(turns[1..]), Answers(rule, turns[1..]), key)
            && GrantsTo(rs, FreeAnswers(rule, f, rs), key) ==
                 (if key == r.key && Answered(rule, f, r).Granted? then 1 else 0)
                 + GrantsTo(Requests(turns[1..]), FreeAnswers(rule, After(rule, f, r), Requests(turns[1..])), key)
  {
    HeadOfRun(turns);
  }

  /** Bounding the map never costs a caller: on any sequence of calls, whatever is evicted
      and in whatever order the map yields its keys, every key has been granted at least as
      many requests as the limiter that never evicts would have granted it, and grants and
      tokens together are at least as many too. */
  lemma NeverWorseThanUnbounded(rule: Rule, maxKeys: nat, at: Time, turns: seq<Turn>, key: Key)
    requires Happens(rule, maxKeys, map[], at, turns)
    ensures var rs, end := Requests(turns), LastAt(at, turns);
            var grants := GrantsTo(rs, Answers(rule, turns), key);
            var free := GrantsTo(rs, FreeAnswers(rule, map[], rs), key);
            && grants >= free
            && grants * rule.every + View(rule, Ends(rule, map[], turns), key, end)
                 >= free * rule.every + View(rule, FreeEnds(rule, map[], rs), key, end)
  {
    NeverWorseFrom(rule, maxKeys, map[], map[], at, turns, key, 0, 0);
    var rs := Requests(turns);
    CostIsProduct(rule, GrantsTo(rs, Answers(rule, turns), key));
    CostIsProduct(rule, GrantsTo(rs, FreeAnswers(rule, map[], rs), key));
    assert EndsNoWorse(rule, map[], map[], at, turns, key, 0, 0);
  }

  // ---- Dropping full buckets is unobservable --------------------------------------

  /** Only the first phase of eviction drops anything. */
  ghost predicate OnlyFullDropped(turns: seq<Turn>) {
    forall i :: 0 <= i < |turns| ==> turns[i].kept == turns[i].mid
  }

  ghost predicate LooksLike(rule: Rule, m: Buckets, f: Buckets, from: Time) {
    forall k, now :: from <= now ==> View(rule, m, k, now) == View(rule, f, k, now)
  }

  lemma DroppingFullLooksSame(rule: Rule, m: Buckets, mid: Buckets, target: nat, at: Time, now: Time)
    requires Sound(rule, m, at) && at <= now
    requires mid == m || DropsFull(rule, m, now, target, mid)
    ensures Sound(rule, mid, at) && LooksLike(rule, mid, m, now)
  {
  }

  lemma SameAfter(rule: Rule, m: Buckets, f: Buckets, r: Request)
    requires Sound(rule, m, r.now) && Sound(rule, f, r.now) && LooksLike(rule, m, f, r.now)
    ensures Answered(rule, m, r) == Answered(rule, f, r)
    ensures LooksLike(rule, After(rule, m, r), After(rule, f, r), r.now)
  {
    forall k, now | r.now <= now ensures View(rule, After(rule, m, r), k, now) ==
        View(rule, After(rule, f, r), k, now) {
      assert View(rule, m, k, now) == View(rule, f, k, now);
      assert View(rule, m, k, r.now) == View(rule, f, k, r.now);
    }
  }

  lemma {:induction false} UnobservableFrom(rule: Rule, maxKeys: nat, m: Buckets, f: Buckets, at: Time,
                                            turns: seq<Turn>)
    requires Sound(rule, m, at) && Sound(rule, f, at) && LooksLike(rule, m, f, at)
    requires Happens(rule, maxKeys, m, at, turns) && OnlyFullDropped(turns)
    ensures Answers(rule, turns) == FreeAnswers(rule, f, Requests(turns))
    decreases turns
  {
    if turns == [] {
    } else {
      var t, r := turns[0], turns[0].request;
      HeadOfRun(turns);
      DroppingFullLooksSame(rule, m, t.kept, maxKeys / 2, at, r.now);
      assert LooksLike(rule, t.kept, f, r.now);
      SameAfter(rule, t.kept, f, r);
      SoundStays(rule, t.kept, at, r);
      SoundStays(rule, f, at, r);
      assert OnlyFullDropped(turns[1..]) by {
        assert forall i :: 0 <= i < |turns[1..]| ==> turns[1..][i] == turns[i + 1];
      }
      UnobservableFrom(rule, maxKeys, After(rule, t.kept, r), After(rule, f, r), r.now, turns[1..]);
    }
  }

  /** While evictions get by on full buckets, every answer is the one the limiter that
      never evicts would give. */
  lemma DroppingFullIsUnobservable(rule: Rule, maxKeys: nat, at: Time, turns: seq<Turn>)
    requires Happens(rule, maxKeys, map[], at, turns) && OnlyFullDropped(turns)
    ensures Answers(rule, turns) == FreeAnswers(rule, map[], Requests(turns))
  {
    UnobservableFrom(rule, maxKeys, map[], map[], at, turns);
  }

  ghost function FullKeys(rule: Rule, m: Buckets, now: Time): set<Key> {
    set k | k in m && FullAt(rule, m[k], now)
  }

  /** Whether asking for a key's tokens can be told from not asking: it makes no room, or
      there are full buckets enough to make it of. */
  ghost predicate HarmlessToAsk(rule: Rule, maxKeys: nat, m: Buckets, key: Key, now: Time) {
    key in m || |m| < maxKeys || |FullKeys(rule, m, now)| + maxKeys / 2 >= |m|
  }

  /** An eviction drops only full buckets exactly when there are enough of them. */
  lemma OnlyFullIsEnough(rule: Rule, m: Buckets, now: Time, target: nat, mid: Buckets, kept: Buckets)
    requires |m| >= target && DropsFull(rule, m, now, target, mid) && DropsOldest(mid, target, kept)
    ensures m.Keys - kept.Keys <= FullKeys(rule, m, now) <==> |FullKeys(rule, m, now)| + target >= |m|
    ensures |FullKeys(rule, m, now)| + target >= |m| ==> kept == mid
  {
    Gone(m, kept);
    if m.Keys - kept.Keys <= FullKeys(rule, m, now) {
      SubsetSize(m.Keys - kept.Keys, FullKeys(rule, m, now));
    }
    if |mid| > target {
      NoneFullLeft(rule, m, now, target, mid);
    }
  }

  lemma NoneFullLeft(rule: Rule, m: Buckets, now: Time, target: nat, mid: Buckets)
    requires DropsFull(rule, m, now, target, mid) && |mid| > target
    ensures |FullKeys(rule, m, now)| + |mid| == |m|
  {
    Gone(m, mid);
    assert m.Keys - mid.Keys == FullKeys(rule, m, now);
  }

  lemma Gone(m: Buckets, part: Buckets)
    requires PartOf(part, m)
    ensures part.Keys <= m.Keys && |m.Keys - part.Keys| == |m| - |part|
  {
    assert part.Keys <= m.Keys;
    assert |m.Keys| == |m| && |part.Keys| == |part|;
    assert m.Keys == (m.Keys - part.Keys) + part.Keys;
  }

  lemma LooksSameIfFull(rule: Rule, m: Buckets, kept: Buckets, at: Time, now: Time)
    requires Sound(rule, m, at) && at <= now && PartOf(kept, m)
    ensures LooksLike(rule, kept, m, now) <==> m.Keys - kept.Keys <= FullKeys(rule, m, now)
  {
    if LooksLike(rule, kept, m, now) {
      forall k | k in m.Keys - kept.Keys ensures k in FullKeys(rule, m, now) {
        assert View(rule, kept, k, now) == View(rule, m, k, now);
      }
    }
    if m.Keys - kept.Keys <= FullKeys(rule, m, now) {
      forall k, t | now <= t ensures View(rule, kept, k, t) == View(rule, m, k, t) {
        if k in m && k !in kept {
          assert k in FullKeys(rule, m, now);
        }
      }
    }
  }

  /** Asking for a key's tokens leaves every key, at every later moment, with what it would
      have had, if and only if the key has a bucket, the map is not full, or as many buckets
      are full as are over half the bound. */
  lemma AskingIsHarmlessExactly(rule: Rule, maxKeys: nat, m: Buckets, at: Time, r: Request, mid: Buckets, kept: Buckets)
    requires Sound(rule, m, at) && at <= r.now && r.Ask?
    requires MayLeave(rule, maxKeys, m, r.key, r.now, mid, kept)
    ensures LooksLike(rule, After(rule, kept, r), m, r.now) <==> HarmlessToAsk(rule, maxKeys, m, r.key, r.now)
  {
    KeptIsPart(rule, maxKeys, m, r, mid, kept);
    AskLooksSame(rule, kept, r);
    SameLooks(rule, After(rule, kept, r), kept, m, r.now);
    if !(r.key in m || |m| < maxKeys) {
      LooksSameIfFull(rule, m, kept, at, r.now);
      OnlyFullIsEnough(rule, m, r.now, maxKeys / 2, mid, kept);
    }
  }

  lemma KeptIsPart(rule: Rule, maxKeys: nat, m: Buckets, r: Request, mid: Buckets, kept: Buckets)
    requires MayLeave(rule, maxKeys, m, r.key, r.now, mid, kept)
    ensures PartOf(kept, m)
  {
  }

  lemma SameLooks(rule: Rule, a: Buckets, b: Buckets, m: Buckets, now: Time)
    requires LooksLike(rule, a, b, now)
    ensures LooksLike(rule, a, m, now) <==> LooksLike(rule, b, m, now)
  {
    forall k, t | now <= t ensures View(rule, a, k, t) == View(rule, b, k, t) {
    }
  }

  /** Then, while evictions get by on full buckets, it changes no later answer. */
  lemma AskingChangesNothing(rule: Rule, maxKeys: nat, m: Buckets, at: Time, ask: Turn, asked: seq<Turn>,
                             plain: seq<Turn>)
    requires Sound(rule, m, at) && ask.request.Ask? && Happens(rule, maxKeys, m, at, [ask] + asked)
    requires Happens(rule, maxKeys, m, ask.request.now, plain) && Requests(asked) == Requests(plain)
    requires HarmlessToAsk(rule, maxKeys, m, ask.request.key, ask.request.now)
    requires OnlyFullDropped(asked) && OnlyFullDropped(plain)
    ensures Answers(rule, asked) == Answers(rule, plain)
  {
    var r := ask.request;
    assert ([ask] + asked)[1..] == asked && ([ask] + asked)[0] == ask;
    UnobservableFrom(rule, maxKeys, m, m, r.now, plain);
    AskingIsHarmlessExactly(rule, maxKeys, m, at, r, ask.mid, ask.kept);
    KeptIsPart(rule, maxKeys, m, r, ask.mid, ask.kept);
    SoundStays(rule, ask.kept, at, r);
    UnobservableFrom(rule, maxKeys, After(rule, ask.kept, r), m, r.now, asked);
  }

  lemma AskLooksSame(rule: Rule, m: Buckets, r: Request)
    requires r.Ask? && Sound(rule, m, r.now)
    ensures LooksLike(rule, After(rule, m, r), m, r.now)
  {
  }

  /** Outside it asking can cost: in a map of one key, asking about another key drops a
      spent bucket, and the request that would have been refused is granted. */
  lemma AskingCanEvict()
    ensures var rule := Rule(1, 1_000_000_000);
            var spent, other: Buckets := map["a" := Bucket(0, 0)], map["b" := Bucket(1_000_000_000, 0)];
            var allow, ask := Request.Allow("a", 0), Ask("b", 0);
            var asked := [Turn(allow, map[], map[]), Turn(ask, spent, map[]), Turn(allow, map[], map[])];
            var plain := [Turn(allow, map[], map[]), Turn(allow, spent, spent)];
            && Happens(rule, 1, map[], 0, asked) && Happens(rule, 1, map[], 0, plain)
            && Answers(rule, asked)[2] == Granted && Answers(rule, plain)[1] == Refused(1_000_000_000)
  {
    var rule := Rule(1, 1_000_000_000);
    var spent: Buckets := map["a" := Bucket(0, 0)];
    var allow, ask := Request.Allow("a", 0), Ask("b", 0);
    var none: Buckets := map[];
    assert After(rule, none, allow) == spent;
    var t0, t1, t2, u1 := Turn(allow, none, none), Turn(ask, spent, none), Turn(allow, none, none),
        Turn(allow, spent, spent);
    assert [t0, t1, t2][1..] == [t1, t2] && [t0, u1][1..] == [u1] && [u1][1..] == [];
    AfterAsking(rule, spent, t1, t2);
    assert Happens(rule, 1, spent, 0, [u1]);
  }

  lemma AfterAsking(rule: Rule, spent: Buckets, t1: Turn, t2: Turn)
    requires rule == Rule(1, 1_000_000_000) && spent == map["a" := Bucket(0, 0)]
    requires t1 == Turn(Ask("b", 0), spent, map[]) && t2 == Turn(Request.Allow("a", 0), map[], map[])
    ensures Happens(rule, 1, spent, 0, [t1, t2])
    ensures Answers(rule, [t1, t2]) == [Left(1_000_000_000), Granted]
  {
    var other: Buckets := map["b" := Bucket(1_000_000_000, 0)];
    assert After(rule, map[], t1.request) == other;
    SpentIsDropped(rule, "a", Bucket(0, 0), "b");
    SpentIsDropped(rule, "b", Bucket(1_000_000_000, 0), "a");
    assert [t1, t2][1..] == [t2] && [t2][1..] == [];
    assert Happens(rule, 1, other, 0, [t2]);
  }

  lemma SpentIsDropped(rule: Rule, key: Key, b: Bucket, asked: Key)
    requires rule == Rule(1, 1_000_000_000) && asked != key && b.seen == 0
    ensures FullAt(rule, b, 0) ==> MayLeave(rule, 1, map[key := b], asked, 0, map[], map[])
    ensures !FullAt(rule, b, 0) ==> MayLeave(rule, 1, map[key := b], asked, 0, map[key := b], map[])
  {
    var m: Buckets := map[key := b];
    assert |m| == 1;
    SweepOfOne(key, b);
  }

  // ---- The map stays bounded --------------------------------------------------------

  lemma {:induction false} MapStaysBounded(rule: Rule, maxKeys: nat, m: Buckets, at: Time, turns: seq<Turn>)
    requires maxKeys > 0 && |m| <= maxKeys && Happens(rule, maxKeys, m, at, turns)
    ensures |Ends(rule, m, turns)| <= maxKeys
    decreases turns
  {
    if turns == [] {
    } else {
      MapStaysBounded(rule, maxKeys, After(rule, turns[0].kept, turns[0].request), turns[0].request.now, turns[1..]);
    }
  }

  // ---- The rate, and the wait --------------------------------------------------------

  ghost predicate NeverDroppedAsOldest(key: Key, turns: seq<Turn>) {
    forall i :: 0 <= i < |turns| ==> key in turns[i].mid ==> key in turns[i].kept
  }

  lemma {:induction false} SpendingIsPaidFor(rule: Rule, maxKeys: nat, m: Buckets, at: Time, turns: seq<Turn>, key: Key)
    requires Sound(rule, m, at) && Happens(rule, maxKeys, m, at, turns) && NeverDroppedAsOldest(key, turns)
    ensures Cost(rule, GrantsTo(Requests(turns), Answers(rule, turns), key)) <= View(rule, m, key, at)
              + (LastAt(at, turns) - at)
    ensures LastAt(at, turns) >= at
    decreases turns
  {
    KeyView(rule, m, at, key);
    if turns == [] {
    } else {
      SpendTurn(rule, maxKeys, m, at, turns[0], key);
      var kept, r, rest := turns[0].kept, turns[0].request, turns[1..];
      NeverDroppedLater(key, turns, rest);
      SpendingIsPaidFor(rule, maxKeys, After(rule, kept, r), r.now, rest, key);
      HeadOfAnswers(rule, m, turns, key);
      CostOfOneMore(rule, GrantsTo(Requests(turns), Answers(rule, turns), key),
                    GrantsTo(Requests(rest), Answers(rule, rest), key),
                    key == r.key && Answered(rule, kept, r).Granted?);
      assert LastAt(r.now, rest) == LastAt(at, turns);
    }
  }

  lemma NeverDroppedLater(key: Key, turns: seq<Turn>, rest: seq<Turn>)
    requires turns != [] && rest == turns[1..] && NeverDroppedAsOldest(key, turns)
    ensures NeverDroppedAsOldest(key, rest)
  {
    assert forall i :: 0 <= i < |rest| ==> rest[i] == turns[i + 1];
  }

  lemma CostOfOneMore(rule: Rule, all: nat, rest: nat, granted: bool)
    requires all == (if granted then 1 else 0) + rest
    ensures Cost(rule, all) == Cost(rule, rest) + if granted then rule.every else 0
  {
  }

  lemma KeyView(rule: Rule, m: Buckets, at: Time, key: Key)
    requires Sound(rule, m, at)
    ensures 0 <= View(rule, m, key, at) <= Full(rule)
  {
  }

  lemma SpendTurn(rule: Rule, maxKeys: nat, m: Buckets, at: Time, t: Turn, key: Key)
    requires Sound(rule, m, at) && at <= t.request.now
    requires MayLeave(rule, maxKeys, m, t.request.key, t.request.now, t.mid, t.kept)
    requires key in t.mid ==> key in t.kept
    ensures Sound(rule, After(rule, t.kept, t.request), t.request.now)
    ensures View(rule, After(rule, t.kept, t.request), key, t.request.now)
              + (if key == t.request.key && Answered(rule, t.kept, t.request).Granted? then rule.every else 0)
            <= View(rule, m, key, at) + (t.request.now - at)
  {
    var r := t.request;
    KeptHasMore(rule, m, t.kept, at, key, r.now);
    SoundStays(rule, t.kept, at, r);
    ViewLater(rule, m, at, key, r.now);
    ViewAfter(rule, t.kept, r, key, r.now);
    assert View(rule, t.kept, key, r.now) == View(rule, m, key, r.now);
  }

  /** From any moment on, a key that the second phase never drops gets at most a burst and
      one grant more for each interval that goes by. */
  lemma RateIsBounded(rule: Rule, maxKeys: nat, m: Buckets, from: Time, turns: seq<Turn>, key: Key, until: Time)
    requires Works(rule) && Sound(rule, m, from) && Happens(rule, maxKeys, m, from, turns)
    requires NeverDroppedAsOldest(key, turns) && LastAt(from, turns) <= until
    ensures from <= until
    ensures GrantsTo(Requests(turns), Answers(rule, turns), key) <= rule.burst + (until - from) / rule.every
  {
    SpendingIsPaidFor(rule, maxKeys, m, from, turns, key);
    KeyView(rule, m, from, key);
    var n := GrantsTo(Requests(turns), Answers(rule, turns), key);
    CostIsProduct(rule, n);
    Intervals(n, rule.burst, rule.every, until - from);
  }

  /** A key with no bucket has its whole burst: asked again and again at one instant it is
      granted exactly that many times, and then told to wait one interval. */
  lemma FreshKeyHasItsBurst(rule: Rule, maxKeys: nat, m: Buckets, key: Key, now: Time, turns: seq<Turn>)
    requires Works(rule) && key !in m && Happens(rule, maxKeys, m, now, turns)
    requires forall i :: 0 <= i < |turns| ==> turns[i].request == Request.Allow(key, now)
    ensures forall i :: 0 <= i < |turns| ==>
              Answers(rule, turns)[i] == if i < rule.burst then Granted else Refused(rule.every)
  {
    if turns != [] {
      var t, rest := turns[0], turns[1..];
      KeptIsPart(rule, maxKeys, m, t.request, t.mid, t.kept);
      Spends(rule, rule.burst);
      SpentDown(rule, maxKeys, After(rule, t.kept, t.request), key, now, rule.burst - 1, rest);
    }
  }

  lemma Spends(rule: Rule, n: nat)
    requires n > 0
    ensures n * rule.every - rule.every == (n - 1) * rule.every >= 0
  {
  }

  lemma {:induction false} SpentDown(rule: Rule, maxKeys: nat, m: Buckets, key: Key, now: Time, left: nat,
                                     turns: seq<Turn>)
    requires Works(rule) && key in m && m[key] == Bucket(left * rule.every, now)
    requires Happens(rule, maxKeys, m, now, turns)
    requires forall i :: 0 <= i < |turns| ==> turns[i].request == Request.Allow(key, now)
    ensures forall i :: 0 <= i < |turns| ==>
              Answers(rule, turns)[i] == if i < left then Granted else Refused(rule.every)
    decreases turns
  {
    if turns == [] {
    } else {
      var rest := turns[1..];
      if left > 0 {
        Spends(rule, left);
        SpentDown(rule, maxKeys, After(rule, m, turns[0].request), key, now, left - 1, rest);
      } else {
        SpentDown(rule, maxKeys, After(rule, m, turns[0].request), key, now, 0, rest);
      }
    }
  }

  /** A bucket left alone for as long as the burst takes to come back has all of it. */
  lemma LeftAloneIsFull(rule: Rule, m: Buckets, key: Key, at: Time, later: Time)
    requires Sound(rule, m, at) && key in m && later >= m[key].seen + rule.burst * rule.every
    ensures Answered(rule, m, Ask(key, later)) == Left(rule.burst * rule.every)
  {
  }

  /** What calls leave of a sound map is sound. */
  lemma {:induction false} StaysSound(rule: Rule, maxKeys: nat, m: Buckets, at: Time, turns: seq<Turn>)
    requires Sound(rule, m, at) && Happens(rule, maxKeys, m, at, turns)
    ensures Sound(rule, Ends(rule, m, turns), LastAt(at, turns))
    decreases turns
  {
    if turns == [] {
    } else {
      var t, r, rest := turns[0], turns[0].request, turns[1..];
      KeptIsPart(rule, maxKeys, m, r, t.mid, t.kept);
      SoundStays(rule, t.kept, at, r);
      StaysSound(rule, maxKeys, After(rule, t.kept, r), r.now, rest);
      assert LastAt(at, turns) == LastAt(r.now, rest);
    }
  }

  /** So in any window of a limiter's life: after any calls before it, a key that the second
      phase does not drop in the window gets at most a burst and one grant more for each
      interval in it. */
  lemma RateIsBoundedInAnyWindow(rule: Rule, maxKeys: nat, start: Time, before: seq<Turn>,
                                 from: Time, turns: seq<Turn>, key: Key, until: Time)
    requires Works(rule) && Happens(rule, maxKeys, map[], start, before) && LastAt(start, before) <= from
    requires Happens(rule, maxKeys, Ends(rule, map[], before), from, turns)
    requires NeverDroppedAsOldest(key, turns) && LastAt(from, turns) <= until
    ensures GrantsTo(Requests(turns), Answers(rule, turns), key) <= rule.burst + (until - from) / rule.every
  {
    StaysSound(rule, maxKeys, map[], start, before);
    RateIsBounded(rule, maxKeys, Ends(rule, map[], before), from, turns, key, until);
  }

  lemma Intervals(n: nat, burst: nat, every: nat, elapsed: nat)
    requires every > 0 && n * every <= burst * every + elapsed
    ensures n <= burst + elapsed / every
  {
    var q := elapsed / every;
    Scales(burst + q + 1, n, every);
    Distributes(burst, q, every);
  }

  lemma Scales(a: nat, b: nat, c: nat)
    ensures a <= b ==> a * c <= b * c
  {
  }

  lemma Distributes(a: nat, b: nat, c: nat)
    ensures (a + b + 1) * c == a * c + b * c + c
  {
  }

  /** The wait a refusal reports is exact: if nothing else touches the key, asking again
      after a delay succeeds when the delay is at least the wait, and at no earlier instant. */
  lemma WaitIsExact(rule: Rule, m: Buckets, key: Key, now: Time, delay: nat)
    requires Works(rule) && Sound(rule, m, now)
    requires Answered(rule, m, Request.Allow(key, now)).Refused?
    ensures var wait := Answered(rule, m, Request.Allow(key, now)).wait;
            var later := Answered(rule, After(rule, m, Request.Allow(key, now)), Request.Allow(key, now + delay));
            wait > 0 && (later == Granted <==> delay >= wait)
  {
    assert Full(rule) >= rule.every by { assert rule.burst * rule.every >= 1 * rule.every; }
  }
}
