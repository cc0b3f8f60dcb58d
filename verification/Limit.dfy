/** pkg/limit/limit.go: one token bucket per key, in a map of bounded size. Tokens are
    counted in units of 1/every of a token, so that a nanosecond refills one unit and a
    grant takes `every` units: all of it is exact in the integers. */
module Limit {
  import opened Collections

  type Key = string
  type Time = int  // nanoseconds

  const DEFAULT_MAX_KEYS: nat := 4096

  datatype Rule = Rule(burst: nat, every: nat)

  datatype Bucket = Bucket(tokens: int, seen: Time)

  type Buckets = map<Key, Bucket>

  ghost predicate Works(rule: Rule) {
    rule.burst > 0 && rule.every > 0
  }

  function Full(rule: Rule): nat {
    rule.burst * rule.every
  }

  /** What a bucket holds at a moment: refilled by the time elapsed, up to full. */
  function Refilled(rule: Rule, b: Bucket, now: Time): int {
    if now <= b.seen then b.tokens
    else if b.tokens + (now - b.seen) > Full(rule) then Full(rule)
    else b.tokens + (now - b.seen)
  }

  /** What a key has at a moment. A key with no bucket has a full one. */
  function View(rule: Rule, m: Buckets, key: Key, now: Time): int {
    if key in m then Refilled(rule, m[key], now) else Full(rule)
  }

  /** evict's own test, which does not stop at full. */
  predicate FullAt(rule: Rule, b: Bucket, now: Time) {
    b.tokens + (now - b.seen) >= Full(rule)
  }

  // ---- Eviction --------------------------------------------------------------

  ghost predicate PartOf(part: Buckets, whole: Buckets) {
    forall k :: k in part ==> k in whole && part[k] == whole[k]
  }

  /** First phase: drops full buckets only, and stops at the target or when none is left. */
  ghost predicate DropsFull(rule: Rule, before: Buckets, now: Time, target: nat, mid: Buckets) {
    && PartOf(mid, before)
    && (forall k :: k in before && k !in mid ==> FullAt(rule, before[k], now))
    && |mid| >= target
    && (|mid| > target ==> forall k :: k in mid ==> !FullAt(rule, mid[k], now))
  }

  /** The scan for the oldest bucket, over the keys in the order the map yields them. */
  function Scan(m: Buckets, order: seq<Key>): (Key, Time)
    requires forall k :: k in order ==> k in m
  {
    if order == [] then ("", 0)
    else
      var n := |order| - 1;
      var (oldest, at) := Scan(m, order[..n]);
      if oldest == "" || m[order[n]].seen < at then (order[n], m[order[n]].seen) else (oldest, at)
  }

  ghost predicate Enumerates(order: seq<Key>, keys: set<Key>) {
    NoDup(order) && forall k :: k in order <==> k in keys
  }

  /** For some order of the keys the scan ends on this one. */
  ghost predicate MayFind(m: Buckets, key: Key) {
    key in m && exists order :: Enumerates(order, m.Keys) && order != [] && Scan(m, order).0 == key
  }

  /** Second phase: one scan after another, each over its own order, and each time what the
      scan ends on is dropped. */
  ghost predicate Sweeps(m: Buckets, target: nat, after: Buckets)
    decreases |m|
  {
    if |m| <= target then after == m
    else exists key :: MayFind(m, key) && Sweeps(m - {key}, target, after)
  }

  ghost predicate DropsOldest(mid: Buckets, target: nat, after: Buckets) {
    PartOf(after, mid) && |after| == target && Sweeps(mid, target, after)
  }

  ghost predicate IsOldest(m: Buckets, key: Key) {
    key in m && forall j :: j in m ==> m[key].seen <= m[j].seen
  }

  /** The empty key is older than every other, so that a scan takes it and then forgets. */
  ghost predicate EmptyKeyOldest(m: Buckets) {
    "" in m && forall j :: j in m && j != "" ==> m[""].seen < m[j].seen
  }

  /** A key the scan has passed and lost was newer than the empty key. */
  lemma {:induction false} ScanSoFar(m: Buckets, order: seq<Key>)
    requires forall k :: k in order ==> k in m
    requires order != []
    ensures var (oldest, at) := Scan(m, order);
            && oldest in order && at == m[oldest].seen
            && (oldest == "" ==> order[|order| - 1] == "" && forall j :: j in order && j != "" ==>
                  m[""].seen < m[j].seen)
            && (forall j :: j in order ==> at <= m[j].seen || ("" in order && (j == "" || m[""].seen < m[j].seen)))
  {
    var n := |order| - 1;
    var front := order[..n];
    assert order == front + [order[n]];
    if front == [] {
    } else {
      ScanSoFar(m, front);
    }
  }

  lemma {:induction false} ScanEndsOnEmptyKey(m: Buckets, order: seq<Key>)
    requires Enumerates(order, m.Keys) && order != [] && EmptyKeyOldest(m) && order[|order| - 1] == ""
    ensures Scan(m, order).0 == ""
  {
    var n := |order| - 1;
    if n > 0 {
      ScanSoFar(m, order[..n]);
      var oldest := Scan(m, order[..n]).0;
      assert oldest in order;
    }
  }

  /** The scan finds the oldest bucket exactly when the empty key is not older than every
      other key, or is visited last. */
  lemma ScanFindsOldest(m: Buckets, order: seq<Key>)
    requires Enumerates(order, m.Keys) && order != []
    ensures Scan(m, order).0 in m
    ensures IsOldest(m, Scan(m, order).0) <==> !EmptyKeyOldest(m) || order[|order| - 1] == ""
  {
    ScanSoFar(m, order);
    var (oldest, at) := Scan(m, order);
    if !EmptyKeyOldest(m) && "" in m {
      var x :| x in m && x != "" && m[x].seen <= m[""].seen;
      assert at <= m[x].seen;
    } else if EmptyKeyOldest(m) && order[|order| - 1] == "" {
      ScanEndsOnEmptyKey(m, order);
    }
  }

  /** Keys no newer than the empty one, besides it. */
  function NoNewerThanEmpty(m: Buckets): set<Key>
    requires "" in m
  {
    set k | k in m && k != "" && m[k].seen <= m[""].seen
  }

  // ---- One call ----------------------------------------------------------------

  /** What an eviction, if one happens, leaves of the map before a key is looked up: the
      map after its first phase, and after its second. */
  ghost predicate MayLeave(rule: Rule, maxKeys: nat, m: Buckets, key: Key, now: Time, mid: Buckets, kept: Buckets) {
    if key in m || |m| < maxKeys then mid == m && kept == m
    else DropsFull(rule, m, now, maxKeys / 2, mid) && DropsOldest(mid, maxKeys / 2, kept)
  }

  /** bucketFor: the key's bucket brought up to now, or a new full one. */
  function Touched(rule: Rule, m: Buckets, key: Key, now: Time): Buckets {
    m[key := Bucket(View(rule, m, key, now), now)]
  }

  /** reserve: takes a token if there is one. */
  function Reserved(rule: Rule, m: Buckets, key: Key, now: Time): Buckets {
    var have := View(rule, m, key, now);
    m[key := Bucket(if have >= rule.every then have - rule.every else have, now)]
  }

  /** What a key has is the whole burst if it has no bucket, and else what its bucket held
      and a unit more for each nanosecond since, up to the burst; an eviction for another
      key's sake does not change it, and a clock that steps back takes nothing away. */
  lemma HasIs(rule: Rule, maxKeys: nat, m: Buckets, key: Key, now: Time, mid: Buckets, kept: Buckets)
    requires MayLeave(rule, maxKeys, m, key, now, mid, kept)
    ensures key !in m ==> View(rule, kept, key, now) == rule.burst * rule.every
    ensures key in m && now <= m[key].seen ==> View(rule, kept, key, now) == m[key].tokens
    ensures key in m && now > m[key].seen ==>
              var more := m[key].tokens + (now - m[key].seen);
              View(rule, kept, key, now) == if more > rule.burst * rule.every then rule.burst * rule.every else more
  {
  }

  /** A grant takes one interval's units from it and a refusal takes none; either way the
      bucket is then as of now, and every other bucket as it was. */
  lemma ReservedIs(rule: Rule, kept: Buckets, key: Key, now: Time)
    ensures var after, have := Reserved(rule, kept, key, now), View(rule, kept, key, now);
            && after.Keys == kept.Keys + {key} && after[key].seen == now
            && (have >= rule.every ==> after[key].tokens == have - rule.every)
            && (have < rule.every ==> after[key].tokens == have)
            && forall k :: k in kept && k != key ==> after[k] == kept[k]
  {
  }

  /** Bringing a key's bucket up to now leaves it with what it has. */
  lemma TouchedIs(rule: Rule, kept: Buckets, key: Key, now: Time)
    ensures var after := Touched(rule, kept, key, now);
            && after.Keys == kept.Keys + {key}
            && after[key].tokens == View(rule, kept, key, now) && after[key].seen == now
            && forall k :: k in kept && k != key ==> after[k] == kept[k]
  {
  }

  /** What there is to look the key up in is the map itself, unless the key is new and the map
      full. Then it is half the map's bound: what the first phase drops would fill by now, and
      it leaves more than half only when it leaves nothing that would. */
  lemma KeptIs(rule: Rule, maxKeys: nat, m: Buckets, key: Key, now: Time, mid: Buckets, kept: Buckets)
    requires MayLeave(rule, maxKeys, m, key, now, mid, kept)
    ensures key in m || |m| < maxKeys ==> kept == m
    ensures key !in m && |m| >= maxKeys ==> 2 * |kept| <= maxKeys <= 2 * |kept| + 1
    ensures forall k :: k in kept ==> k in mid && k in m && kept[k] == mid[k] == m[k]
    ensures forall k :: k in m && k !in mid ==> m[k].tokens + (now - m[k].seen) >= rule.burst * rule.every
    ensures |mid| > |kept| ==> forall k :: k in mid ==> mid[k].tokens + (now - mid[k].seen) < rule.burst * rule.every
  {
  }

  class Limiter {
    const rule: Rule
    const maxKeys: nat
    var buckets: Buckets

    constructor (rule: Rule, maxKeys: int)
      requires Works(rule)
      ensures this.rule == rule && buckets == map[]
      ensures this.maxKeys == if maxKeys <= 0 then 4096 else maxKeys
    {
      this.rule := rule;
      this.maxKeys := if maxKeys <= 0 then DEFAULT_MAX_KEYS else maxKeys;
      buckets := map[];
    }

    method Evict(now: Time) returns (ghost mid: Buckets)
      requires |buckets| > maxKeys / 2
      modifies this
      ensures DropsFull(rule, old(buckets), now, maxKeys / 2, mid)
      ensures DropsOldest(mid, maxKeys / 2, buckets)
    {
      var target := maxKeys / 2;
      var left := buckets.Keys;
      while left != {}
        invariant left <= buckets.Keys
        invariant PartOf(buckets, old(buckets))
        invariant forall k :: k in old(buckets) && k !in buckets ==> FullAt(rule, old(buckets)[k], now)
        invariant forall k :: k in buckets && k !in left ==> !FullAt(rule, buckets[k], now)
        invariant |buckets| > target
        decreases left
      {
        var key :| key in left;
        left := left - {key};
        if FullAt(rule, buckets[key], now) {
          buckets := buckets - {key};
        }
        if |buckets| <= target {
          mid := buckets;
          return;
        }
      }
      mid := buckets;
      while |buckets| > target
        invariant PartOf(buckets, mid) && |buckets| >= target
        invariant forall after :: Sweeps(buckets, target, after) ==> Sweeps(mid, target, after)
        decreases |buckets|
      {
        var oldest := Oldest();
        assert forall after :: Sweeps(buckets - {oldest}, target, after) ==> Sweeps(buckets, target, after);
        buckets := buckets - {oldest};
      }
      assert Sweeps(buckets, target, buckets);
    }

    method Oldest() returns (oldest: Key)
      requires buckets != map[]
      ensures MayFind(buckets, oldest)
    {
      oldest := "";
      ghost var order: seq<Key> := [];
      var at: Time := 0;
      var left := buckets.Keys;
      while left != {}
        invariant left <= buckets.Keys
        invariant Enumerates(order, buckets.Keys - left)
        invariant (oldest, at) == Scan(buckets, order)
        decreases left
      {
        var key :| key in left;
        left := left - {key};
        order := order + [key];
        assert order[..|order| - 1] + [key] == order;
        if oldest == "" || buckets[key].seen < at {
          oldest, at := key, buckets[key].seen;
        }
      }
      assert buckets.Keys - left == buckets.Keys;
      ScanFindsOldest(buckets, order);
    }

    method BucketFor(key: Key, now: Time) returns (ghost mid: Buckets, ghost kept: Buckets)
      requires maxKeys > 0
      modifies this
      ensures MayLeave(rule, maxKeys, old(buckets), key, now, mid, kept)
      ensures key !in old(buckets) ==> key !in kept
      ensures buckets == Touched(rule, kept, key, now)
    {
      mid, kept := buckets, buckets;
      if key !in buckets {
        if |buckets| >= maxKeys {
          mid := Evict(now);
          kept := buckets;
        }
        buckets := buckets[key := Bucket(Full(rule), now)];
      } else {
        var b := buckets[key];
        var elapsed := now - b.seen;
        if elapsed > 0 {
          b := b.(tokens := b.tokens + elapsed);
          if b.tokens > Full(rule) {
            b := b.(tokens := Full(rule));
          }
        }
        buckets := buckets[key := b.(seen := now)];
      }
    }

    /** Grants, or says how long until one token exists. */
    method Reserve(key: Key, now: Time) returns (wait: int, ok: bool, ghost mid: Buckets, ghost kept: Buckets)
      requires maxKeys > 0
      modifies this
      ensures MayLeave(rule, maxKeys, old(buckets), key, now, mid, kept)
      ensures ok <==> View(rule, kept, key, now) >= rule.every
      ensures wait == if ok then 0 else rule.every - View(rule, kept, key, now)
      ensures buckets == Reserved(rule, kept, key, now)
    {
      mid, kept := BucketFor(key, now);
      var b := buckets[key];
      if b.tokens >= rule.every {
        buckets := buckets[key := b.(tokens := b.tokens - rule.every)];
        return 0, true, mid, kept;
      }
      var missing := rule.every - b.tokens;
      return missing, false, mid, kept;
    }

    method Allow(key: Key, now: Time) returns (ok: bool, ghost mid: Buckets, ghost kept: Buckets)
      requires maxKeys > 0
      modifies this
      ensures MayLeave(rule, maxKeys, old(buckets), key, now, mid, kept)
      ensures ok <==> View(rule, kept, key, now) >= rule.every
      ensures buckets == Reserved(rule, kept, key, now)
    {
      var wait;
      wait, ok, mid, kept := Reserve(key, now);
    }

    method Tokens(key: Key, now: Time) returns (tokens: int, ghost mid: Buckets, ghost kept: Buckets)
      requires maxKeys > 0
      modifies this
      ensures MayLeave(rule, maxKeys, old(buckets), key, now, mid, kept)
      ensures tokens == View(rule, kept, key, now)
    {
      mid, kept := BucketFor(key, now);
      tokens := buckets[key].tokens;
    }
  }
}
