/** When an eviction drops the oldest buckets, and when it drops something else because the
    empty key stands for "none found yet" in the scan. */
module LimitEviction {
  import opened Collections
  import opened Limit

  lemma {:induction false} SomeOrder(keys: set<Key>) returns (order: seq<Key>)
    ensures Enumerates(order, keys)
  {
    if keys == {} {
      order := [];
    } else {
      var k :| k in keys;
      var rest := SomeOrder(keys - {k});
      order := [k] + rest;
    }
  }

  /** A scan that meets the empty key first forgets it, and ends on some other key. */
  lemma {:induction false} ScanFromEmpty(m: Buckets, rest: seq<Key>)
    requires rest != [] && "" !in rest && "" in m && forall k :: k in rest ==> k in m
    ensures Scan(m, [""] + rest).0 in rest
  {
    var order, n := [""] + rest, |rest|;
    assert order[n] == rest[n - 1] && order[..n] == [""] + rest[..n - 1];
    if n == 1 {
      assert order[..1][..0] == [] && order[..1] == [""];
      assert Scan(m, order[..1]).0 == "";
    } else {
      ScanFromEmpty(m, rest[..n - 1]);
    }
  }

  lemma MayMissEmpty(m: Buckets) returns (key: Key)
    requires "" in m && |m| >= 2
    ensures key != "" && MayFind(m, key)
  {
    var others := m.Keys - {""};
    assert |others| == |m.Keys| - 1 && |m.Keys| == |m|;
    var other :| other in others;
    var rest := SomeOrder(others);
    assert other in rest;
    ScanFromEmpty(m, rest);
    assert Enumerates([""] + rest, m.Keys);
    key := Scan(m, [""] + rest).0;
  }

  /** A scan finds the oldest bucket whatever the order of the keys exactly when the empty
      key is not there, is not older than every other, or is the only one. */
  lemma ScanAlwaysFindsOldest(m: Buckets)
    requires m != map[]
    ensures (forall key :: MayFind(m, key) ==> IsOldest(m, key)) <==> !EmptyKeyOldest(m) || |m| == 1
  {
    if EmptyKeyOldest(m) && |m| != 1 {
      var key := MayMissEmpty(m);
    } else {
      forall key | MayFind(m, key) ensures IsOldest(m, key) {
        FoundIsOldest(m, key);
      }
    }
  }

  lemma FoundIsOldest(m: Buckets, key: Key)
    requires MayFind(m, key) && (!EmptyKeyOldest(m) || |m| == 1)
    ensures IsOldest(m, key)
  {
    var order :| Enumerates(order, m.Keys) && order != [] && Scan(m, order).0 == key;
    ScanFindsOldest(m, order);
    if |m| == 1 {
      OnlyKey(m, key);
    }
  }

  lemma OnlyKey(m: Buckets, key: Key)
    requires |m| == 1 && key in m
    ensures m.Keys == {key}
  {
    assert |m.Keys| == |m|;
    SubsetSize({key}, m.Keys);
  }

  /** With three keys it can end on the newest. */
  lemma ScanCanFindNewest()
    ensures var m: Buckets := map["" := Bucket(0, 1), "a" := Bucket(0, 2), "b" := Bucket(0, 3)];
            && MayFind(m, "b") && !IsOldest(m, "b")
            && forall k :: k in m ==> m[k].seen <= m["b"].seen
  {
    var m: Buckets := map["" := Bucket(0, 1), "a" := Bucket(0, 2), "b" := Bucket(0, 3)];
    var order := ["a", "", "b"];
    assert order[..2] == ["a", ""] && order[..2][..1] == ["a"] && order[..2][..1][..0] == [];
    assert Scan(m, order[..2][..1]) == ("a", 2);
    assert Scan(m, order[..2]) == ("", 1);
    assert Scan(m, order) == ("b", 3);
    assert Enumerates(order, m.Keys);
  }

  // ---- The whole second phase --------------------------------------------------------

  /** Nothing dropped is newer than anything kept. */
  ghost predicate OldestGone(before: Buckets, after: Buckets) {
    forall k, j :: k in before && k !in after && j in after ==> j in before && before[k].seen <= before[j].seen
  }

  /** The condition under which that is sure: nothing is to be kept, there is no empty key,
      or there is enough to drop that is no newer than it. */
  ghost predicate SafeToSweep(m: Buckets, target: nat) {
    target == 0 || "" !in m || |NoNewerThanEmpty(m)| + target >= |m|
  }

  lemma Less(m: Buckets, key: Key)
    requires key in m
    ensures |m - {key}| == |m| - 1
  {
    assert (m - {key}).Keys == m.Keys - {key};
  }

  lemma {:induction false} SweepIsPart(m: Buckets, target: nat, after: Buckets)
    requires Sweeps(m, target, after)
    ensures PartOf(after, m) && |after| == if |m| <= target then |m| else target
    decreases |m|
  {
    if |m| <= target {
    } else {
      var key :| MayFind(m, key) && Sweeps(m - {key}, target, after);
      Less(m, key);
      SweepIsPart(m - {key}, target, after);
    }
  }

  lemma SafeFindsOldest(m: Buckets, target: nat, key: Key)
    requires target > 0 && |m| > target && SafeToSweep(m, target) && MayFind(m, key)
    ensures IsOldest(m, key) && SafeToSweep(m - {key}, target)
  {
    Less(m, key);
    if "" in m {
      assert NoNewerThanEmpty(m) != {};
      var x :| x in NoNewerThanEmpty(m);
      FoundIsOldest(m, key);
      if key != "" {
        assert NoNewerThanEmpty(m - {key}) == NoNewerThanEmpty(m) - {key};
      }
    } else {
      FoundIsOldest(m, key);
    }
  }

  lemma {:induction false} SafeSweepDropsOldest(m: Buckets, target: nat, after: Buckets)
    requires SafeToSweep(m, target) && Sweeps(m, target, after)
    ensures OldestGone(m, after)
    decreases |m|
  {
    SweepIsPart(m, target, after);
    if |m| <= target || target == 0 {
    } else {
      var key :| MayFind(m, key) && Sweeps(m - {key}, target, after);
      SafeFindsOldest(m, target, key);
      Less(m, key);
      SweepIsPart(m - {key}, target, after);
      SafeSweepDropsOldest(m - {key}, target, after);
      OneMoreGone(m, key, after);
    }
  }

  lemma OneMoreGone(m: Buckets, key: Key, after: Buckets)
    requires IsOldest(m, key) && PartOf(after, m - {key}) && OldestGone(m - {key}, after)
    ensures OldestGone(m, after)
  {
  }

  lemma {:induction false} EmptyCanStay(m: Buckets, target: nat) returns (after: Buckets)
    requires "" in m && target > 0
    ensures Sweeps(m, target, after) && "" in after
    decreases |m|
  {
    if |m| <= target {
      after := m;
    } else {
      var key := MayMissEmpty(m);
      Less(m, key);
      after := EmptyCanStay(m - {key}, target);
    }
  }

  lemma UnsafeSweepDropsNewer(m: Buckets, target: nat, after: Buckets)
    requires !SafeToSweep(m, target) && PartOf(after, m) && |after| == target && "" in after
    ensures !OldestGone(m, after)
  {
    var gone := m.Keys - after.Keys;
    assert after.Keys <= m.Keys;
    assert |gone| == |m| - target;
    if gone <= NoNewerThanEmpty(m) {
      SubsetSize(gone, NoNewerThanEmpty(m));
      assert false;
    }
    var x :| x in gone && x !in NoNewerThanEmpty(m);
    assert m[x].seen > m[""].seen;
  }

  lemma SweepOfOne(key: Key, b: Bucket)
    ensures Sweeps(map[key := b], 0, map[])
  {
    var m: Buckets := map[key := b];
    assert [key][..0] == [] && Scan(m, [key]).0 == key;
    assert Enumerates([key], m.Keys);
    assert m - {key} == map[];
  }

  /** Whatever the orders of the keys, the second phase drops the oldest buckets, if and only
      if it is safe to sweep. */
  lemma SweepDropsOldestExactly(m: Buckets, target: nat)
    ensures (forall after :: Sweeps(m, target, after) ==> OldestGone(m, after)) <==> SafeToSweep(m, target)
  {
    if SafeToSweep(m, target) {
      forall after | Sweeps(m, target, after) ensures OldestGone(m, after) {
        SafeSweepDropsOldest(m, target, after);
      }
    } else {
      var after := EmptyCanStay(m, target);
      SweepIsPart(m, target, after);
      SafeAtOrBelow(m, target);
      UnsafeSweepDropsNewer(m, target, after);
    }
  }

  lemma SafeAtOrBelow(m: Buckets, target: nat)
    ensures |m| <= target ==> SafeToSweep(m, target)
  {
  }

  // ---- The whole eviction -------------------------------------------------------------

  function NotFull(rule: Rule, m: Buckets, now: Time): Buckets {
    map k | k in m && !FullAt(rule, m[k], now) :: m[k]
  }

  /** What the first phase leaves to the second is every bucket that is not full. */
  lemma FirstPhaseLeaves(rule: Rule, m: Buckets, now: Time, target: nat, mid: Buckets)
    requires DropsFull(rule, m, now, target, mid) && |mid| > target
    ensures mid == NotFull(rule, m, now)
  {
    forall k | k in NotFull(rule, m, now) ensures k in mid {
      assert k in m && !FullAt(rule, m[k], now);
    }
  }

  /** An eviction drops no bucket that is newer than one it could have dropped instead,
      whatever the orders of the keys, if and only if the buckets that are not full are safe
      to sweep: a condition on the map and the clock before the call. */
  lemma EvictionDropsOldestExactly(rule: Rule, m: Buckets, now: Time, target: nat)
    ensures (forall mid, after :: DropsFull(rule, m, now, target, mid) && DropsOldest(mid, target, after) ==>
               OldestGone(mid, after))
            <==> SafeToSweep(NotFull(rule, m, now), target)
  {
    var rest := NotFull(rule, m, now);
    if SafeToSweep(rest, target) {
      forall mid, after | DropsFull(rule, m, now, target, mid) && DropsOldest(mid, target, after)
        ensures OldestGone(mid, after)
      {
        if |mid| > target {
          FirstPhaseLeaves(rule, m, now, target, mid);
          SafeSweepDropsOldest(mid, target, after);
        }
      }
    } else {
      SafeAtOrBelow(rest, target);
      assert DropsFull(rule, m, now, target, rest);
      var after := EmptyCanStay(rest, target);
      SweepIsPart(rest, target, after);
      UnsafeSweepDropsNewer(rest, target, after);
    }
  }
}
