/** Stand-in for Go's sort.Slice with a comparison on one or two integer fields: an
    in-order rearrangement, fixed only up to the order of elements with equal keys. */
module Sorting {

  datatype Key = Key(major: int, minor: int) {
    predicate Below(other: Key) {
      major < other.major || (major == other.major && minor < other.minor)
    }
  }

  ghost predicate InOrder<T>(xs: seq<T>, key: T -> Key) {
    forall i, j :: 0 <= i < j < |xs| ==> !key(xs[j]).Below(key(xs[i]))
  }

  /** Into its place, after those it is not below. */
  function Insert<T>(ys: seq<T>, x: T, key: T -> Key): seq<T> {
    if ys == [] then [x]
    else
      var n := |ys| - 1;
      if key(x).Below(key(ys[n])) then Insert(ys[..n], x, key) + [ys[n]] else ys + [x]
  }

  /** By key, and among equal keys as they came. */
  function Sorted<T>(xs: seq<T>, key: T -> Key): seq<T> {
    if xs == [] then [] else Insert(Sorted(xs[..|xs| - 1], key), xs[|xs| - 1], key)
  }

  method SortSlice<T>(xs: seq<T>, key: T -> Key) returns (ys: seq<T>)
    ensures multiset(ys) == multiset(xs)
    ensures |ys| == |xs|
    ensures InOrder(ys, key)
  {
    ys := [];
    for i := 0 to |xs|
      invariant multiset(ys) == multiset(xs[..i])
      invariant InOrder(ys, key)
    {
      InsertIsOrdered(ys, xs[i], key);
      ys := Insert(ys, xs[i], key);
      assert xs[..i + 1] == xs[..i] + [xs[i]];
    }
    assert xs[..|xs|] == xs;
    assert |multiset(ys)| == |multiset(xs)|;
  }

  lemma {:induction false} InsertIsOrdered<T>(ys: seq<T>, x: T, key: T -> Key)
    requires InOrder(ys, key)
    ensures InOrder(Insert(ys, x, key), key) && multiset(Insert(ys, x, key)) == multiset(ys) + multiset{x}
  {
    if ys == [] {
    } else {
      var n := |ys| - 1;
      assert ys == ys[..n] + [ys[n]];
      if key(x).Below(key(ys[n])) {
        InsertIsOrdered(ys[..n], x, key);
        AppendKeepsOrder(Insert(ys[..n], x, key), ys[n], ys[..n], x, key);
      } else {
        LargestFits(ys, x, key);
      }
    }
  }

  lemma LargestFits<T>(ys: seq<T>, x: T, key: T -> Key)
    requires InOrder(ys, key) && ys != [] && !key(x).Below(key(ys[|ys| - 1]))
    ensures InOrder(ys + [x], key)
  {
    var n := |ys| - 1;
    forall y | y in ys ensures !key(x).Below(key(y)) {
      var i :| 0 <= i < |ys| && ys[i] == y;
      if i < n {
        assert !key(ys[n]).Below(key(ys[i]));
      }
    }
    LargestLast(ys, x, key);
  }

  lemma LargestLast<T>(ys: seq<T>, x: T, key: T -> Key)
    requires InOrder(ys, key) && forall y :: y in ys ==> !key(x).Below(key(y))
    ensures InOrder(ys + [x], key)
  {
    var zs := ys + [x];
    forall i, j | 0 <= i < j < |zs| ensures !key(zs[j]).Below(key(zs[i])) {
      assert zs[i] == ys[i] && ys[i] in ys;
    }
  }

  lemma AppendKeepsOrder<T>(zs: seq<T>, y: T, front: seq<T>, x: T, key: T -> Key)
    requires InOrder(zs, key) && multiset(zs) == multiset(front) + multiset{x}
    requires InOrder(front + [y], key) && key(x).Below(key(y))
    ensures InOrder(zs + [y], key)
  {
    forall z | z in zs ensures !key(y).Below(key(z)) {
      assert z in multiset(zs);
      if z != x {
        assert z in multiset(front);
        var i :| 0 <= i < |front| && front[i] == z;
        var all := front + [y];
        assert all[i] == z && all[|front|] == y;
      }
    }
    LargestLast(zs, y, key);
  }

  lemma {:induction false} SortedIsOrdered<T>(xs: seq<T>, key: T -> Key)
    ensures InOrder(Sorted(xs, key), key) && multiset(Sorted(xs, key)) == multiset(xs)
  {
    if xs == [] {
    } else {
      var n := |xs| - 1;
      assert xs == xs[..n] + [xs[n]];
      SortedIsOrdered(xs[..n], key);
      InsertIsOrdered(Sorted(xs[..n], key), xs[n], key);
    }
  }

  lemma SameFirst<T>(xs: seq<T>, ys: seq<T>, key: T -> Key)
    requires multiset(xs) == multiset(ys) && xs != [] && ys != []
    requires InOrder(xs, key) && InOrder(ys, key)
    ensures xs[0] in ys && key(xs[0]) == key(ys[0])
  {
    assert xs[0] in multiset(ys) && ys[0] in multiset(xs);
    var i :| 0 <= i < |ys| && ys[i] == xs[0];
    var j :| 0 <= j < |xs| && xs[j] == ys[0];
    assert i > 0 ==> !key(ys[i]).Below(key(ys[0]));
    assert j > 0 ==> !key(xs[j]).Below(key(xs[0]));
  }

  lemma DropFirst<T>(xs: seq<T>, key: T -> Key)
    requires xs != [] && InOrder(xs, key)
    ensures InOrder(xs[1..], key) && multiset(xs[1..]) == multiset(xs) - multiset{xs[0]}
  {
    assert xs == [xs[0]] + xs[1..];
    var t := xs[1..];
    forall i, j | 0 <= i < j < |t| ensures !key(t[j]).Below(key(t[i])) {
      assert t[i] == xs[i + 1] && t[j] == xs[j + 1];
    }
  }

  ghost predicate KeysDiffer<T>(xs: seq<T>, key: T -> Key) {
    forall a, b :: a in xs && b in xs && key(a) == key(b) ==> a == b
  }

  /** Two arrangements of the same elements, both in order, are the same when the
      keys tell any two of those elements apart. */
  lemma {:induction false} InOrderIsUnique<T>(xs: seq<T>, ys: seq<T>, key: T -> Key)
    requires KeysDiffer(xs, key)
    requires multiset(xs) == multiset(ys)
    requires InOrder(xs, key) && InOrder(ys, key)
    ensures xs == ys
  {
    assert |multiset(ys)| == |multiset(xs)|;
    if xs == [] {
    } else {
      SameHead(xs, ys, key);
      Tails(xs, ys, key);
      InOrderIsUnique(xs[1..], ys[1..], key);
      assert xs == [xs[0]] + xs[1..] && ys == [ys[0]] + ys[1..];
    }
  }

  lemma SameHead<T>(xs: seq<T>, ys: seq<T>, key: T -> Key)
    requires multiset(xs) == multiset(ys) && xs != [] && ys != []
    requires InOrder(xs, key) && InOrder(ys, key) && KeysDiffer(xs, key)
    ensures xs[0] == ys[0]
  {
    SameFirst(xs, ys, key);
    assert ys[0] in multiset(xs);
  }

  lemma Tails<T>(xs: seq<T>, ys: seq<T>, key: T -> Key)
    requires xs != [] && ys != [] && xs[0] == ys[0] && KeysDiffer(xs, key) && multiset(xs) == multiset(ys)
    requires InOrder(xs, key) && InOrder(ys, key)
    ensures KeysDiffer(xs[1..], key) && multiset(xs[1..]) == multiset(ys[1..])
    ensures InOrder(xs[1..], key) && InOrder(ys[1..], key)
  {
    DropFirst(xs, key);
    DropFirst(ys, key);
  }
}
