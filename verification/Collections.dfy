/** What the other modules share: optional values, bytes, and counting without repetition. */
module Collections {

  datatype Option<+T> = None | Some(value: T)

  type Byte = b: int | 0 <= b < 256

  ghost predicate NoDup<T>(xs: seq<T>) {
    forall i, j :: 0 <= i < j < |xs| ==> xs[i] != xs[j]
  }

  lemma {:induction false} NoDupCount<T>(xs: seq<T>, s: set<T>)
    requires NoDup(xs) && forall x :: x in xs <==> x in s
    ensures |xs| == |s|
  {
    if xs == [] {
    } else {
      var t, x := xs[..|xs| - 1], xs[|xs| - 1];
      assert xs == t + [x] && x !in t;
      NoDupCount(t, s - {x});
    }
  }

  lemma SubsetSize<T>(a: set<T>, b: set<T>)
    requires a <= b
    ensures |a| <= |b| && (|a| == |b| <==> a == b)
  {
    assert b == a + (b - a);
  }
}
