/** root/source_alerts.go: how far the evidence a record or a question cites has been
    compared, from the relations people recorded between pairs of observations. */
module Coverage {
  import opened Collections

  type Id = nat

  datatype Kind = Supports | Contradicts | Repeats | Unresolved

  datatype Relation = Relation(left: Id, right: Id, kind: Kind)

  datatype RecordStatus =
    | NoEvidence | ContradictionFound | NeedsCorroboration | HasUnresolved | ReviewIncomplete | Covered

  datatype QuestionStatus = NothingCited | NotCompared | Conflicted | PartiallyCompared | Reviewed

  function IdSet(obs: seq<Id>): set<Id> {
    set o | o in obs
  }

  predicate Touches(r: Relation, ids: set<Id>) {
    r.left in ids || r.right in ids
  }

  predicate Inside(r: Relation, ids: set<Id>) {
    r.left in ids && r.right in ids
  }

  // ---- What the counters count ---------------------------------------------------------

  function CountKind(relations: seq<Relation>, ids: set<Id>, kind: Kind): nat {
    if relations == [] then 0
    else
      var n := |relations| - 1;
      CountKind(relations[..n], ids, kind) + if Touches(relations[n], ids) && relations[n].kind == kind then 1 else 0
  }

  function CountInside(relations: seq<Relation>, ids: set<Id>): nat {
    if relations == [] then 0
    else
      var n := |relations| - 1;
      CountInside(relations[..n], ids) + if Inside(relations[n], ids) then 1 else 0
  }

  function Touched(relations: seq<Relation>, ids: set<Id>): set<Id> {
    (set r | r in relations && r.left in ids :: r.left) + (set r | r in relations && r.right in ids :: r.right)
  }

  function MaxInt(left: int, right: nat): nat {
    if left > right then left else right
  }

  function Possible(n: nat): nat {
    n * MaxInt(n - 1, 0) / 2
  }

  function RecordStatusOf(cited: nat, unresolved: nat, contradicting: nat, inside: nat): RecordStatus {
    if cited == 0 then NoEvidence
    else if contradicting > 0 then ContradictionFound
    else if cited < 2 then NeedsCorroboration
    else if unresolved > 0 then HasUnresolved
    else if inside < Possible(cited) then ReviewIncomplete
    else Covered
  }

  function QuestionStatusOf(cited: nat, distinct: nat, compared: nat, unresolved: nat,
                            contradicting: nat): QuestionStatus {
    if cited == 0 then NothingCited
    else if compared == 0 then NotCompared
    else if contradicting > 0 then Conflicted
    else if compared < distinct || unresolved > 0 then PartiallyCompared
    else Reviewed
  }

  function RecordStatusFor(obs: seq<Id>, relations: seq<Relation>): RecordStatus {
    RecordStatusOf(|obs|, CountKind(relations, IdSet(obs), Unresolved), CountKind(relations, IdSet(obs), Contradicts),
                   CountInside(relations, IdSet(obs)))
  }

  function QuestionStatusFor(obs: seq<Id>, relations: seq<Relation>): QuestionStatus {
    var ids := IdSet(obs);
    QuestionStatusOf(|obs|, |ids|, |Touched(relations, ids)|, CountKind(relations, ids, Unresolved),
        CountKind(relations, ids, Contradicts))
  }

  method RecordGapStatus(obs: seq<Id>, relations: seq<Relation>)
    returns (status: RecordStatus, reviewed: nat, unresolved: nat, contradicting: nat, inside: nat, possible: nat)
    ensures status == RecordStatusFor(obs, relations)
    ensures reviewed == |Touched(relations, IdSet(obs))|
    ensures unresolved == CountKind(relations, IdSet(obs), Unresolved)
    ensures contradicting == CountKind(relations, IdSet(obs), Contradicts)
    ensures inside == CountInside(relations, IdSet(obs))
    ensures possible == Possible(|obs|)
  {
    var ids := Collect(obs);
    var touched;
    touched, unresolved, contradicting, inside := Tally(ids, relations);
    reviewed := |touched|;
    possible := |obs| * MaxInt(|obs| - 1, 0) / 2;
    status := Covered;
    if |obs| == 0 {
      status := NoEvidence;
    } else if contradicting > 0 {
      status := ContradictionFound;
    } else if |obs| < 2 {
      status := NeedsCorroboration;
    } else if unresolved > 0 {
      status := HasUnresolved;
    } else if inside < possible {
      status := ReviewIncomplete;
    }
  }

  /** The loop over the relations. */
  method Tally(ids: set<Id>, relations: seq<Relation>)
    returns (touched: set<Id>, unresolved: nat, contradicting: nat, inside: nat)
    ensures touched == Touched(relations, ids)
    ensures unresolved == CountKind(relations, ids, Unresolved)
    ensures contradicting == CountKind(relations, ids, Contradicts)
    ensures inside == CountInside(relations, ids)
  {
    touched, unresolved, contradicting, inside := {}, 0, 0, 0;
    for k := 0 to |relations|
      invariant touched == Touched(relations[..k], ids)
      invariant unresolved == CountKind(relations[..k], ids, Unresolved)
      invariant contradicting == CountKind(relations[..k], ids, Contradicts)
      invariant inside == CountInside(relations[..k], ids)
    {
      OneMore(relations, k, ids);
      var r := relations[k];
      var left, right := r.left in ids, r.right in ids;
      if !left && !right {
        continue;
      }
      if left {
        touched := touched + {r.left};
      }
      if right {
        touched := touched + {r.right};
      }
      if left && right {
        inside := inside + 1;
      }
      match r.kind
      case Unresolved => unresolved := unresolved + 1;
      case Contradicts => contradicting := contradicting + 1;
      case _ =>
    }
    assert relations[..|relations|] == relations;
  }

  method QuestionGapStatus(obs: seq<Id>, relations: seq<Relation>)
    returns (status: QuestionStatus, compared: nat, unresolved: nat, contradicting: nat)
    ensures status == QuestionStatusFor(obs, relations)
    ensures compared == |Touched(relations, IdSet(obs))|
    ensures unresolved == CountKind(relations, IdSet(obs), Unresolved)
    ensures contradicting == CountKind(relations, IdSet(obs), Contradicts)
  {
    var ids := Collect(obs);
    var comparedIDs: set<Id> := {};
    unresolved, contradicting := 0, 0;
    for k := 0 to |relations|
      invariant comparedIDs == Touched(relations[..k], ids)
      invariant unresolved == CountKind(relations[..k], ids, Unresolved)
      invariant contradicting == CountKind(relations[..k], ids, Contradicts)
    {
      OneMore(relations, k, ids);
      var r := relations[k];
      var left, right := r.left in ids, r.right in ids;
      if !left && !right {
        continue;
      }
      if left {
        comparedIDs := comparedIDs + {r.left};
      }
      if right {
        comparedIDs := comparedIDs + {r.right};
      }
      match r.kind
      case Unresolved => unresolved := unresolved + 1;
      case Contradicts => contradicting := contradicting + 1;
      case _ =>
    }
    assert relations[..|relations|] == relations;
    compared := |comparedIDs|;
    status := Reviewed;
    if |obs| == 0 {
      status := NothingCited;
    } else if compared == 0 {
      status := NotCompared;
    } else if contradicting > 0 {
      status := Conflicted;
    } else if compared < |ids| || unresolved > 0 {
      status := PartiallyCompared;
    }
  }

  method Collect(obs: seq<Id>) returns (ids: set<Id>)
    ensures ids == IdSet(obs)
  {
    ids := {};
    for k := 0 to |obs|
      invariant ids == IdSet(obs[..k])
    {
      assert obs[..k + 1] == obs[..k] + [obs[k]];
      ids := ids + {obs[k]};
    }
    assert obs[..|obs|] == obs;
  }

  lemma OneMore(relations: seq<Relation>, k: nat, ids: set<Id>)
    requires k < |relations|
    ensures var r, before := relations[k], relations[..k];
            && CountKind(relations[..k + 1], ids, Unresolved) ==
                 CountKind(before, ids, Unresolved) + (if Touches(r, ids) && r.kind == Unresolved then 1 else 0)
            && CountKind(relations[..k + 1], ids, Contradicts) ==
                 CountKind(before, ids, Contradicts) + (if Touches(r, ids) && r.kind == Contradicts then 1 else 0)
            && CountInside(relations[..k + 1], ids) == CountInside(before, ids) + (if Inside(r, ids) then 1 else 0)
            && Touched(relations[..k + 1], ids) ==
                 Touched(before, ids) + (if r.left in ids then {r.left} else {})
                     + (if r.right in ids then {r.right} else {})
  {
    var upto := relations[..k + 1];
    assert upto[..k] == relations[..k] && upto[k] == relations[k];
    assert upto == relations[..k] + [relations[k]];
    TouchedMore(relations[..k], relations[k], ids);
  }

  lemma TouchedMore(relations: seq<Relation>, r: Relation, ids: set<Id>)
    ensures Touched(relations + [r], ids) ==
            Touched(relations, ids) + (if r.left in ids then {r.left} else {})
                + (if r.right in ids then {r.right} else {})
  {
    assert forall q :: q in relations + [r] <==> q in relations || q == r;
  }

  lemma {:induction false} CountKindMeans(relations: seq<Relation>, ids: set<Id>, kind: Kind)
    ensures CountKind(relations, ids, kind) > 0 <==> exists r :: r in relations && Touches(r, ids) && r.kind == kind
  {
    if relations == [] {
    } else {
      var n := |relations| - 1;
      CountKindMeans(relations[..n], ids, kind);
      assert relations == relations[..n] + [relations[n]];
    }
  }

  /** Relations as the store keeps them: between two observations, and at most one for
      any two. */
  ghost predicate OnePerPair(relations: seq<Relation>) {
    && (forall r :: r in relations ==> r.left != r.right)
    && (forall i, j :: 0 <= i < j < |relations| ==> PairOf(relations[i]) != PairOf(relations[j]))
  }

  ghost function PairOf(r: Relation): set<Id> {
    {r.left, r.right}
  }

  ghost function Pairs(ids: set<Id>): set<set<Id>> {
    set a, b | a in ids && b in ids && a != b :: {a, b}
  }

  ghost function RelatedPairs(relations: seq<Relation>, ids: set<Id>): set<set<Id>> {
    set r | r in relations && Inside(r, ids) :: PairOf(r)
  }

  ghost predicate Related(relations: seq<Relation>, a: Id, b: Id) {
    exists r :: r in relations && PairOf(r) == {a, b}
  }

  ghost function Triangle(n: nat): nat {
    if n == 0 then 0 else Triangle(n - 1) + (n - 1)
  }

  lemma {:induction false} TriangleIsPossible(n: nat)
    ensures Triangle(n) == Possible(n)
  {
    if n > 1 {
      TriangleIsPossible(n - 1);
      assert n * (n - 1) == (n - 1) * (n - 2) + 2 * (n - 1);
    }
  }

  /** n things make n(n-1)/2 pairs. */
  lemma CountPairs(ids: set<Id>)
    ensures |Pairs(ids)| == Possible(|ids|)
  {
    PairsInTriangle(ids);
    TriangleIsPossible(|ids|);
  }

  lemma {:induction false} PairsInTriangle(ids: set<Id>)
    ensures |Pairs(ids)| == Triangle(|ids|)
  {
    if ids == {} {
      assert Pairs(ids) == {};
    } else {
      var x :| x in ids;
      PairsInTriangle(ids - {x});
      PairsWith(ids - {x}, x);
      PairsSplit(ids, x);
    }
  }

  lemma PairsSplit(ids: set<Id>, x: Id)
    requires x in ids
    ensures var rest := ids - {x}; var mine := set b | b in rest :: {x, b};
            |Pairs(ids)| == |Pairs(rest)| + |mine|
  {
    var rest := ids - {x};
    var mine := set b | b in rest :: {x, b};
    forall p | p in Pairs(ids) ensures p in Pairs(rest) + mine {
      var a, b :| a in ids && b in ids && a != b && p == {a, b};
      if a == x {
        assert p == {x, b};
      } else if b == x {
        assert p == {x, a};
      }
    }
    forall p | p in Pairs(rest) ensures p !in mine {
      var a, b :| a in rest && b in rest && a != b && p == {a, b};
      assert x !in p;
    }
    assert Pairs(ids) == Pairs(rest) + mine && Pairs(rest) !! mine;
  }

  lemma {:induction false} PairsWith(rest: set<Id>, x: Id)
    requires x !in rest
    ensures |set b | b in rest :: {x, b}| == |rest|
  {
    if rest == {} {
      assert (set b | b in rest :: {x, b}) == {};
    } else {
      var y :| y in rest;
      var less := rest - {y};
      PairsWith(less, x);
      var mine := set b | b in less :: {x, b};
      assert (set b | b in rest :: {x, b}) == mine + {{x, y}};
      forall b | b in less ensures {x, b} != {x, y} {
        assert y in {x, y} && y !in {x, b};
      }
    }
  }

  lemma {:induction false} InsideCountsPairs(relations: seq<Relation>, ids: set<Id>)
    requires OnePerPair(relations)
    ensures CountInside(relations, ids) == |RelatedPairs(relations, ids)|
  {
    if relations == [] {
    } else {
      var n := |relations| - 1;
      var front, r := relations[..n], relations[n];
      assert relations == front + [r];
      InsideCountsPairs(front, ids);
      if Inside(r, ids) {
        assert RelatedPairs(relations, ids) == RelatedPairs(front, ids) + {PairOf(r)};
        assert PairOf(r) !in RelatedPairs(front, ids);
      } else {
        assert RelatedPairs(relations, ids) == RelatedPairs(front, ids);
      }
    }
  }

  ghost predicate AllRelated(relations: seq<Relation>, ids: set<Id>) {
    forall a, b :: a in ids && b in ids && a != b ==> Related(relations, a, b)
  }

  /** Enough comparisons inside means all of them, when no pair has been counted twice. */
  lemma EnoughIsAll(relations: seq<Relation>, ids: set<Id>)
    requires OnePerPair(relations)
    ensures CountInside(relations, ids) <= Possible(|ids|)
    ensures CountInside(relations, ids) == Possible(|ids|) <==> AllRelated(relations, ids)
  {
    InsideCountsPairs(relations, ids);
    CountPairs(ids);
    AllPairsRelated(relations, ids);
    SubsetSize(RelatedPairs(relations, ids), Pairs(ids));
  }

  lemma AllPairsRelated(relations: seq<Relation>, ids: set<Id>)
    requires OnePerPair(relations)
    ensures RelatedPairs(relations, ids) <= Pairs(ids)
    ensures RelatedPairs(relations, ids) == Pairs(ids) <==> AllRelated(relations, ids)
  {
    var some, all := RelatedPairs(relations, ids), Pairs(ids);
    assert some <= all;
    if some == all {
      forall a, b | a in ids && b in ids && a != b ensures Related(relations, a, b) {
        assert {a, b} in all;
      }
    }
    if AllRelated(relations, ids) {
      forall p | p in all ensures p in some {
        var a, b :| a in ids && b in ids && a != b && p == {a, b};
        var r :| r in relations && PairOf(r) == {a, b};
        assert r.left in {a, b} && r.right in {a, b};
      }
    }
  }

  ghost predicate SomeOfKind(obs: seq<Id>, relations: seq<Relation>, kind: Kind) {
    exists r :: r in relations && Touches(r, IdSet(obs)) && r.kind == kind
  }

  /** A record is covered exactly when it cites at least two observations, every two of them
      have been related, and no relation touching any of them is unresolved or
      contradicting; and what each of the other statuses says is just as exact. */
  lemma RecordStatusMeans(obs: seq<Id>, relations: seq<Relation>)
    requires NoDup(obs)
    requires OnePerPair(relations)
    ensures var status := RecordStatusFor(obs, relations);
            var disputed, open := SomeOfKind(obs, relations, Contradicts), SomeOfKind(obs, relations, Unresolved);
            && (status == Covered <==> |obs| >= 2 && AllRelated(relations, IdSet(obs)) && !disputed && !open)
            && (status == NoEvidence <==> obs == [])
            && (status == ContradictionFound <==> obs != [] && disputed)
            && (status == NeedsCorroboration <==> |obs| == 1 && !disputed)
            && (status == HasUnresolved <==> |obs| >= 2 && !disputed && open)
            && (status == ReviewIncomplete <==> |obs| >= 2 && !disputed && !open && !AllRelated(relations, IdSet(obs)))
  {
    CountKindMeans(relations, IdSet(obs), Contradicts);
    CountKindMeans(relations, IdSet(obs), Unresolved);
    EnoughIsAll(relations, IdSet(obs));
    NoDupCount(obs, IdSet(obs));
  }

  /** Without the store's rule of one relation a pair the count can mislead: three relations
      on one pair pass for the three pairs of three observations. */
  lemma RepeatedRelationsMislead()
    ensures var r := Relation(1, 2, Supports);
            RecordStatusFor([1, 2, 3], [r, r, r]) == Covered && !AllRelated([r, r, r], IdSet([1, 2, 3]))
  {
    var r := Relation(1, 2, Supports);
    var ids := IdSet([1, 2, 3]);
    assert [r, r, r][..2] == [r, r] && [r, r][..1] == [r] && [r][..0] == [];
    assert 1 in ids && 2 in ids && 3 in ids by { assert 1 in [1, 2, 3] && 2 in [1, 2, 3] && 3 in [1, 2, 3]; }
    assert CountInside([r], ids) == 1;
    assert CountInside([r, r], ids) == 2;
    assert CountKind([r], ids, Contradicts) == 0 && CountKind([r], ids, Unresolved) == 0;
    assert CountKind([r, r], ids, Contradicts) == 0 && CountKind([r, r], ids, Unresolved) == 0;
    forall s | s in [r, r, r] ensures PairOf(s) != {1, 3} {
      assert 2 in PairOf(s) && 2 !in {1, 3};
    }
    assert !Related([r, r, r], 1, 3);
  }

  /** Some relation touches observation o. */
  ghost predicate IsCompared(o: Id, relations: seq<Relation>) {
    exists r :: r in relations && (r.left == o || r.right == o)
  }

  lemma TouchedMeans(obs: seq<Id>, relations: seq<Relation>)
    ensures forall o :: o in obs ==> (o in Touched(relations, IdSet(obs)) <==> IsCompared(o, relations))
    ensures Touched(relations, IdSet(obs)) <= IdSet(obs)
  {
  }

  lemma ComparedCounts(obs: seq<Id>, relations: seq<Relation>)
    ensures var ids := IdSet(obs); var touched := Touched(relations, ids);
            && (|touched| == 0 <==> forall o :: o in obs ==> !IsCompared(o, relations))
            && (|touched| < |ids| <==> exists o :: o in obs && !IsCompared(o, relations))
  {
    var ids := IdSet(obs);
    var touched := Touched(relations, ids);
    TouchedMeans(obs, relations);
    SubsetSize(touched, ids);
    if x :| x in touched {
      assert x in obs;
    }
    if touched != ids {
      var o :| o in ids && o !in touched;
    }
  }

  /** A relation of some kind touches an observation cited, so one has been compared. */
  lemma KindIsComparison(obs: seq<Id>, relations: seq<Relation>, kind: Kind)
    requires SomeOfKind(obs, relations, kind)
    ensures exists o :: o in obs && IsCompared(o, relations)
  {
    var r :| r in relations && Touches(r, IdSet(obs)) && r.kind == kind;
    var o := if r.left in IdSet(obs) then r.left else r.right;
    assert o in obs && IsCompared(o, relations);
  }

  /** A question is reviewed exactly when it cites something, some relation touches each
      observation it cites, and none of those relations is unresolved or contradicting; and
      what each of the other statuses says is just as exact. */
  lemma QuestionStatusMeans(obs: seq<Id>, relations: seq<Relation>)
    ensures var status := QuestionStatusFor(obs, relations);
            var disputed, open := SomeOfKind(obs, relations, Contradicts), SomeOfKind(obs, relations, Unresolved);
            var all := forall o :: o in obs ==> IsCompared(o, relations);
            var none := forall o :: o in obs ==> !IsCompared(o, relations);
            && (status == Reviewed <==> obs != [] && all && !disputed && !open)
            && (status == NothingCited <==> obs == [])
            && (status == NotCompared <==> obs != [] && none)
            && (status == Conflicted <==> disputed)
            && (status == PartiallyCompared <==> !none && !disputed && (!all || open))
  {
    var ids := IdSet(obs);
    CountKindMeans(relations, ids, Contradicts);
    CountKindMeans(relations, ids, Unresolved);
    ComparedCounts(obs, relations);
    if SomeOfKind(obs, relations, Contradicts) {
      KindIsComparison(obs, relations, Contradicts);
    }
    if obs != [] {
      assert obs[0] in obs;
    }
  }

  // ---- The counts, spelled out -------------------------------------------------------------

  ghost function OfKindAt(relations: seq<Relation>, ids: set<Id>, kind: Kind): set<int> {
    set k | 0 <= k < |relations| && relations[k].kind == kind && (relations[k].left in ids || relations[k].right in ids)
  }

  ghost function InsideAt(relations: seq<Relation>, ids: set<Id>): set<int> {
    set k | 0 <= k < |relations| && relations[k].left in ids && relations[k].right in ids
  }

  /** The relations of a kind that touch one of the observations are counted once each, and so
      are those between two of them. */
  lemma {:induction false} CountsAre(relations: seq<Relation>, ids: set<Id>, kind: Kind)
    ensures CountKind(relations, ids, kind) == |OfKindAt(relations, ids, kind)|
    ensures CountInside(relations, ids) == |InsideAt(relations, ids)|
  {
    if relations == [] {
      assert OfKindAt(relations, ids, kind) == {} && InsideAt(relations, ids) == {};
    } else {
      CountsAre(relations[..|relations| - 1], ids, kind);
      OneMoreAt(relations, ids, kind);
      OneMoreInside(relations, ids);
    }
  }

  lemma {:induction false} TwicePossible(n: nat)
    ensures 2 * Possible(n) == n * MaxInt(n - 1, 0)
  {
    if n > 1 {
      TwicePossible(n - 1);
      assert n * (n - 1) == (n - 1) * (n - 2) + 2 * (n - 1);
    }
  }

  /** A record's status for any relations at all, repeated or not: it goes by how many lie
      between two observations cited, against n(n-1)/2. */
  lemma RecordStatusCounts(obs: seq<Id>, relations: seq<Relation>)
    ensures var status, n := RecordStatusFor(obs, relations), |obs|;
            var inside := |InsideAt(relations, set o | o in obs)|;
            var disputed := exists r :: r in relations && r.kind == Contradicts && (r.left in obs || r.right in obs);
            var open := exists r :: r in relations && r.kind == Unresolved && (r.left in obs || r.right in obs);
            && (status == NoEvidence <==> n == 0)
            && (status == ContradictionFound <==> n > 0 && disputed)
            && (status == NeedsCorroboration <==> n == 1 && !disputed)
            && (status == HasUnresolved <==> n > 1 && !disputed && open)
            && (status == ReviewIncomplete <==> n > 1 && !disputed && !open && 2 * inside < n * (n - 1))
            && (status == Covered <==> n > 1 && !disputed && !open && 2 * inside >= n * (n - 1))
  {
    var ids := IdSet(obs);
    CountKindMeans(relations, ids, Contradicts);
    CountKindMeans(relations, ids, Unresolved);
    CountsAre(relations, ids, Unresolved);
    CountsAre(relations, ids, Contradicts);
    TwicePossible(|obs|);
  }

  lemma OneMoreAt(relations: seq<Relation>, ids: set<Id>, kind: Kind)
    requires relations != []
    ensures var n := |relations| - 1; var r := relations[n];
            |OfKindAt(relations, ids, kind)| == |OfKindAt(relations[..n], ids, kind)|
              + if r.kind == kind && (r.left in ids || r.right in ids) then 1 else 0
  {
    var n := |relations| - 1;
    var r, all, front := relations[n], OfKindAt(relations, ids, kind), OfKindAt(relations[..n], ids, kind);
    if r.kind == kind && (r.left in ids || r.right in ids) {
      assert all == front + {n};
    } else {
      assert all == front;
    }
  }

  lemma OneMoreInside(relations: seq<Relation>, ids: set<Id>)
    requires relations != []
    ensures var n := |relations| - 1; var r := relations[n];
            |InsideAt(relations, ids)| == |InsideAt(relations[..n], ids)|
              + if r.left in ids && r.right in ids then 1 else 0
  {
    var n := |relations| - 1;
    var r, all, front := relations[n], InsideAt(relations, ids), InsideAt(relations[..n], ids);
    if r.left in ids && r.right in ids {
      assert all == front + {n};
    } else {
      assert all == front;
    }
  }
}
