/** root/changes.go: what changed between two runs, as a patch from the older run's values
    to the newer's. */
module Changes {
  import opened Collections

  datatype ObservedValue = ObservedValue(subjectKind: string, subjectValue: string, field: string, value: string,
                                         observedAt: int)

  datatype Snapshot = Snapshot(values: map<string, ObservedValue>, subjects: set<string>)

  /** The target and the two runs a comparison is about, as every change repeats them. */
  datatype Comparison = Comparison(targetID: string, targetName: string, currentRunID: string, previousRunID: string,
                                   changedAt: string)

  datatype Change = Change(
    changeID: string, kind: string, about: Comparison,
    subjectKind: string, subjectValue: string, field: string,
    previousValue: string, currentValue: string, summary: string)

  const NOTHING: ObservedValue := ObservedValue("", "", "", "", 0)

  function ObservationKey(kind: string, value: string, field: string): string {
    kind + "\0" + value + "\0" + field
  }

  function SubjectKey(kind: string, value: string): string {
    kind + "\0" + value
  }

  function KeyOf(v: ObservedValue): string {
    ObservationKey(v.subjectKind, v.subjectValue, v.field)
  }

  function SubjectOf(v: ObservedValue): string {
    SubjectKey(v.subjectKind, v.subjectValue)
  }

  predicate NulFree(v: ObservedValue) {
    '\0' !in v.subjectKind && '\0' !in v.subjectValue
  }

  function BeforeNul(s: string): string {
    if s == [] || s[0] == '\0' then [] else [s[0]] + BeforeNul(s[1..])
  }

  lemma {:induction false} BeforeNulIs(a: string, x: string)
    requires '\0' !in a
    ensures BeforeNul(a + "\0" + x) == a
  {
    var s := a + "\0" + x;
    if a == [] {
      assert s[0] == '\0';
    } else {
      assert s[0] == a[0] && s[1..] == a[1..] + "\0" + x;
      BeforeNulIs(a[1..], x);
    }
  }

  lemma SplitAtNul(a: string, x: string, b: string, y: string)
    requires '\0' !in a && '\0' !in b && a + "\0" + x == b + "\0" + y
    ensures a == b && x == y
  {
    BeforeNulIs(a, x);
    BeforeNulIs(b, y);
    assert (a + "\0" + x)[|a| + 1..] == x && (b + "\0" + y)[|b| + 1..] == y;
  }

  /** Without NULs in the subject, a key says which subject and field it is of. */
  lemma KeyIsInjective(u: ObservedValue, v: ObservedValue)
    requires NulFree(u) && NulFree(v) && KeyOf(u) == KeyOf(v)
    ensures u.subjectKind == v.subjectKind && u.subjectValue == v.subjectValue && u.field == v.field
  {
    var x, y := u.subjectValue + "\0" + u.field, v.subjectValue + "\0" + v.field;
    assert KeyOf(u) == u.subjectKind + "\0" + x && KeyOf(v) == v.subjectKind + "\0" + y;
    SplitAtNul(u.subjectKind, x, v.subjectKind, y);
    SplitAtNul(u.subjectValue, u.field, v.subjectValue, v.field);
  }

  /** A snapshot as the reader builds one. */
  ghost predicate WellFormed(s: Snapshot) {
    forall k :: k in s.values ==>
      k == KeyOf(s.values[k]) && NulFree(s.values[k]) && SubjectOf(s.values[k]) in s.subjects
  }

  function MakeChange(about: Comparison, kind: string, current: ObservedValue, previous: ObservedValue,
                      summary: string): Change {
    var v := if current.subjectValue == "" then previous else current;
    Change(about.currentRunID + ":" + kind + ":" + v.subjectKind + ":" + v.subjectValue + ":" + v.field,
           kind, about, v.subjectKind, v.subjectValue, v.field, previous.value, current.value, summary)
  }

  // ---- The diff ------------------------------------------------------------------------

  predicate Added(now: Snapshot, before: Snapshot, key: string) {
    key in now.values && key !in before.values
  }

  predicate Changed(now: Snapshot, before: Snapshot, key: string) {
    key in now.values && key in before.values && before.values[key].value != now.values[key].value
  }

  /** Missing now, of a subject that was measured again. */
  predicate Gone(now: Snapshot, before: Snapshot, key: string) {
    key in before.values && key !in now.values && SubjectOf(before.values[key]) in now.subjects
  }

  function ChangeAt(about: Comparison, now: Snapshot, before: Snapshot, key: string): Change
    requires Added(now, before, key) || Changed(now, before, key) || Gone(now, before, key)
  {
    if key !in now.values then
      MakeChange(about, "gone", NOTHING, before.values[key],
                 before.values[key].field + " stopped being reported; the subject was measured again")
    else if key !in before.values then
      MakeChange(about, "added", now.values[key], NOTHING,
                 if SubjectOf(now.values[key]) in before.subjects
                 then now.values[key].field + " answered for the first time"
                 else "new subject observed")
    else
      MakeChange(about, "changed", now.values[key], before.values[key], now.values[key].field + " changed")
  }

  /** out holds one change for each of these keys, in this order, and these keys are all
      the keys that differ. */
  ghost predicate DiffAlong(about: Comparison, now: Snapshot, before: Snapshot, out: seq<Change>, keys: seq<string>,
                            seen: set<string>) {
    && |out| == |keys|
    && (forall i, j :: 0 <= i < j < |keys| ==> keys[i] != keys[j])
    && (forall k :: k in keys <==>
          k in seen && (Added(now, before, k) || Changed(now, before, k) || Gone(now, before, k)))
    && (forall i :: 0 <= i < |keys| ==>
          keys[i] in keys && out[i] == ChangeAt(about, now, before, keys[i]))
  }

  /** One change for each key that differs between the runs, and no other. */
  ghost predicate IsDiff(about: Comparison, now: Snapshot, before: Snapshot, out: seq<Change>) {
    exists keys :: DiffAlong(about, now, before, out, keys, now.values.Keys + before.values.Keys)
  }

  lemma DiffSkips(about: Comparison, now: Snapshot, before: Snapshot, out: seq<Change>, keys: seq<string>,
                  seen: set<string>, key: string)
    requires DiffAlong(about, now, before, out, keys, seen)
    requires !Added(now, before, key) && !Changed(now, before, key) && !Gone(now, before, key)
    ensures DiffAlong(about, now, before, out, keys, seen + {key})
  {
  }

  lemma DiffTakes(about: Comparison, now: Snapshot, before: Snapshot, out: seq<Change>, keys: seq<string>,
                  seen: set<string>, key: string)
    requires DiffAlong(about, now, before, out, keys, seen) && key !in seen
    requires Added(now, before, key) || Changed(now, before, key) || Gone(now, before, key)
    ensures DiffAlong(about, now, before, out + [ChangeAt(about, now, before, key)], keys + [key], seen + {key})
  {
    var longer := keys + [key];
    assert forall i :: 0 <= i < |keys| ==> longer[i] == keys[i];
    assert key !in keys;
  }

  method DiffRunSnapshots(about: Comparison, now: Snapshot, before: Snapshot) returns (out: seq<Change>)
    ensures IsDiff(about, now, before, out)
  {
    out := [];
    ghost var keys: seq<string> := [];
    var left := now.values.Keys;
    while left != {}
      invariant left <= now.values.Keys
      invariant DiffAlong(about, now, before, out, keys, now.values.Keys - left)
      decreases left
    {
      var key :| key in left;
      ghost var seen := now.values.Keys - left;
      left := left - {key};
      assert now.values.Keys - left == seen + {key};
      var value := now.values[key];
      if key !in before.values {
        var summary := "new subject observed";
        if SubjectKey(value.subjectKind, value.subjectValue) in before.subjects {
          summary := value.field + " answered for the first time";
        }
        DiffTakes(about, now, before, out, keys, seen, key);
        out := out + [MakeChange(about, "added", value, NOTHING, summary)];
        keys := keys + [key];
        continue;
      }
      var was := before.values[key];
      if was.value != value.value {
        DiffTakes(about, now, before, out, keys, seen, key);
        out := out + [MakeChange(about, "changed", value, was, value.field + " changed")];
        keys := keys + [key];
      } else {
        DiffSkips(about, now, before, out, keys, seen, key);
      }
    }
    assert now.values.Keys - left == now.values.Keys;
    out := GoneRows(about, now, before, out, keys);
  }

  /** The second loop: rows of the older run that the newer does not have. */
  method GoneRows(about: Comparison, now: Snapshot, before: Snapshot, first: seq<Change>, ghost firstKeys: seq<string>)
    returns (out: seq<Change>)
    requires DiffAlong(about, now, before, first, firstKeys, now.values.Keys)
    ensures IsDiff(about, now, before, out)
  {
    out := first;
    ghost var keys := firstKeys;
    var left := before.values.Keys;
    ghost var seen := now.values.Keys;
    while left != {}
      invariant left <= before.values.Keys
      invariant seen == now.values.Keys + (before.values.Keys - left)
      invariant DiffAlong(about, now, before, out, keys, seen)
      decreases left
    {
      var key :| key in left;
      var was := before.values[key];
      left := left - {key};
      if key in now.values {
        seen := seen + {key};
        continue;
      }
      if SubjectKey(was.subjectKind, was.subjectValue) !in now.subjects {
        DiffSkips(about, now, before, out, keys, seen, key);
        seen := seen + {key};
        continue;
      }
      DiffTakes(about, now, before, out, keys, seen, key);
      var summary := was.field + " stopped being reported; the subject was measured again";
      out := out + [MakeChange(about, "gone", NOTHING, was, summary)];
      keys, seen := keys + [key], seen + {key};
    }
    assert seen == now.values.Keys + before.values.Keys;
  }

  // ---- The diff as a patch -------------------------------------------------------------

  ghost function Values(s: Snapshot): map<string, string> {
    map k | k in s.values :: s.values[k].value
  }

  function LabelOf(c: Change): string {
    ObservationKey(c.subjectKind, c.subjectValue, c.field)
  }

  /** What a reader makes of a change: set the row it names, or drop it. */
  ghost function ApplyOne(c: Change, to: map<string, string>): map<string, string> {
    if c.kind == "gone" then to - {LabelOf(c)} else to[LabelOf(c) := c.currentValue]
  }

  ghost function ApplyAll(cs: seq<Change>, to: map<string, string>): map<string, string> {
    if cs == [] then to else ApplyOne(cs[|cs| - 1], ApplyAll(cs[..|cs| - 1], to))
  }

  /** The newer values, and the older rows whose subject was not measured again. */
  ghost function Target(now: Snapshot, before: Snapshot): map<string, string> {
    map k | k in now.values.Keys + before.values.Keys
        && (k in now.values || SubjectOf(before.values[k]) !in now.subjects)
      :: if k in now.values then now.values[k].value else before.values[k].value
  }

  /** An added row makeChange cannot label: it takes an empty subject for no row at all. */
  ghost predicate Unlabelled(now: Snapshot, before: Snapshot, key: string) {
    Added(now, before, key) && now.values[key].subjectValue == ""
        && (now.values[key].subjectKind != "" || now.values[key].field != "")
  }

  lemma NothingKey(k: string, f: string)
    requires '\0' !in k
    ensures ObservationKey(k, "", f) == ObservationKey("", "", "") <==> k == "" && f == ""
  {
    assert |ObservationKey("", "", "")| == 2 && |ObservationKey(k, "", f)| == |k| + |f| + 2;
  }

  /** Every other change is labelled with its own row, and sets or drops it as it should. */
  lemma LabelIsKey(about: Comparison, now: Snapshot, before: Snapshot, key: string)
    requires WellFormed(now) && WellFormed(before)
    requires Added(now, before, key) || Changed(now, before, key) || Gone(now, before, key)
    ensures var c := ChangeAt(about, now, before, key);
            && (LabelOf(c) == key <==> !Unlabelled(now, before, key))
            && (Unlabelled(now, before, key) ==> LabelOf(c) == ObservationKey("", "", ""))
            && (c.kind == "gone" <==> key !in now.values)
            && (key in now.values ==> c.currentValue == now.values[key].value)
  {
    if key in now.values && key in before.values {
      KeyIsInjective(now.values[key], before.values[key]);
    } else if key in now.values {
      NothingKey(now.values[key].subjectKind, now.values[key].field);
    }
  }

  /** What a list of changes leaves of row k, when just one of them, the m-th, names k. */
  lemma {:induction false} AppliedOnce(cs: seq<Change>, to: map<string, string>, k: string, m: nat)
    requires m < |cs| && LabelOf(cs[m]) == k && forall i :: 0 <= i < |cs| && i != m ==> LabelOf(cs[i]) != k
    ensures k in ApplyAll(cs, to) <==> cs[m].kind != "gone"
    ensures cs[m].kind != "gone" ==> ApplyAll(cs, to)[k] == cs[m].currentValue
  {
    var n := |cs| - 1;
    if m < n {
      AppliedOnce(cs[..n], to, k, m);
    }
  }

  lemma {:induction false} NotApplied(cs: seq<Change>, to: map<string, string>, k: string)
    requires forall i :: 0 <= i < |cs| ==> LabelOf(cs[i]) != k
    ensures k in ApplyAll(cs, to) <==> k in to
    ensures k in to ==> ApplyAll(cs, to)[k] == to[k]
  {
    if cs == [] {
    } else {
      NotApplied(cs[..|cs| - 1], to, k);
    }
  }

  lemma PatchedRow(about: Comparison, now: Snapshot, before: Snapshot, out: seq<Change>, keys: seq<string>, k: string)
    requires WellFormed(now) && WellFormed(before)
    requires DiffAlong(about, now, before, out, keys, now.values.Keys + before.values.Keys)
    requires forall i :: 0 <= i < |keys| ==> LabelOf(out[i]) == keys[i]
    ensures k in ApplyAll(out, Values(before)) <==> k in Target(now, before)
    ensures k in Target(now, before) ==> ApplyAll(out, Values(before))[k] == Target(now, before)[k]
  {
    if k in keys {
      var m :| 0 <= m < |keys| && keys[m] == k;
      AppliedOnce(out, Values(before), k, m);
      LabelIsKey(about, now, before, k);
    } else {
      NotApplied(out, Values(before), k);
    }
  }

  /** The diff is a correct patch exactly when it can label every row it adds: applied to
      the older values it gives the newer ones and, besides, exactly the older rows whose
      subject was not measured again. */
  lemma DiffIsPatch(about: Comparison, now: Snapshot, before: Snapshot, out: seq<Change>)
    requires WellFormed(now) && WellFormed(before) && IsDiff(about, now, before, out)
    ensures ApplyAll(out, Values(before)) == Target(now, before) <==> forall k :: k in now.values ==>
              !Unlabelled(now, before, k)
  {
    var keys :| DiffAlong(about, now, before, out, keys, now.values.Keys + before.values.Keys);
    PatchAlong(about, now, before, out, keys);
  }

  lemma PatchAlong(about: Comparison, now: Snapshot, before: Snapshot, out: seq<Change>, keys: seq<string>)
    requires WellFormed(now) && WellFormed(before)
    requires DiffAlong(about, now, before, out, keys, now.values.Keys + before.values.Keys)
    ensures ApplyAll(out, Values(before)) == Target(now, before) <==> forall k :: k in now.values ==>
              !Unlabelled(now, before, k)
  {
    if bad :| bad in now.values && Unlabelled(now, before, bad) {
      MislabelledIsLost(about, now, before, out, keys, bad);
    } else {
      LabelsAreKeys(about, now, before, out, keys);
      LabelledIsPatch(about, now, before, out, keys);
    }
  }

  lemma LabelledIsPatch(about: Comparison, now: Snapshot, before: Snapshot, out: seq<Change>, keys: seq<string>)
    requires WellFormed(now) && WellFormed(before)
    requires DiffAlong(about, now, before, out, keys, now.values.Keys + before.values.Keys)
    requires forall i :: 0 <= i < |keys| ==> LabelOf(out[i]) == keys[i]
    ensures ApplyAll(out, Values(before)) == Target(now, before)
  {
    var patched, target := ApplyAll(out, Values(before)), Target(now, before);
    forall k
      ensures k in patched <==> k in target
      ensures k in target ==> patched[k] == target[k]
    {
      PatchedRow(about, now, before, out, keys, k);
    }
  }

  lemma LabelsAreKeys(about: Comparison, now: Snapshot, before: Snapshot, out: seq<Change>, keys: seq<string>)
    requires WellFormed(now) && WellFormed(before) && forall k :: k in now.values ==> !Unlabelled(now, before, k)
    requires DiffAlong(about, now, before, out, keys, now.values.Keys + before.values.Keys)
    ensures forall i :: 0 <= i < |keys| ==> LabelOf(out[i]) == keys[i]
  {
    forall i | 0 <= i < |keys| ensures LabelOf(out[i]) == keys[i] {
      LabelIsKey(about, now, before, keys[i]);
    }
  }

  lemma MislabelledIsLost(about: Comparison, now: Snapshot, before: Snapshot, out: seq<Change>, keys: seq<string>,
                          bad: string)
    requires WellFormed(now) && WellFormed(before) && bad in now.values && Unlabelled(now, before, bad)
    requires DiffAlong(about, now, before, out, keys, now.values.Keys + before.values.Keys)
    ensures bad in Target(now, before) && bad !in ApplyAll(out, Values(before))
  {
    NothingKey(now.values[bad].subjectKind, now.values[bad].field);
    forall i | 0 <= i < |keys| ensures LabelOf(out[i]) != bad {
      LabelIsKey(about, now, before, keys[i]);
    }
    NotApplied(out, Values(before), bad);
  }

  /** There are no changes exactly when the newer run repeats every value and leaves out
      only rows of subjects it did not measure. */
  lemma NoChangesMeans(about: Comparison, now: Snapshot, before: Snapshot, out: seq<Change>)
    requires IsDiff(about, now, before, out)
    ensures out == [] <==>
            && (forall k :: k in now.values ==> k in before.values && before.values[k].value == now.values[k].value)
            && (forall k :: k in before.values && k !in now.values ==> SubjectOf(before.values[k]) !in now.subjects)
  {
    var keys :| DiffAlong(about, now, before, out, keys, now.values.Keys + before.values.Keys);
    QuietAlong(about, now, before, out, keys);
  }

  lemma QuietAlong(about: Comparison, now: Snapshot, before: Snapshot, out: seq<Change>, keys: seq<string>)
    requires DiffAlong(about, now, before, out, keys, now.values.Keys + before.values.Keys)
    ensures out == [] <==>
            && (forall k :: k in now.values ==> k in before.values && before.values[k].value == now.values[k].value)
            && (forall k :: k in before.values && k !in now.values ==> SubjectOf(before.values[k]) !in now.subjects)
  {
    if out != [] {
      assert keys[0] in keys;
    }
  }

  // ---- What the changes say --------------------------------------------------------------------

  /** Change c reports v, under this kind and between these values: its subject and field, an
      identifier made of them, the values before and after, and a summary. */
  ghost predicate Reports(c: Change, about: Comparison, kind: string, v: ObservedValue,
                          from: string, to: string, summary: string) {
    && c.kind == kind && c.about == about
    && c.subjectKind == v.subjectKind && c.subjectValue == v.subjectValue && c.field == v.field
    && c.changeID == about.currentRunID + ":" + kind + ":" + v.subjectKind + ":" + v.subjectValue + ":" + v.field
    && c.previousValue == from && c.currentValue == to && c.summary == summary
  }

  /** A row the older run does not have is reported as added, with no value before, and as new
      or as answered for the first time by whether the older run saw its subject. */
  lemma AddedSays(about: Comparison, now: Snapshot, before: Snapshot, out: seq<Change>, key: string)
    requires IsDiff(about, now, before, out) && key in now.values && key !in before.values
    requires now.values[key].subjectValue != ""
    ensures var v := now.values[key];
            exists i :: 0 <= i < |out| && Reports(out[i], about, "added", v, "", v.value,
              if v.subjectKind + "\0" + v.subjectValue in before.subjects then v.field + " answered for the first time"
              else "new subject observed")
  {
    var i := ChangeFor(about, now, before, out, key);
  }

  /** A row both runs have with different values is reported as changed, with both of them. */
  lemma ChangedSays(about: Comparison, now: Snapshot, before: Snapshot, out: seq<Change>, key: string)
    requires IsDiff(about, now, before, out) && key in now.values && key in before.values
    requires now.values[key].value != before.values[key].value && now.values[key].subjectValue != ""
    ensures var v := now.values[key];
            exists i :: 0 <= i < |out| &&
              Reports(out[i], about, "changed", v, before.values[key].value, v.value, v.field + " changed")
  {
    var i := ChangeFor(about, now, before, out, key);
  }

  /** A row the newer run does not have though it measured the subject is reported as gone,
      with the value it had and none now. */
  lemma GoneSays(about: Comparison, now: Snapshot, before: Snapshot, out: seq<Change>, key: string)
    requires IsDiff(about, now, before, out) && key in before.values && key !in now.values
    requires before.values[key].subjectKind + "\0" + before.values[key].subjectValue in now.subjects
    ensures var v := before.values[key];
            exists i :: 0 <= i < |out| && Reports(out[i], about, "gone", v, v.value, "",
              v.field + " stopped being reported; the subject was measured again")
  {
    var i := ChangeFor(about, now, before, out, key);
  }

  lemma ChangeFor(about: Comparison, now: Snapshot, before: Snapshot, out: seq<Change>, key: string) returns (i: nat)
    requires IsDiff(about, now, before, out)
    requires Added(now, before, key) || Changed(now, before, key) || Gone(now, before, key)
    ensures i < |out| && out[i] == ChangeAt(about, now, before, key)
  {
    var keys :| DiffAlong(about, now, before, out, keys, now.values.Keys + before.values.Keys);
    assert key in keys;
    i :| 0 <= i < |keys| && keys[i] == key;
  }

  ghost function AddedKeys(now: Snapshot, before: Snapshot): set<string> {
    set k | k in now.values && k !in before.values
  }

  ghost function ChangedKeys(now: Snapshot, before: Snapshot): set<string> {
    set k | k in now.values && k in before.values && now.values[k].value != before.values[k].value
  }

  ghost function GoneKeys(now: Snapshot, before: Snapshot): set<string> {
    set k | k in before.values && k !in now.values
            && before.values[k].subjectKind + "\0" + before.values[k].subjectValue in now.subjects
  }

  /** There are as many changes as rows added, changed, or gone from a subject measured again. */
  lemma DiffCounts(about: Comparison, now: Snapshot, before: Snapshot, out: seq<Change>)
    requires IsDiff(about, now, before, out)
    ensures |out| == |AddedKeys(now, before)| + |ChangedKeys(now, before)| + |GoneKeys(now, before)|
  {
    var keys :| DiffAlong(about, now, before, out, keys, now.values.Keys + before.values.Keys);
    var added, changed, gone := AddedKeys(now, before), ChangedKeys(now, before), GoneKeys(now, before);
    forall k ensures k in keys <==> k in added + changed + gone {
      InOneOf(now, before, k);
    }
    CountApart(added, changed, gone);
    NoDupCount(keys, added + changed + gone);
  }

  lemma InOneOf(now: Snapshot, before: Snapshot, k: string)
    ensures Added(now, before, k) <==> k in AddedKeys(now, before)
    ensures Changed(now, before, k) <==> k in ChangedKeys(now, before)
    ensures Gone(now, before, k) <==> k in GoneKeys(now, before)
  {
  }

  lemma CountApart<T>(a: set<T>, b: set<T>, c: set<T>)
    requires a !! b !! c
    ensures |a + b + c| == |a| + |b| + |c|
  {
  }

  /** And, of rows with a subject, no two changes are of the same row. */
  lemma OneChangeEach(about: Comparison, now: Snapshot, before: Snapshot, out: seq<Change>, i: nat, j: nat)
    requires WellFormed(now) && WellFormed(before) && IsDiff(about, now, before, out)
    requires forall k :: k in now.values ==> now.values[k].subjectValue != ""
    requires i < j < |out|
    ensures out[i].subjectKind != out[j].subjectKind || out[i].subjectValue != out[j].subjectValue
            || out[i].field != out[j].field
  {
    var keys :| DiffAlong(about, now, before, out, keys, now.values.Keys + before.values.Keys);
    LabelsAreKeys(about, now, before, out, keys);
    assert LabelOf(out[i]) == keys[i] && LabelOf(out[j]) == keys[j];
  }

  // ---- Building a snapshot -----------------------------------------------------------------

  function Flatten(invocations: seq<seq<ObservedValue>>): seq<ObservedValue> {
    if invocations == [] then [] else Flatten(invocations[..|invocations| - 1]) + invocations[|invocations| - 1]
  }

  /** The latest of the rows with this key, and the first among the latest. */
  ghost predicate LatestOf(rows: seq<ObservedValue>, key: string, v: ObservedValue) {
    exists m :: 0 <= m < |rows| && rows[m] == v && KeyOf(v) == key
      && (forall j :: 0 <= j < |rows| && KeyOf(rows[j]) == key ==> rows[j].observedAt <= v.observedAt)
      && (forall j :: 0 <= j < m && KeyOf(rows[j]) == key ==> rows[j].observedAt < v.observedAt)
  }

  ghost predicate HasKey(rows: seq<ObservedValue>, key: string) {
    exists j :: 0 <= j < |rows| && KeyOf(rows[j]) == key
  }

  ghost predicate HasSubject(rows: seq<ObservedValue>, subject: string) {
    exists j :: 0 <= j < |rows| && SubjectOf(rows[j]) == subject
  }

  ghost predicate SnapshotOf(rows: seq<ObservedValue>, s: Snapshot) {
    && (forall k :: k in s.values <==> HasKey(rows, k))
    && (forall k :: k in s.values ==> LatestOf(rows, k, s.values[k]))
    && (forall t :: t in s.subjects <==> HasSubject(rows, t))
  }

  ghost function TakeRow(s: Snapshot, row: ObservedValue): Snapshot {
    Snapshot(if KeyOf(row) !in s.values || row.observedAt > s.values[KeyOf(row)].observedAt
        then s.values[KeyOf(row) := row] else s.values,
             s.subjects + {SubjectOf(row)})
  }

  method TakeSnapshot(invocations: seq<seq<ObservedValue>>) returns (s: Snapshot)
    ensures SnapshotOf(Flatten(invocations), s)
  {
    s := Snapshot(map[], {});
    for i := 0 to |invocations|
      invariant SnapshotOf(Flatten(invocations[..i]), s)
    {
      s := TakeRows(Flatten(invocations[..i]), s, invocations[i]);
      assert invocations[..i + 1][..i] == invocations[..i];
    }
    assert invocations[..|invocations|] == invocations;
  }

  /** The rows of one invocation, after those of the invocations before it. */
  method TakeRows(ghost done: seq<ObservedValue>, before: Snapshot, rows: seq<ObservedValue>) returns (s: Snapshot)
    requires SnapshotOf(done, before)
    ensures SnapshotOf(done + rows, s)
  {
    s := before;
    ghost var upto := done;
    for j := 0 to |rows|
      invariant upto == done + rows[..j]
      invariant SnapshotOf(upto, s)
    {
      TakeRowKeeps(upto, s, rows[j]);
      s := TakeOne(s, rows[j]);
      upto := upto + [rows[j]];
    }
    assert rows[..|rows|] == rows;
  }

  method TakeOne(s: Snapshot, row: ObservedValue) returns (t: Snapshot)
    ensures t == TakeRow(s, row)
  {
    t := s.(subjects := s.subjects + {SubjectKey(row.subjectKind, row.subjectValue)});
    var key := ObservationKey(row.subjectKind, row.subjectValue, row.field);
    if key !in t.values || row.observedAt > t.values[key].observedAt {
      t := t.(values := t.values[key := row]);
    }
  }

  lemma MoreKeys(rows: seq<ObservedValue>, row: ObservedValue)
    ensures forall k :: HasKey(rows + [row], k) <==> HasKey(rows, k) || k == KeyOf(row)
    ensures forall t :: HasSubject(rows + [row], t) <==> HasSubject(rows, t) || t == SubjectOf(row)
  {
    var more := rows + [row];
    assert forall j :: 0 <= j < |rows| ==> more[j] == rows[j];
    assert more[|rows|] == row;
  }

  lemma StillLatest(rows: seq<ObservedValue>, row: ObservedValue, k: string, v: ObservedValue)
    requires LatestOf(rows, k, v) && (KeyOf(row) == k ==> row.observedAt <= v.observedAt)
    ensures LatestOf(rows + [row], k, v)
  {
    var m :| 0 <= m < |rows| && rows[m] == v && KeyOf(v) == k
             && (forall j :: 0 <= j < |rows| && KeyOf(rows[j]) == k ==> rows[j].observedAt <= v.observedAt)
             && (forall j :: 0 <= j < m && KeyOf(rows[j]) == k ==> rows[j].observedAt < v.observedAt);
    var more := rows + [row];
    assert more[m] == v;
    assert forall j :: 0 <= j < |rows| ==> more[j] == rows[j];
  }

  lemma NowLatest(rows: seq<ObservedValue>, row: ObservedValue)
    requires forall j :: 0 <= j < |rows| && KeyOf(rows[j]) == KeyOf(row) ==> rows[j].observedAt < row.observedAt
    ensures LatestOf(rows + [row], KeyOf(row), row)
  {
    var more := rows + [row];
    assert more[|rows|] == row;
    assert forall j :: 0 <= j < |rows| ==> more[j] == rows[j];
  }

  lemma TakeRowKeeps(rows: seq<ObservedValue>, s: Snapshot, row: ObservedValue)
    requires SnapshotOf(rows, s)
    ensures SnapshotOf(rows + [row], TakeRow(s, row))
  {
    var t, key := TakeRow(s, row), KeyOf(row);
    MoreKeys(rows, row);
    forall k | k in t.values ensures LatestOf(rows + [row], k, t.values[k]) {
      if k == key && (key !in s.values || row.observedAt > s.values[key].observedAt) {
        if key in s.values {
          assert LatestOf(rows, key, s.values[key]);
        } else {
          assert !HasKey(rows, key);
        }
        NowLatest(rows, row);
      } else {
        StillLatest(rows, row, k, s.values[k]);
      }
    }
  }

  /** What the reader builds is fit for the diff. */
  lemma SnapshotIsWellFormed(rows: seq<ObservedValue>, s: Snapshot)
    requires SnapshotOf(rows, s) && forall j :: 0 <= j < |rows| ==> NulFree(rows[j])
    ensures WellFormed(s)
  {
    forall k | k in s.values ensures k == KeyOf(s.values[k]) && NulFree(s.values[k])
        && SubjectOf(s.values[k]) in s.subjects {
      assert LatestOf(rows, k, s.values[k]);
    }
  }

  /** What the store accepts: a subject that is not empty, and text without NUL. */
  ghost predicate Storable(v: ObservedValue) {
    NulFree(v) && v.subjectValue != ""
  }

  /** Between two runs as the reader builds them from stored observations the diff is a
      correct patch, with nothing more to ask. */
  lemma StoredDiffIsPatch(about: Comparison, rowsNow: seq<ObservedValue>, rowsBefore: seq<ObservedValue>,
                          now: Snapshot, before: Snapshot, out: seq<Change>)
    requires SnapshotOf(rowsNow, now) && SnapshotOf(rowsBefore, before) && IsDiff(about, now, before, out)
    requires forall j :: 0 <= j < |rowsNow| ==> Storable(rowsNow[j])
    requires forall j :: 0 <= j < |rowsBefore| ==> Storable(rowsBefore[j])
    ensures ApplyAll(out, Values(before)) == Target(now, before)
  {
    SnapshotIsWellFormed(rowsNow, now);
    SnapshotIsWellFormed(rowsBefore, before);
    forall k | k in now.values ensures !Unlabelled(now, before, k) {
      assert LatestOf(rowsNow, k, now.values[k]);
    }
    DiffIsPatch(about, now, before, out);
  }

  /** The diff alone, given an added row with an empty subject, labels it as no row. */
  lemma EmptySubjectIsMislabelled(about: Comparison)
    ensures var v := ObservedValue("host", "", "title", "x", 0);
            var now, before := Snapshot(map[KeyOf(v) := v], {SubjectOf(v)}), Snapshot(map[], {});
            var out := [ChangeAt(about, now, before, KeyOf(v))];
            && IsDiff(about, now, before, out) && LabelOf(out[0]) != KeyOf(v)
            && ApplyAll(out, Values(before)) != Target(now, before)
  {
    var v := ObservedValue("host", "", "title", "x", 0);
    var now, before := Snapshot(map[KeyOf(v) := v], {SubjectOf(v)}), Snapshot(map[], {});
    var out := [ChangeAt(about, now, before, KeyOf(v))];
    assert DiffAlong(about, now, before, out, [KeyOf(v)], now.values.Keys + before.values.Keys);
    assert Unlabelled(now, before, KeyOf(v));
    LabelIsKey(about, now, before, KeyOf(v));
    DiffIsPatch(about, now, before, out);
  }
}
