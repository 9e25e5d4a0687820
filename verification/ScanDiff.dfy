/** The diff of the two latest persisted scans (control-plane/app/rbac_service.py, diff_latest_scans). */
module ScanDiff {
  import opened Sequences
  import opened RbacGraph
  import opened Scoring
  import opened RbacService

  datatype Key = Key(ruleType: RuleType, owner: Option<string>, target: Option<string>)

  /** _finding_key: neither kinds nor namespaces are part of it. */
  function FindingKey(f: Finding): Key {
    Key(f.ruleType,
        if f.role.Some? then f.role.value.name else if f.account.Some? then f.account.value.name else None,
        if f.binding.Some? then f.binding.value.name else if f.workload.Some? then f.workload.value.name else None)
  }

  function KeysOf(findings: seq<Finding>): seq<Key> {
    if findings == [] then [] else KeysOf(Init(findings)) + [FindingKey(Last(findings))]
  }

  /** {_finding_key(f): f for f in findings}: a key keeps its first place and its last value. */
  function ByKey(findings: seq<Finding>): map<Key, Finding> {
    if findings == [] then map[] else ByKey(Init(findings))[FindingKey(Last(findings)) := Last(findings)]
  }

  /** The iteration order of that dict. */
  function KeyOrder(findings: seq<Finding>): seq<Key> {
    Distinct(KeysOf(findings))
  }

  datatype Change = Change(finding: Finding, previousSeverity: Severity)
  datatype Diff = Diff(added: seq<Finding>, resolved: seq<Finding>, severityChanged: seq<Change>, unchangedCount: nat)

  /** The findings of a dict whose key the other dict lacks. */
  function OnlyIn(keys: seq<Key>, here: map<Key, Finding>, there: map<Key, Finding>): seq<Finding>
    requires forall k :: k in keys ==> k in here
  {
    if keys == [] then []
    else
      var front := OnlyIn(Init(keys), here, there);
      if Last(keys) !in there then front + [here[Last(keys)]] else front
  }

  function Changes(keys: seq<Key>, latest: map<Key, Finding>, previous: map<Key, Finding>): seq<Change>
    requires forall k :: k in keys ==> k in latest
  {
    if keys == [] then []
    else
      var front, k := Changes(Init(keys), latest, previous), Last(keys);
      if k in previous && latest[k].severity != previous[k].severity
      then front + [Change(latest[k], previous[k].severity)] else front
  }

  function CountUnchanged(keys: seq<Key>, latest: map<Key, Finding>, previous: map<Key, Finding>): nat
    requires forall k :: k in keys ==> k in latest
  {
    if keys == [] then 0
    else
      var k := Last(keys);
      CountUnchanged(Init(keys), latest, previous)
      + if k in previous && latest[k].severity == previous[k].severity then 1 else 0
  }

  lemma {:induction false} KeysAreIndexed(findings: seq<Finding>)
    ensures forall k :: k in KeysOf(findings) <==> k in ByKey(findings)
    ensures forall k :: k in ByKey(findings) ==> FindingKey(ByKey(findings)[k]) == k
  {
    if findings != [] {
      KeysAreIndexed(Init(findings));
    }
  }

  lemma {:induction false} OrderIsIndexed(findings: seq<Finding>)
    ensures NoDuplicates(KeyOrder(findings))
    ensures forall k :: k in KeyOrder(findings) <==> k in ByKey(findings)
    ensures forall k :: k in ByKey(findings) ==> FindingKey(ByKey(findings)[k]) == k
  {
    KeysAreIndexed(findings);
    DistinctElements(KeysOf(findings));
  }

  function DiffOf(latest: seq<Finding>, previous: seq<Finding>): Diff {
    OrderIsIndexed(latest);
    OrderIsIndexed(previous);
    Diff(OnlyIn(KeyOrder(latest), ByKey(latest), ByKey(previous)),
         OnlyIn(KeyOrder(previous), ByKey(previous), ByKey(latest)),
         Changes(KeyOrder(latest), ByKey(latest), ByKey(previous)),
         CountUnchanged(KeyOrder(latest), ByKey(latest), ByKey(previous)))
  }

  /** Stored findings that are not a list count as none. */
  function Stored(findings: Option<seq<Finding>>): seq<Finding> {
    if findings.Some? then findings.value else []
  }

  /** diff_latest_scans; scans come newest first. */
  function DiffLatestScans(scans: seq<Option<seq<Finding>>>): Diff {
    if |scans| < 2 then Diff([], [], [], 0) else DiffOf(Stored(scans[0]), Stored(scans[1]))
  }

  // ---------------------------------------------------------------------
  // A diff is a patch
  // ---------------------------------------------------------------------

  /** What a scan says: its severity under each key. */
  function Severities(findings: seq<Finding>): map<Key, Severity> {
    map k | k in ByKey(findings) :: ByKey(findings)[k].severity
  }

  function Without(m: map<Key, Severity>, findings: seq<Finding>): map<Key, Severity> {
    m - (set k | k in KeysOf(findings))
  }

  function With(m: map<Key, Severity>, findings: seq<Finding>): map<Key, Severity> {
    if findings == [] then m
    else With(m, Init(findings))[FindingKey(Last(findings)) := Last(findings).severity]
  }

  function WithNew(m: map<Key, Severity>, changes: seq<Change>): map<Key, Severity> {
    if changes == [] then m
    else WithNew(m, Init(changes))[FindingKey(Last(changes).finding) := Last(changes).finding.severity]
  }

  function WithOld(m: map<Key, Severity>, changes: seq<Change>): map<Key, Severity> {
    if changes == [] then m
    else WithOld(m, Init(changes))[FindingKey(Last(changes).finding) := Last(changes).previousSeverity]
  }

  function Apply(m: map<Key, Severity>, d: Diff): map<Key, Severity> {
    WithNew(With(Without(m, d.resolved), d.added), d.severityChanged)
  }

  function Revert(m: map<Key, Severity>, d: Diff): map<Key, Severity> {
    WithOld(With(Without(m, d.added), d.resolved), d.severityChanged)
  }

  function At(m: map<Key, Severity>, k: Key): Option<Severity> {
    if k in m then Some(m[k]) else None
  }

  lemma SameAtEveryKey(m: map<Key, Severity>, n: map<Key, Severity>)
    requires forall k :: At(m, k) == At(n, k)
    ensures m == n
  {
    forall k ensures k in m <==> k in n {
      assert At(m, k) == At(n, k);
    }
    forall k | k in m ensures m[k] == n[k] {
      assert At(m, k) == At(n, k);
    }
  }

  ghost predicate Indexed(keys: seq<Key>, m: map<Key, Finding>) {
    && (forall k :: k in keys ==> k in m)
    && (forall k :: k in m ==> FindingKey(m[k]) == k)
  }

  lemma WithoutAt(m: map<Key, Severity>, keys: seq<Key>, here: map<Key, Finding>,
                                     there: map<Key, Finding>, k: Key)
    requires Indexed(keys, here)
    ensures At(Without(m, OnlyIn(keys, here, there)), k) == if k in keys && k !in there then None else At(m, k)
  {
    OnlyInKeys(keys, here, there, k);
  }

  lemma {:induction false} OnlyInKeys(keys: seq<Key>, here: map<Key, Finding>, there: map<Key, Finding>, k: Key)
    requires Indexed(keys, here)
    ensures k in KeysOf(OnlyIn(keys, here, there)) <==> k in keys && k !in there
  {
    hide FindingKey;
    if keys != [] {
      OnlyInKeys(Init(keys), here, there, k);
      if Last(keys) !in there {
        assert Init(OnlyIn(keys, here, there)) == OnlyIn(Init(keys), here, there);
      }
    }
  }

  lemma {:induction false} WithAt(m: map<Key, Severity>, keys: seq<Key>, here: map<Key, Finding>,
                                  there: map<Key, Finding>, k: Key)
    requires Indexed(keys, here)
    ensures At(With(m, OnlyIn(keys, here, there)), k) ==
            if k in keys && k !in there then Some(here[k].severity) else At(m, k)
  {
    hide FindingKey, With;
    if keys == [] {
      WithNothing(m);
    } else {
      WithAt(m, Init(keys), here, there, k);
      assert Last(keys) in keys;
      WithSnoc(m, OnlyIn(Init(keys), here, there), here[Last(keys)]);
    }
  }

  lemma WithNothing(m: map<Key, Severity>)
    ensures With(m, []) == m
  {
  }

  lemma WithSnoc(m: map<Key, Severity>, findings: seq<Finding>, f: Finding)
    ensures With(m, findings + [f]) == With(m, findings)[FindingKey(f) := f.severity]
  {
    assert Init(findings + [f]) == findings;
  }

  lemma {:induction false} ChangesAt(m: map<Key, Severity>, keys: seq<Key>, latest: map<Key, Finding>,
                                     previous: map<Key, Finding>, k: Key)
    requires Indexed(keys, latest)
    ensures var cs := Changes(keys, latest, previous);
            if k in keys && k in previous && latest[k].severity != previous[k].severity
            then At(WithNew(m, cs), k) == Some(latest[k].severity) && At(WithOld(m, cs), k) == Some(previous[k].severity)
            else At(WithNew(m, cs), k) == At(m, k) && At(WithOld(m, cs), k) == At(m, k)
  {
    hide FindingKey;
    if keys != [] {
      var front, cs, l := Changes(Init(keys), latest, previous), Changes(keys, latest, previous), Last(keys);
      ChangesAt(m, Init(keys), latest, previous, k);
      if l in previous && latest[l].severity != previous[l].severity {
        assert Init(cs) == front;
      }
    }
  }

  /** Applying the diff to what the previous scan said gives what the latest says. */
  lemma DiffIsAPatch(latest: seq<Finding>, previous: seq<Finding>)
    ensures Apply(Severities(previous), DiffOf(latest, previous)) == Severities(latest)
  {
    hide OnlyIn, Changes, CountUnchanged, With, WithNew, Without, ByKey, KeyOrder, FindingKey;
    OrderIsIndexed(latest);
    OrderIsIndexed(previous);
    var m, d := Severities(previous), DiffOf(latest, previous);
    forall k ensures At(Apply(m, d), k) == At(Severities(latest), k) {
      var kept := Without(m, d.resolved);
      WithoutAt(m, KeyOrder(previous), ByKey(previous), ByKey(latest), k);
      WithAt(kept, KeyOrder(latest), ByKey(latest), ByKey(previous), k);
      ChangesAt(With(kept, d.added), KeyOrder(latest), ByKey(latest), ByKey(previous), k);
    }
    SameAtEveryKey(Apply(m, d), Severities(latest));
  }

  /** The diff also holds what is needed to go back. */
  lemma DiffIsReversible(latest: seq<Finding>, previous: seq<Finding>)
    ensures Revert(Severities(latest), DiffOf(latest, previous)) == Severities(previous)
  {
    hide OnlyIn, Changes, CountUnchanged, With, WithOld, Without, ByKey, KeyOrder, FindingKey;
    OrderIsIndexed(latest);
    OrderIsIndexed(previous);
    var m, d := Severities(latest), DiffOf(latest, previous);
    forall k ensures At(Revert(m, d), k) == At(Severities(previous), k) {
      var kept := Without(m, d.added);
      WithoutAt(m, KeyOrder(latest), ByKey(latest), ByKey(previous), k);
      WithAt(kept, KeyOrder(previous), ByKey(previous), ByKey(latest), k);
      ChangesAt(With(kept, d.resolved), KeyOrder(latest), ByKey(latest), ByKey(previous), k);
    }
    SameAtEveryKey(Revert(m, d), Severities(previous));
  }

  // ---------------------------------------------------------------------
  // Conservation and symmetry
  // ---------------------------------------------------------------------

  lemma {:induction false} LatestSplits(keys: seq<Key>, latest: map<Key, Finding>, previous: map<Key, Finding>)
    requires forall k :: k in keys ==> k in latest
    ensures |keys| == |OnlyIn(keys, latest, previous)| + |Changes(keys, latest, previous)|
                      + CountUnchanged(keys, latest, previous)
  {
    if keys != [] {
      LatestSplits(Init(keys), latest, previous);
    }
  }

  /** The keys of both dicts whose severities agree, or differ. */
  ghost function SharedKeys(x: map<Key, Finding>, y: map<Key, Finding>, agree: bool): set<Key> {
    set k | k in x && k in y && (x[k].severity == y[k].severity) == agree
  }

  ghost function CountIn(keys: seq<Key>, s: set<Key>): nat {
    if keys == [] then 0 else CountIn(Init(keys), s) + if Last(keys) in s then 1 else 0
  }

  lemma {:induction false} CountInIsCardinality(keys: seq<Key>, s: set<Key>)
    requires NoDuplicates(keys) && forall k :: k in s ==> k in keys
    ensures CountIn(keys, s) == |s|
  {
    if keys == [] {
      assert s == {};
    } else {
      var front, last := Init(keys), Last(keys);
      assert last !in front;
      CountInIsCardinality(front, s - {last});
      SameCount(front, s, s - {last});
    }
  }

  lemma {:induction false} SameCount(keys: seq<Key>, s: set<Key>, t: set<Key>)
    requires forall k :: k in keys ==> (k in s <==> k in t)
    ensures CountIn(keys, s) == CountIn(keys, t)
  {
    if keys != [] {
      assert Last(keys) in keys;
      SameCount(Init(keys), s, t);
    }
  }

  lemma {:induction false} CountsAreCardinalities(keys: seq<Key>, x: map<Key, Finding>, y: map<Key, Finding>)
    requires forall k :: k in keys ==> k in x
    ensures CountUnchanged(keys, x, y) == CountIn(keys, SharedKeys(x, y, true))
    ensures |Changes(keys, x, y)| == CountIn(keys, SharedKeys(x, y, false))
  {
    if keys != [] {
      CountsAreCardinalities(Init(keys), x, y);
      assert Last(keys) in keys;
    }
  }

  /** Comparing in the other direction finds as many unchanged and as many changed keys, and swaps added with resolved. */
  lemma SwappingScansSwapsTheDiff(a: seq<Finding>, b: seq<Finding>)
    ensures DiffOf(a, b).added == DiffOf(b, a).resolved && DiffOf(a, b).resolved == DiffOf(b, a).added
    ensures DiffOf(a, b).unchangedCount == DiffOf(b, a).unchangedCount
    ensures |DiffOf(a, b).severityChanged| == |DiffOf(b, a).severityChanged|
  {
    hide OnlyIn, Changes, CountUnchanged, ByKey, KeyOrder;
    OrderIsIndexed(a);
    OrderIsIndexed(b);
    var x, y := ByKey(a), ByKey(b);
    CountsAreCardinalities(KeyOrder(a), x, y);
    CountsAreCardinalities(KeyOrder(b), y, x);
    forall agree: bool ensures CountIn(KeyOrder(a), SharedKeys(x, y, agree)) == CountIn(KeyOrder(b), SharedKeys(y, x, agree)) {
      CountInIsCardinality(KeyOrder(a), SharedKeys(x, y, agree));
      CountInIsCardinality(KeyOrder(b), SharedKeys(y, x, agree));
      assert SharedKeys(x, y, agree) == SharedKeys(y, x, agree);
    }
  }

  /** Every key of either scan is accounted for exactly once. */
  lemma DiffConserves(latest: seq<Finding>, previous: seq<Finding>)
    ensures var d := DiffOf(latest, previous);
            && |KeyOrder(latest)| == |d.added| + |d.severityChanged| + d.unchangedCount
            && |KeyOrder(previous)| == |d.resolved| + |d.severityChanged| + d.unchangedCount
  {
    OrderIsIndexed(latest);
    OrderIsIndexed(previous);
    LatestSplits(KeyOrder(latest), ByKey(latest), ByKey(previous));
    LatestSplits(KeyOrder(previous), ByKey(previous), ByKey(latest));
    SwappingScansSwapsTheDiff(latest, previous);
  }

  lemma {:induction false} NothingChangedOnItself(keys: seq<Key>, m: map<Key, Finding>)
    requires forall k :: k in keys ==> k in m
    ensures OnlyIn(keys, m, m) == [] && Changes(keys, m, m) == [] && CountUnchanged(keys, m, m) == |keys|
  {
    if keys != [] {
      NothingChangedOnItself(Init(keys), m);
    }
  }

  lemma SelfDiffIsUnchanged(findings: seq<Finding>)
    ensures DiffOf(findings, findings) == Diff([], [], [], |KeyOrder(findings)|)
  {
    OrderIsIndexed(findings);
    NothingChangedOnItself(KeyOrder(findings), ByKey(findings));
  }

  /** The diff sees all findings of a scan exactly when no two of them share a key, which they can: a key has no namespace. */
  lemma KeysCollapseFindings(findings: seq<Finding>)
    ensures |KeyOrder(findings)| == |findings| <==> NoDuplicates(KeysOf(findings))
  {
    DistinctLength(KeysOf(findings));
    KeysOfLength(findings);
  }

  lemma {:induction false} KeysOfLength(findings: seq<Finding>)
    ensures |KeysOf(findings)| == |findings|
  {
    if findings != [] { KeysOfLength(Init(findings)); }
  }

  lemma {:induction false} DistinctLength(keys: seq<Key>)
    ensures |Distinct(keys)| <= |keys|
    ensures |Distinct(keys)| == |keys| <==> NoDuplicates(keys)
  {
    if keys != [] {
      DistinctLength(Init(keys));
      DistinctElements(Init(keys));
      if NoDuplicates(keys) {
        assert Last(keys) !in Init(keys);
      } else if NoDuplicates(Init(keys)) {
        assert Last(keys) in Init(keys);
      }
    }
  }

  // ---------------------------------------------------------------------
  // What a diff does not show
  // ---------------------------------------------------------------------

  predicate ShowsNothing(d: Diff) {
    d.added == [] && d.resolved == [] && d.severityChanged == []
  }

  lemma {:induction false} NothingOnlyIn(keys: seq<Key>, here: map<Key, Finding>, there: map<Key, Finding>)
    requires forall k :: k in keys ==> k in here && k in there
    ensures OnlyIn(keys, here, there) == []
  {
    if keys != [] {
      NothingOnlyIn(Init(keys), here, there);
    }
  }

  lemma {:induction false} NothingChanged(keys: seq<Key>, latest: map<Key, Finding>, previous: map<Key, Finding>)
    requires forall k :: k in keys ==> k in latest && k in previous && latest[k].severity == previous[k].severity
    ensures Changes(keys, latest, previous) == []
  {
    if keys != [] {
      NothingChanged(Init(keys), latest, previous);
    }
  }

  /** A diff shows nothing exactly when both scans give every key the same severity. */
  lemma ShowsNothingExactly(latest: seq<Finding>, previous: seq<Finding>)
    ensures ShowsNothing(DiffOf(latest, previous)) <==> Severities(latest) == Severities(previous)
  {
    hide OnlyIn, Changes, CountUnchanged, ByKey, KeyOrder, FindingKey;
    OrderIsIndexed(latest);
    OrderIsIndexed(previous);
    var a, b := ByKey(latest), ByKey(previous);
    if ShowsNothing(DiffOf(latest, previous)) {
      DiffIsAPatch(latest, previous);
      assert Without(Severities(previous), []) == Severities(previous);
    }
    if Severities(latest) == Severities(previous) {
      forall k ensures k in a <==> k in b {
        assert k in Severities(latest) <==> k in Severities(previous);
      }
      forall k | k in a ensures a[k].severity == b[k].severity {
        assert Severities(latest)[k] == Severities(previous)[k];
      }
      NothingOnlyIn(KeyOrder(latest), a, b);
      NothingOnlyIn(KeyOrder(previous), b, a);
      NothingChanged(KeyOrder(latest), a, b);
    }
  }

  /** Finding by finding the same key and severity. */
  ghost predicate LookAlike(a: seq<Finding>, b: seq<Finding>) {
    && |a| == |b|
    && forall i :: 0 <= i < |a| ==> FindingKey(a[i]) == FindingKey(b[i]) && a[i].severity == b[i].severity
  }

  lemma {:induction false} LookAlikesSayTheSame(a: seq<Finding>, b: seq<Finding>)
    requires LookAlike(a, b)
    ensures Severities(a) == Severities(b)
  {
    hide FindingKey;
    if a != [] {
      LookAlikesSayTheSame(Init(a), Init(b));
      assert FindingKey(Last(a)) == FindingKey(Last(b)) && Last(a).severity == Last(b).severity;
      SeveritiesStep(a);
      SeveritiesStep(b);
    }
  }

  lemma SeveritiesStep(a: seq<Finding>)
    requires a != []
    ensures Severities(a) == Severities(Init(a))[FindingKey(Last(a)) := Last(a).severity]
  {
    hide FindingKey;
    assert ByKey(a) == ByKey(Init(a))[FindingKey(Last(a)) := Last(a)];
  }

  /** A scan in which one finding moved to another namespace, or to none, is all unchanged. */
  lemma MovesAreInvisible(findings: seq<Finding>, i: nat, namespace: Option<string>)
    requires i < |findings| && findings[i].binding.Some?
    ensures var moved := findings[i].(binding := Some(findings[i].binding.value.(namespace := namespace)));
            DiffOf(findings[i := moved], findings) == Diff([], [], [], |KeyOrder(findings[i := moved])|)
  {
    hide KeyOrder, ByKey, OnlyIn, Changes, CountUnchanged, Severities;
    var moved := findings[i].(binding := Some(findings[i].binding.value.(namespace := namespace)));
    var latest := findings[i := moved];
    assert LookAlike(latest, findings);
    LookAlikesSayTheSame(latest, findings);
    ShowsNothingExactly(latest, findings);
    DiffConserves(latest, findings);
  }

  /** The endpoint compares the two newest scans, and with fewer it shows nothing. */
  lemma {:induction false} NewestScansAreCompared(scans: seq<Option<seq<Finding>>>)
    ensures |scans| < 2 ==> ShowsNothing(DiffLatestScans(scans)) && DiffLatestScans(scans).unchangedCount == 0
    ensures |scans| >= 2 ==>
      Apply(Severities(Stored(scans[1])), DiffLatestScans(scans)) == Severities(Stored(scans[0]))
  {
    hide DiffOf, Apply, Severities;
    if |scans| >= 2 {
      DiffIsAPatch(Stored(scans[0]), Stored(scans[1]));
    }
  }

  // ---------------------------------------------------------------------
  // The diff by the findings' own fields
  // ---------------------------------------------------------------------

  /** Whom a finding is about: the role's name, or else the account's. */
  predicate SameOwner(a: Finding, b: Finding) {
    (if a.role.Some? then a.role.value.name else if a.account.Some? then a.account.value.name else None)
    == (if b.role.Some? then b.role.value.name else if b.account.Some? then b.account.value.name else None)
  }

  /** Where it was found: the binding's name, or else the workload's. */
  predicate SamePlace(a: Finding, b: Finding) {
    (if a.binding.Some? then a.binding.value.name else if a.workload.Some? then a.workload.value.name else None)
    == (if b.binding.Some? then b.binding.value.name else if b.workload.Some? then b.workload.value.name else None)
  }

  predicate LooksLike(a: Finding, b: Finding) {
    a.ruleType == b.ruleType && SameOwner(a, b) && SamePlace(a, b)
  }

  lemma KeysByFields(a: Finding, b: Finding)
    ensures FindingKey(a) == FindingKey(b) <==> LooksLike(a, b)
  {
  }

  /** f stands in the scan, and nothing after it looks like it. */
  ghost predicate IsLastOfItsLook(findings: seq<Finding>, f: Finding) {
    exists i :: 0 <= i < |findings| && findings[i] == f
             && forall j :: i < j < |findings| ==> !LooksLike(findings[j], f)
  }

  ghost predicate HasLook(findings: seq<Finding>, f: Finding) {
    exists x :: x in findings && LooksLike(x, f)
  }

  lemma {:induction false} IndexByFields(findings: seq<Finding>, f: Finding)
    ensures FindingKey(f) in ByKey(findings) <==> HasLook(findings, f)
    ensures FindingKey(f) in ByKey(findings) && ByKey(findings)[FindingKey(f)] == f <==> IsLastOfItsLook(findings, f)
  {
    hide FindingKey, LooksLike;
    if findings != [] {
      var front, l := Init(findings), Last(findings);
      IndexByFields(front, f);
      KeysByFields(l, f);
      KeysByFields(f, f);
      assert forall x :: x in findings <==> x in front || x == l;
      LastLookStep(findings, f);
    }
  }

  lemma LastLookStep(findings: seq<Finding>, f: Finding)
    requires findings != []
    ensures IsLastOfItsLook(findings, f) <==>
            Last(findings) == f || (!LooksLike(Last(findings), f) && IsLastOfItsLook(Init(findings), f))
  {
    hide LooksLike;
    var front, n := Init(findings), |findings| - 1;
    assert findings[n] == Last(findings);
    if IsLastOfItsLook(front, f) && !LooksLike(Last(findings), f) {
      var i :| 0 <= i < |front| && front[i] == f && forall j :: i < j < |front| ==> !LooksLike(front[j], f);
      assert findings[i] == f && forall j :: i < j < n ==> findings[j] == front[j];
    }
    if i :| 0 <= i < |findings| && findings[i] == f && forall j :: i < j < |findings| ==> !LooksLike(findings[j], f) {
      if i < n {
        assert front[i] == f && forall j :: i < j < n ==> findings[j] == front[j];
      }
    }
  }

  lemma {:induction false} OnlyInMembers(keys: seq<Key>, here: map<Key, Finding>, there: map<Key, Finding>, f: Finding)
    requires Indexed(keys, here)
    ensures f in OnlyIn(keys, here, there) <==>
            FindingKey(f) in keys && FindingKey(f) !in there && here[FindingKey(f)] == f
  {
    hide FindingKey;
    if keys != [] {
      OnlyInMembers(Init(keys), here, there, f);
      assert FindingKey(f) in keys <==> FindingKey(f) in Init(keys) || FindingKey(f) == Last(keys);
    }
  }

  lemma {:induction false} ChangesMembers(
    keys: seq<Key>, latest: map<Key, Finding>, previous: map<Key, Finding>, c: Change)
    requires Indexed(keys, latest)
    ensures var k := FindingKey(c.finding);
            c in Changes(keys, latest, previous) <==>
            k in keys && latest[k] == c.finding && k in previous
            && previous[k].severity == c.previousSeverity && c.previousSeverity != c.finding.severity
  {
    hide FindingKey;
    if keys != [] {
      var k := FindingKey(c.finding);
      ChangesMembers(Init(keys), latest, previous, c);
      assert k in keys <==> k in Init(keys) || k == Last(keys);
    }
  }

  /** Added: the last of its look in the latest scan, and nothing in the previous one looks like it; resolved likewise. */
  lemma AddedByFields(latest: seq<Finding>, previous: seq<Finding>, f: Finding)
    ensures f in DiffOf(latest, previous).added <==> IsLastOfItsLook(latest, f) && !HasLook(previous, f)
    ensures f in DiffOf(latest, previous).resolved <==> IsLastOfItsLook(previous, f) && !HasLook(latest, f)
  {
    hide OnlyIn, Changes, CountUnchanged, ByKey, KeyOrder, FindingKey, IsLastOfItsLook, HasLook;
    OrderIsIndexed(latest);
    OrderIsIndexed(previous);
    IndexByFields(latest, f);
    IndexByFields(previous, f);
    OnlyInMembers(KeyOrder(latest), ByKey(latest), ByKey(previous), f);
    OnlyInMembers(KeyOrder(previous), ByKey(previous), ByKey(latest), f);
  }

  /** Changed: the last of its look in both scans, with different severities, the previous one being shown. */
  lemma ChangedByFields(latest: seq<Finding>, previous: seq<Finding>, c: Change)
    ensures c in DiffOf(latest, previous).severityChanged <==>
            && IsLastOfItsLook(latest, c.finding) && c.previousSeverity != c.finding.severity
            && exists p :: IsLastOfItsLook(previous, p) && LooksLike(p, c.finding) && p.severity == c.previousSeverity
  {
    hide OnlyIn, Changes, CountUnchanged, ByKey, KeyOrder, FindingKey, IsLastOfItsLook, HasLook, LooksLike;
    OrderIsIndexed(latest);
    OrderIsIndexed(previous);
    var k := FindingKey(c.finding);
    IndexByFields(latest, c.finding);
    ChangesMembers(KeyOrder(latest), ByKey(latest), ByKey(previous), c);
    if k in ByKey(previous) {
      var p := ByKey(previous)[k];
      IndexByFields(previous, p);
      KeysByFields(p, c.finding);
    }
    if p :| IsLastOfItsLook(previous, p) && LooksLike(p, c.finding) && p.severity == c.previousSeverity {
      IndexByFields(previous, p);
      KeysByFields(p, c.finding);
    }
  }
}
