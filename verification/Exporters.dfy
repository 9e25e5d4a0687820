/** PolicyReport and SARIF output (control-plane/app/cli.py): grouping, counting and score scaling. */
module Exporters {
  import opened Sequences
  import opened RbacGraph
  import opened Scoring
  import opened Text
  import Rbac = RbacService
  import Images = ImageReports

  /** Both kinds of finding go through the same exporters. */
  datatype Exported = RbacItem(rbac: Rbac.Finding) | ImageItem(image: Images.ImageFinding)

  // ---------------------------------------------------------------------
  // Targets
  // ---------------------------------------------------------------------

  datatype Target = Target(kind: string, name: Option<string>, namespace: Option<string>, apiVersion: Option<string>)

  function BindingKindName(k: BindingKind): string {
    if k == RoleBinding then "RoleBinding" else "ClusterRoleBinding"
  }

  predicate IsTemplateKind(kind: string) {
    kind in ["Deployment", "StatefulSet", "DaemonSet", "ReplicaSet", "Job", "CronJob"]
  }

  function ApiVersionOf(kind: string): string {
    if IsTemplateKind(kind) then "apps/v1"
    else if kind == "Job" || kind == "CronJob" then "batch/v1" else "v1"
  }

  function TargetOf(f: Exported): Target {
    match f
    case ImageItem(image) => Target("ContainerImage", Some(image.key.image), None, None)
    case RbacItem(r) =>
      if r.binding.Some? then
        Target(BindingKindName(r.binding.value.kind), r.binding.value.name, r.binding.value.namespace,
               Some("rbac.authorization.k8s.io/v1"))
      else if r.workload.Some? then
        Target(r.workload.value.kind, r.workload.value.name, r.workload.value.namespace,
               Some(ApiVersionOf(r.workload.value.kind)))
      else if r.account.Some? then
        Target("ServiceAccount", r.account.value.name, r.account.value.namespace, Some(ApiVersionOf("ServiceAccount")))
      else Target("ServiceAccount", None, None, Some(ApiVersionOf("ServiceAccount")))
  }

  /** Jobs are template kinds too, so the branch for batch/v1 is never taken. */
  lemma NothingIsBatch(kind: string)
    ensures ApiVersionOf(kind) == if IsTemplateKind(kind) then "apps/v1" else "v1"
    ensures ApiVersionOf("Job") == ApiVersionOf("CronJob") == "apps/v1"
  {
    var kinds := ["Deployment", "StatefulSet", "DaemonSet", "ReplicaSet", "Job", "CronJob"];
    assert kinds[4] == "Job" && kinds[5] == "CronJob";
  }

  /** The namespace a finding is filed under: an empty one counts as none. */
  function NamespaceOf(f: Exported): Option<string> {
    if Truthy(TargetOf(f).namespace) then TargetOf(f).namespace else None
  }

  // ---------------------------------------------------------------------
  // Sorted names
  // ---------------------------------------------------------------------

  ghost predicate Increasing(s: seq<string>) {
    forall i, j :: 0 <= i < j < |s| ==> Before(s[i], s[j])
  }

  function InsertName(s: seq<string>, x: string): seq<string> {
    if s == [] || Before(Last(s), x) then s + [x] else InsertName(Init(s), x) + [Last(s)]
  }

  /** sorted(...) of distinct names. */
  function SortNames(s: seq<string>): seq<string> {
    if s == [] then [] else InsertName(SortNames(Init(s)), Last(s))
  }

  lemma {:induction false} InsertNameMembers(s: seq<string>, x: string)
    ensures forall y :: y in InsertName(s, x) <==> y in s || y == x
  {
    hide Before;
    if s != [] && !Before(Last(s), x) {
      InsertNameMembers(Init(s), x);
      assert forall y :: y in s <==> y in Init(s) || y == Last(s);
    }
  }

  lemma {:induction false} InsertNameIncreasing(s: seq<string>, x: string)
    requires Increasing(s) && x !in s
    ensures Increasing(InsertName(s, x))
  {
    hide Before;
    if s == [] {
    } else if Before(Last(s), x) {
      forall i | 0 <= i < |s| ensures Before(s[i], x) {
        if i < |s| - 1 {
          BeforeIsTransitive(s[i], Last(s), x);
        }
      }
    } else {
      var t := InsertName(Init(s), x);
      assert Last(s) in s;
      BeforeIsTotal(Last(s), x);
      InsertNameIncreasing(Init(s), x);
      InsertNameMembers(Init(s), x);
      forall i | 0 <= i < |t| ensures Before(t[i], Last(s)) {
        assert t[i] in t;
        if t[i] != x {
          var k :| 0 <= k < |Init(s)| && Init(s)[k] == t[i];
          assert s[k] == t[i];
        }
      }
    }
  }

  lemma {:induction false} SortNamesIncreasing(s: seq<string>)
    requires NoDuplicates(s)
    ensures Increasing(SortNames(s))
    ensures forall y :: y in SortNames(s) <==> y in s
  {
    if s != [] {
      SortNamesIncreasing(Init(s));
      assert Last(s) !in Init(s);
      InsertNameIncreasing(SortNames(Init(s)), Last(s));
      InsertNameMembers(SortNames(Init(s)), Last(s));
      assert forall y :: y in s <==> y in Init(s) || y == Last(s);
    }
  }

  // ---------------------------------------------------------------------
  // PolicyReports
  // ---------------------------------------------------------------------

  datatype Report = NamespaceReport(namespace: string, fail: nat, results: seq<Exported>)
                  | ClusterReport(fail: nat, results: seq<Exported>)

  /** The findings filed under a namespace, or under none, in order. */
  function FiledUnder(findings: seq<Exported>, namespace: Option<string>): seq<Exported> {
    if findings == [] then []
    else if NamespaceOf(Last(findings)) == namespace then FiledUnder(Init(findings), namespace) + [Last(findings)]
    else FiledUnder(Init(findings), namespace)
  }

  function NamespacesOf(findings: seq<Exported>): seq<string> {
    if findings == [] then []
    else
      match NamespaceOf(Last(findings))
      case None => NamespacesOf(Init(findings))
      case Some(ns) => NamespacesOf(Init(findings)) + [ns]
  }

  function ReportFor(findings: seq<Exported>, ns: string): Report {
    NamespaceReport(ns, |FiledUnder(findings, Some(ns))|, FiledUnder(findings, Some(ns)))
  }

  function ReportsFor(findings: seq<Exported>, namespaces: seq<string>): seq<Report> {
    if namespaces == [] then []
    else ReportsFor(findings, Init(namespaces)) + [ReportFor(findings, Last(namespaces))]
  }

  function PolicyReports(findings: seq<Exported>): seq<Report> {
    ReportsFor(findings, SortNames(Distinct(NamespacesOf(findings))))
    + [ClusterReport(|FiledUnder(findings, None)|, FiledUnder(findings, None))]
  }

  function ListUnder(groups: map<string, seq<Exported>>, ns: string): seq<Exported> {
    if ns in groups then groups[ns] else []
  }

  /** _build_policy_reports: one pass into a dict of lists, then one report per key. */
  method BuildPolicyReports(findings: seq<Exported>) returns (reports: seq<Report>)
    ensures reports == PolicyReports(findings)
  {
    hide NamespaceOf, SortNames;
    var keys, groups, cluster := GroupByNamespace(findings);
    DistinctElements(NamespacesOf(findings));
    KeysAreSorted(keys);
    var namespaces := SortNames(keys);
    reports := [];
    for i := 0 to |namespaces|
      invariant reports == ReportsFor(findings, namespaces[..i])
    {
      InitOfPrefix(namespaces, i);
      assert namespaces[i] in keys;
      var results := groups[namespaces[i]];
      assert results == ListUnder(groups, namespaces[i]);
      reports := reports + [NamespaceReport(namespaces[i], |results|, results)];
    }
    assert namespaces[..|namespaces|] == namespaces;
    reports := reports + [ClusterReport(|cluster|, cluster)];
  }

  lemma KeysAreSorted(keys: seq<string>)
    requires NoDuplicates(keys)
    ensures forall i :: 0 <= i < |SortNames(keys)| ==> SortNames(keys)[i] in keys
  {
    SortNamesIncreasing(keys);
    assert forall i :: 0 <= i < |SortNames(keys)| ==> SortNames(keys)[i] in SortNames(keys);
  }

  lemma FiledUnderSnoc(findings: seq<Exported>, f: Exported, namespace: Option<string>)
    ensures FiledUnder(findings + [f], namespace) ==
            if NamespaceOf(f) == namespace then FiledUnder(findings, namespace) + [f]
            else FiledUnder(findings, namespace)
  {
    hide NamespaceOf;
    assert Init(findings + [f]) == findings;
  }

  lemma NamespacesOfSnoc(findings: seq<Exported>, f: Exported)
    ensures NamespacesOf(findings + [f]) ==
            if NamespaceOf(f).Some? then NamespacesOf(findings) + [NamespaceOf(f).value] else NamespacesOf(findings)
  {
    hide NamespaceOf;
    assert Init(findings + [f]) == findings;
  }

  /** The dict of lists after a prefix of the findings. */
  ghost predicate Grouped(
    findings: seq<Exported>, keys: seq<string>, groups: map<string, seq<Exported>>, cluster: seq<Exported>)
  {
    && keys == Distinct(NamespacesOf(findings))
    && (forall ns :: ns in groups <==> ns in keys)
    && (forall ns :: ListUnder(groups, ns) == FiledUnder(findings, Some(ns)))
    && cluster == FiledUnder(findings, None)
  }

  /** groups.setdefault(ns, []).append(f) */
  method FileUnder(findings: seq<Exported>, f: Exported, ns: string, keys: seq<string>,
                   groups: map<string, seq<Exported>>, cluster: seq<Exported>)
    returns (keys': seq<string>, groups': map<string, seq<Exported>>)
    requires Grouped(findings, keys, groups, cluster) && NamespaceOf(f) == Some(ns)
    ensures Grouped(findings + [f], keys', groups', cluster)
  {
    hide NamespaceOf, FiledUnder, NamespacesOf, Distinct;
    groups' := groups[ns := ListUnder(groups, ns) + [f]];
    keys' := if ns in keys then keys else keys + [ns];
    NamespacesOfSnoc(findings, f);
    DistinctSnoc(NamespacesOf(findings), ns);
    FiledUnderSnoc(findings, f, None);
    forall n: string ensures ListUnder(groups', n) == FiledUnder(findings + [f], Some(n)) {
      FiledUnderSnoc(findings, f, Some(n));
    }
  }

  method GroupByNamespace(findings: seq<Exported>)
    returns (keys: seq<string>, groups: map<string, seq<Exported>>, cluster: seq<Exported>)
    ensures Grouped(findings, keys, groups, cluster)
  {
    hide NamespaceOf;
    keys, groups, cluster := [], map[], [];
    for i := 0 to |findings|
      invariant Grouped(findings[..i], keys, groups, cluster)
    {
      hide FiledUnder, NamespacesOf, Grouped;
      var f := findings[i];
      assert findings[..i + 1] == findings[..i] + [f];
      var ns := NamespaceOf(f);
      if ns.Some? {
        keys, groups := FileUnder(findings[..i], f, ns.value, keys, groups, cluster);
      } else {
        FileUnderCluster(findings[..i], f, keys, groups, cluster);
        cluster := cluster + [f];
      }
    }
    assert findings[..|findings|] == findings;
  }

  lemma FileUnderCluster(findings: seq<Exported>, f: Exported, keys: seq<string>,
                                            groups: map<string, seq<Exported>>, cluster: seq<Exported>)
    requires Grouped(findings, keys, groups, cluster) && NamespaceOf(f) == None
    ensures Grouped(findings + [f], keys, groups, cluster + [f])
  {
    hide NamespaceOf, FiledUnder, NamespacesOf, Distinct;
    NamespacesOfSnoc(findings, f);
    FiledUnderSnoc(findings, f, None);
    forall n: string ensures ListUnder(groups, n) == FiledUnder(findings + [f], Some(n)) {
      FiledUnderSnoc(findings, f, Some(n));
    }
  }

  // What the reports are, together

  function NamespaceNames(reports: seq<Report>): seq<string> {
    if reports == [] then []
    else if Last(reports).NamespaceReport? then NamespaceNames(Init(reports)) + [Last(reports).namespace]
    else NamespaceNames(Init(reports))
  }

  function TotalFail(reports: seq<Report>): nat {
    if reports == [] then 0 else TotalFail(Init(reports)) + Last(reports).fail
  }

  function AllResults(reports: seq<Report>): multiset<Exported> {
    if reports == [] then multiset{} else AllResults(Init(reports)) + multiset(Last(reports).results)
  }

  lemma {:induction false} ReportsForNames(findings: seq<Exported>, namespaces: seq<string>)
    ensures NamespaceNames(ReportsFor(findings, namespaces)) == namespaces
  {
    hide FiledUnder;
    if namespaces != [] {
      ReportsForNames(findings, Init(namespaces));
      assert Init(ReportsFor(findings, namespaces)) == ReportsFor(findings, Init(namespaces));
    }
  }

  /** The findings filed under the given namespaces, with their multiplicity. */
  function AllFiled(findings: seq<Exported>, namespaces: seq<string>): multiset<Exported> {
    if namespaces == [] then multiset{}
    else AllFiled(findings, Init(namespaces)) + multiset(FiledUnder(findings, Some(Last(namespaces))))
  }

  lemma {:induction false} ReportsForAll(findings: seq<Exported>, namespaces: seq<string>)
    ensures AllResults(ReportsFor(findings, namespaces)) == AllFiled(findings, namespaces)
    ensures TotalFail(ReportsFor(findings, namespaces)) == |AllFiled(findings, namespaces)|
  {
    hide FiledUnder;
    if namespaces != [] {
      ReportsForAll(findings, Init(namespaces));
      assert Init(ReportsFor(findings, namespaces)) == ReportsFor(findings, Init(namespaces));
    }
  }

  /** One more finding is filed under its own namespace, once. */
  lemma {:induction false} AllFiledStep(findings: seq<Exported>, f: Exported, namespaces: seq<string>)
    requires NoDuplicates(namespaces)
    ensures AllFiled(findings + [f], namespaces) ==
            if NamespaceOf(f).Some? && NamespaceOf(f).value in namespaces then AllFiled(findings, namespaces) + multiset{f}
            else AllFiled(findings, namespaces)
  {
    hide NamespaceOf, FiledUnder;
    if namespaces != [] {
      AllFiledStep(findings, f, Init(namespaces));
      assert Last(namespaces) !in Init(namespaces);
      assert forall n :: n in namespaces <==> n in Init(namespaces) || n == Last(namespaces);
      FiledUnderSnoc(findings, f, Some(Last(namespaces)));
    }
  }

  lemma {:induction false} EverythingIsFiled(findings: seq<Exported>, namespaces: seq<string>)
    requires NoDuplicates(namespaces) && forall n :: n in NamespacesOf(findings) ==> n in namespaces
    ensures AllFiled(findings, namespaces) + multiset(FiledUnder(findings, None)) == multiset(findings)
  {
    hide NamespaceOf, FiledUnder, NamespacesOf, AllFiled;
    if findings == [] {
      NothingIsFiled(namespaces);
    } else {
      var f := Last(findings);
      NamespacesOfSnoc(Init(findings), f);
      assert findings == Init(findings) + [f];
      assert forall n :: n in NamespacesOf(Init(findings)) ==> n in NamespacesOf(findings);
      EverythingIsFiled(Init(findings), namespaces);
      AllFiledStep(Init(findings), f, namespaces);
      FiledUnderSnoc(Init(findings), f, None);
      if NamespaceOf(f).Some? {
        assert Last(NamespacesOf(findings)) in NamespacesOf(findings);
      }
    }
  }

  lemma {:induction false} NothingIsFiled(namespaces: seq<string>)
    ensures AllFiled([], namespaces) == multiset{} && FiledUnder([], None) == []
  {
    if namespaces != [] { NothingIsFiled(Init(namespaces)); }
  }

  lemma IncreasingHasNoDuplicates(s: seq<string>)
    requires Increasing(s)
    ensures NoDuplicates(s)
  {
    hide Before;
    forall i, j | 0 <= i < j < |s| ensures s[i] != s[j] {
      BeforeIsTotal(s[i], s[j]);
    }
  }

  /**
   * The reports partition the findings: one per namespace that has any, the
   * namespaces strictly sorted, then one cluster report; each finding is in
   * exactly one of them, and the fail counts add up.
   */
  lemma ReportsPartitionFindings(findings: seq<Exported>)
    ensures var reports := PolicyReports(findings);
            && Increasing(NamespaceNames(reports))
            && (forall ns :: ns in NamespaceNames(reports) <==> ns in NamespacesOf(findings))
            && Last(reports).ClusterReport?
            && |NamespaceNames(reports)| == |reports| - 1
            && AllResults(reports) == multiset(findings)
            && TotalFail(reports) == |findings|
  {
    hide FiledUnder, SortNames, NamespacesOf, AllFiled, Increasing, Distinct;
    var names := SortNames(Distinct(NamespacesOf(findings)));
    DistinctElements(NamespacesOf(findings));
    SortNamesIncreasing(Distinct(NamespacesOf(findings)));
    IncreasingHasNoDuplicates(names);
    ReportsForNames(findings, names);
    ReportsForAll(findings, names);
    ReportsForLength(findings, names);
    EverythingIsFiled(findings, names);
    assert Init(PolicyReports(findings)) == ReportsFor(findings, names);
    assert |multiset(findings)| == |findings|;
  }

  lemma {:induction false} ReportsForLength(findings: seq<Exported>, namespaces: seq<string>)
    ensures |ReportsFor(findings, namespaces)| == |namespaces|
  {
    if namespaces != [] { ReportsForLength(findings, Init(namespaces)); }
  }

  // ---------------------------------------------------------------------
  // SARIF
  // ---------------------------------------------------------------------

  datatype RuleId = RbacRule(t: Rbac.RuleType) | CveRule(cveId: string)

  function RuleIdOf(f: Exported): RuleId {
    match f
    case RbacItem(r) => RbacRule(r.ruleType)
    case ImageItem(i) => CveRule(i.key.cveId)
  }

  function ScoreOf(f: Exported): real {
    match f
    case RbacItem(r) => r.score
    case ImageItem(i) => i.score
  }

  function RuleIds(findings: seq<Exported>): seq<RuleId> {
    if findings == [] then [] else RuleIds(Init(findings)) + [RuleIdOf(Last(findings))]
  }

  /** max over the findings of a rule, starting from 0.0 */
  function MaxScore(findings: seq<Exported>, id: RuleId): real {
    if findings == [] then 0.0
    else
      var front, f := MaxScore(Init(findings), id), Last(findings);
      if RuleIdOf(f) == id && front < ScoreOf(f) then ScoreOf(f) else front
  }

  /** The largest score of the rule's findings, or zero when none is positive. */
  lemma {:induction false} MaxScoreIsMax(findings: seq<Exported>, id: RuleId)
    ensures MaxScore(findings, id) >= 0.0
    ensures forall f :: f in findings && RuleIdOf(f) == id ==> ScoreOf(f) <= MaxScore(findings, id)
    ensures MaxScore(findings, id) > 0.0 ==>
      exists f :: f in findings && RuleIdOf(f) == id && ScoreOf(f) == MaxScore(findings, id)
  {
    if findings != [] {
      MaxScoreIsMax(Init(findings), id);
      assert forall f :: f in findings <==> f in Init(findings) || f == Last(findings);
    }
  }

  /** security-severity in tenths: the score scaled to 0.0-10.0, clamped, and printed with one decimal. */
  function SecuritySeverity(score: real): int {
    var scaled := score * 10.0 / MAX_CONTEXTUAL_SCORE;
    RoundHalfEven(10.0 * (if scaled <= 0.0 then 0.0 else if scaled >= 10.0 then 10.0 else scaled))
  }

  /** Scaling is monotone, stays within 0.0 and 10.0, and reaches 10.0 for every score at or past the cap. */
  lemma SecuritySeverityIsMonotone(a: real, b: real)
    requires a <= b
    ensures 0 <= SecuritySeverity(a) <= SecuritySeverity(b) <= 100
    ensures b >= MAX_CONTEXTUAL_SCORE ==> SecuritySeverity(b) == 100
    ensures a <= 0.0 ==> SecuritySeverity(a) == 0
  {
    assert MAX_CONTEXTUAL_SCORE == 38.9025;
    RoundIsNearest(0.0);
    RoundIsNearest(100.0);
    var x, y := a * 10.0 / MAX_CONTEXTUAL_SCORE, b * 10.0 / MAX_CONTEXTUAL_SCORE;
    var p := if x <= 0.0 then 0.0 else if x >= 10.0 then 10.0 else x;
    var q := if y <= 0.0 then 0.0 else if y >= 10.0 then 10.0 else y;
    RoundMonotone(0.0, 10.0 * p);
    RoundMonotone(10.0 * p, 10.0 * q);
    RoundMonotone(10.0 * q, 100.0);
  }

  datatype SarifRule = SarifRule(id: RuleId, securitySeverity: int)
  datatype SarifResult = SarifResult(ruleId: RuleId, score: real)

  function RulesFor(findings: seq<Exported>, ids: seq<RuleId>): seq<SarifRule> {
    if ids == [] then []
    else RulesFor(findings, Init(ids)) + [SarifRule(Last(ids), SecuritySeverity(MaxScore(findings, Last(ids))))]
  }

  function ResultsOf(findings: seq<Exported>): seq<SarifResult> {
    if findings == [] then []
    else ResultsOf(Init(findings)) + [SarifResult(RuleIdOf(Last(findings)), ScoreOf(Last(findings)))]
  }

  function MaxUnder(m: map<RuleId, real>, id: RuleId): real {
    if id in m then m[id] else 0.0
  }

  lemma SarifSnoc(findings: seq<Exported>, f: Exported, id: RuleId)
    ensures RuleIds(findings + [f]) == RuleIds(findings) + [RuleIdOf(f)]
    ensures ResultsOf(findings + [f]) == ResultsOf(findings) + [SarifResult(RuleIdOf(f), ScoreOf(f))]
    ensures MaxScore(findings + [f], id) ==
            if RuleIdOf(f) == id && MaxScore(findings, id) < ScoreOf(f) then ScoreOf(f) else MaxScore(findings, id)
  {
    hide RuleIdOf, ScoreOf;
    assert Init(findings + [f]) == findings;
  }

  /** The state of the first pass after a prefix of the findings. */
  ghost predicate Collected(findings: seq<Exported>, ids: seq<RuleId>, maxima: map<RuleId, real>) {
    && ids == Distinct(RuleIds(findings))
    && (forall id :: MaxUnder(maxima, id) == MaxScore(findings, id))
  }

  lemma CollectNext(findings: seq<Exported>, f: Exported, ids: seq<RuleId>, maxima: map<RuleId, real>)
    requires Collected(findings, ids, maxima)
    ensures var id, best := RuleIdOf(f), MaxUnder(maxima, RuleIdOf(f));
            Collected(findings + [f],
                      if id in ids then ids else ids + [id],
                      maxima[id := if best < ScoreOf(f) then ScoreOf(f) else best])
  {
    hide RuleIdOf, ScoreOf, RuleIds, ResultsOf, MaxScore, Distinct;
    var id, best := RuleIdOf(f), MaxUnder(maxima, RuleIdOf(f));
    var next := maxima[id := if best < ScoreOf(f) then ScoreOf(f) else best];
    SarifSnoc(findings, f, id);
    DistinctSnoc(RuleIds(findings), id);
    forall other ensures MaxUnder(next, other) == MaxScore(findings + [f], other) {
      SarifSnoc(findings, f, other);
    }
  }

  /** _print_sarif: a first pass for the maxima and the rules, a second for the scaled values, a third for the results. */
  method BuildSarif(findings: seq<Exported>) returns (rules: seq<SarifRule>, results: seq<SarifResult>)
    ensures rules == RulesFor(findings, Distinct(RuleIds(findings)))
    ensures results == ResultsOf(findings)
  {
    hide SecuritySeverity, RuleIdOf, ScoreOf, RuleIds, Distinct, MaxScore, RulesFor, ResultsOf;
    var ids: seq<RuleId>, maxima: map<RuleId, real> := [], map[];
    NothingCollected();
    assert findings[..0] == [];
    for i := 0 to |findings|
      invariant Collected(findings[..i], ids, maxima)
    {
      hide Collected, MaxUnder;
      var f := findings[i];
      CollectNext(findings[..i], f, ids, maxima);
      assert findings[..i + 1] == findings[..i] + [f];
      var id := RuleIdOf(f);
      var best := MaxUnder(maxima, id);
      maxima := maxima[id := if best < ScoreOf(f) then ScoreOf(f) else best];
      if id !in ids {
        ids := ids + [id];
      }
    }
    assert findings[..|findings|] == findings;
    rules := ScaledRules(findings, ids, maxima);
    results := ListResults(findings);
  }

  lemma NothingCollected()
    ensures Collected([], [], map[])
  {
  }

  method ListResults(findings: seq<Exported>) returns (results: seq<SarifResult>)
    ensures results == ResultsOf(findings)
  {
    hide RuleIdOf, ScoreOf;
    results := [];
    for i := 0 to |findings|
      invariant results == ResultsOf(findings[..i])
    {
      InitOfPrefix(findings, i);
      results := results + [SarifResult(RuleIdOf(findings[i]), ScoreOf(findings[i]))];
    }
    assert findings[..|findings|] == findings;
  }

  method ScaledRules(ghost findings: seq<Exported>, ids: seq<RuleId>, maxima: map<RuleId, real>)
    returns (rules: seq<SarifRule>)
    requires forall id :: MaxUnder(maxima, id) == MaxScore(findings, id)
    ensures rules == RulesFor(findings, ids)
  {
    hide SecuritySeverity, MaxScore, MaxUnder;
    rules := [];
    for i := 0 to |ids|
      invariant rules == RulesFor(findings, ids[..i])
    {
      InitOfPrefix(ids, i);
      rules := rules + [SarifRule(ids[i], SecuritySeverity(MaxUnder(maxima, ids[i])))];
    }
    assert ids[..|ids|] == ids;
  }

  lemma {:induction false} RulesForMembers(findings: seq<Exported>, ids: seq<RuleId>)
    ensures |RulesFor(findings, ids)| == |ids|
    ensures forall i :: 0 <= i < |ids| ==>
      RulesFor(findings, ids)[i] == SarifRule(ids[i], SecuritySeverity(MaxScore(findings, ids[i])))
  {
    hide SecuritySeverity, MaxScore;
    if ids != [] { RulesForMembers(findings, Init(ids)); }
  }

  lemma {:induction false} ResultsAreFindings(findings: seq<Exported>)
    ensures |ResultsOf(findings)| == |findings| == |RuleIds(findings)|
    ensures forall i :: 0 <= i < |findings| ==>
      ResultsOf(findings)[i] == SarifResult(RuleIdOf(findings[i]), ScoreOf(findings[i]))
      && RuleIds(findings)[i] == RuleIdOf(findings[i])
  {
    if findings != [] { ResultsAreFindings(Init(findings)); }
  }

  ghost predicate NoTwoRules(rules: seq<SarifRule>) {
    forall i, j :: 0 <= i < j < |rules| ==> rules[i].id != rules[j].id
  }

  lemma RulesAreDistinct(findings: seq<Exported>, ids: seq<RuleId>)
    requires NoDuplicates(ids)
    ensures NoTwoRules(RulesFor(findings, ids))
  {
    hide SecuritySeverity, MaxScore, RulesFor;
    RulesForMembers(findings, ids);
  }

  lemma {:induction false} RuleIsThere(findings: seq<Exported>, ids: seq<RuleId>, id: RuleId) returns (i: nat)
    requires id in ids
    ensures i < |RulesFor(findings, ids)|
    ensures RulesFor(findings, ids)[i] == SarifRule(id, SecuritySeverity(MaxScore(findings, id)))
  {
    hide SecuritySeverity, MaxScore, RulesFor;
    RulesForMembers(findings, ids);
    i :| 0 <= i < |ids| && ids[i] == id;
  }

  /** Every result has exactly one rule with its id, and that rule carries the scaled maximum over its findings. */
  lemma EveryResultHasItsRule(findings: seq<Exported>, k: nat) returns (i: nat)
    requires k < |findings|
    ensures |ResultsOf(findings)| == |findings|
    ensures ResultsOf(findings)[k] == SarifResult(RuleIdOf(findings[k]), ScoreOf(findings[k]))
    ensures var rules := RulesFor(findings, Distinct(RuleIds(findings)));
            && NoTwoRules(rules)
            && i < |rules|
            && rules[i] == SarifRule(RuleIdOf(findings[k]), SecuritySeverity(MaxScore(findings, RuleIdOf(findings[k]))))
  {
    hide SecuritySeverity, MaxScore, RulesFor, ResultsOf, RuleIds, RuleIdOf, ScoreOf, Distinct;
    var ids := Distinct(RuleIds(findings));
    DistinctElements(RuleIds(findings));
    RulesAreDistinct(findings, ids);
    ResultsAreFindings(findings);
    assert RuleIds(findings)[k] in RuleIds(findings);
    i := RuleIsThere(findings, ids, RuleIdOf(findings[k]));
  }

  // ---------------------------------------------------------------------
  // By the findings' own fields
  // ---------------------------------------------------------------------

  /** The namespace of the finding's binding, or else of its workload, or else of its account. */
  function PlaceOf(r: Rbac.Finding): Option<string> {
    if r.binding.Some? then r.binding.value.namespace
    else if r.workload.Some? then r.workload.value.namespace
    else if r.account.Some? then r.account.value.namespace else None
  }

  /** An image finding has no namespace, and an empty one is none. */
  predicate IsFiledUnder(f: Exported, namespace: Option<string>) {
    match f
    case ImageItem(_) => namespace == None
    case RbacItem(r) => namespace == if PlaceOf(r) == Some("") then None else PlaceOf(r)
  }

  lemma FiledByFields(f: Exported, namespace: Option<string>)
    ensures NamespaceOf(f) == namespace <==> IsFiledUnder(f, namespace)
  {
    hide ApiVersionOf, BindingKindName;
  }

  lemma {:induction false} FiledUnderByFields(findings: seq<Exported>, namespace: Option<string>)
    ensures forall f :: multiset(FiledUnder(findings, namespace))[f] ==
                        if IsFiledUnder(f, namespace) then multiset(findings)[f] else 0
  {
    hide NamespaceOf, IsFiledUnder;
    if findings != [] {
      FiledUnderByFields(Init(findings), namespace);
      FiledByFields(Last(findings), namespace);
      assert multiset(findings) == multiset(Init(findings)) + multiset{Last(findings)};
    }
  }

  /** Each report's results are the findings filed under its namespace, as often as they were found, with their number. */
  lemma ReportByFields(findings: seq<Exported>, ns: string)
    ensures var r := ReportFor(findings, ns);
            && r.namespace == ns && r.fail == |r.results|
            && forall f :: multiset(r.results)[f] == if IsFiledUnder(f, Some(ns)) then multiset(findings)[f] else 0
  {
    hide FiledUnder, IsFiledUnder;
    FiledUnderByFields(findings, Some(ns));
  }

  /** A result shows the rule type of a role finding or the id of a CVE, and the finding's score. */
  lemma ResultByFields(findings: seq<Exported>, k: nat)
    requires k < |findings|
    ensures |ResultsOf(findings)| == |findings|
    ensures ResultsOf(findings)[k] ==
            match findings[k]
            case RbacItem(r) => SarifResult(RbacRule(r.ruleType), r.score)
            case ImageItem(i) => SarifResult(CveRule(i.key.cveId), i.score)
  {
    hide ResultsOf, RuleIds;
    ResultsAreFindings(findings);
  }

  /** Between 0.0 and the cap, security-severity is the nearest tenth to ten times the share of the cap. */
  lemma SecuritySeverityByFields(score: real)
    requires 0.0 <= score <= MAX_CONTEXTUAL_SCORE
    ensures -0.5 <= SecuritySeverity(score) as real - 100.0 * score / 38.9025 <= 0.5
  {
    assert MAX_CONTEXTUAL_SCORE == 38.9025;
    RoundIsNearest(10.0 * (score * 10.0 / MAX_CONTEXTUAL_SCORE));
  }
}
