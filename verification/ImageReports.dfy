/**
 * Trivy and Grype reports as findings (control-plane/app/trivy_adapter.py,
 * control-plane/app/grype_adapter.py) and their summary (control-plane/app/image_ingest.py).
 */
module ImageReports {
  import opened Sequences
  import opened Scoring
  import opened Text

  // ---------------------------------------------------------------------
  // Reports
  // ---------------------------------------------------------------------

  /** One vendor's data in Trivy's CVSS table; v3 is None when V3Score is absent or no number. */
  datatype VendorScore = NotAnObject | Vendor(v3: Option<real>)

  datatype TrivyVuln = TrivyVuln(id: Option<string>, package: Option<string>, installed: Option<string>,
                                 fixed: Option<string>, severity: Option<string>, cvss: seq<VendorScore>)
  datatype TrivyReport = TrivyReport(artifactName: Option<string>, results: seq<seq<TrivyVuln>>)

  /** One entry of Grype's cvss list. */
  datatype CvssEntry = NotAnEntry | CvssEntry(version: Option<string>, baseScore: Option<real>)

  datatype GrypeMatch = GrypeMatch(id: Option<string>, package: Option<string>, installed: Option<string>,
                                   fixVersions: seq<string>, severity: Option<string>, cvss: seq<CvssEntry>)
  datatype GrypeTarget = NoTarget | NameTarget(name: string)
                       | ImageTarget(userInput: Option<string>, imageId: Option<string>)
  datatype GrypeReport = GrypeReport(target: GrypeTarget, matches: seq<GrypeMatch>)

  datatype FindingKey = FindingKey(cveId: string, image: string, component: string)
  datatype ImageFinding = ImageFinding(key: FindingKey, severity: Severity, cvssScore: Option<real>,
                                       version: Option<string>, fixed: Option<string>, score: real)

  predicate IsGiven(s: Option<string>) {
    s.Some? && s.value != ""
  }

  function OrNone(s: Option<string>): Option<string> {
    if IsGiven(s) then s else None
  }

  /** _severity: upper-cased, or UNKNOWN when absent. */
  function SeverityNamed(raw: Option<string>): Severity {
    if !IsGiven(raw) then UNKNOWN
    else
      var name := Upper(raw.value);
      if name == "CRITICAL" then CRITICAL
      else if name == "HIGH" then HIGH
      else if name == "MEDIUM" then MEDIUM
      else if name == "LOW" then LOW
      else if name == "UNKNOWN" then UNKNOWN
      else OTHER(name)
  }

  // ---------------------------------------------------------------------
  // The best CVSS v3 score
  // ---------------------------------------------------------------------

  /** The v3 score that an entry contributes; Grype entries of another version are not comparable. */
  function VendorV3(v: VendorScore): Option<real> {
    if v.Vendor? then v.v3 else None
  }

  function EntryV3(e: CvssEntry): Option<real> {
    if e.CvssEntry? && (IsGiven(e.version) ==> "3" <= e.version.value) then e.baseScore else None
  }

  ghost predicate IsBest<T(!new)>(best: Option<real>, entries: seq<T>, v3: T -> Option<real>) {
    match best
    case None => forall e :: e in entries ==> v3(e).None?
    case Some(score) =>
      && (exists e :: e in entries && v3(e) == Some(score))
      && (forall e :: e in entries && v3(e).Some? ==> v3(e).value <= score)
  }

  /** The scores collected, in order. */
  function Scores<T>(entries: seq<T>, v3: T -> Option<real>): seq<real> {
    if entries == [] then []
    else
      var front, s := Scores(Init(entries), v3), v3(Last(entries));
      if s.Some? then front + [s.value] else front
  }

  function MaxOf(scores: seq<real>): Option<real> {
    if scores == [] then None
    else
      match MaxOf(Init(scores))
      case None => Some(Last(scores))
      case Some(m) => Some(if m < Last(scores) then Last(scores) else m)
  }

  function BestScore<T>(entries: seq<T>, v3: T -> Option<real>): Option<real> {
    MaxOf(Scores(entries, v3))
  }

  /** The score kept is the largest one that counts, and there is none exactly when none counts. */
  lemma {:induction false} BestScoreIsBest<T(!new)>(entries: seq<T>, v3: T -> Option<real>)
    ensures IsBest(BestScore(entries, v3), entries, v3)
  {
    if entries != [] {
      BestScoreIsBest(Init(entries), v3);
      hide BestScore;
      assert forall e :: e in entries <==> e in Init(entries) || e == Last(entries);
    }
  }

  method CollectScores<T>(entries: seq<T>, v3: T -> Option<real>) returns (best: Option<real>)
    ensures best == BestScore(entries, v3)
  {
    var scores := [];
    for i := 0 to |entries|
      invariant scores == Scores(entries[..i], v3)
    {
      InitOfPrefix(entries, i);
      var s := v3(entries[i]);
      if s.Some? {
        scores := scores + [s.value];
      }
    }
    assert entries[..|entries|] == entries;
    best := MaxOf(scores);
  }

  // ---------------------------------------------------------------------
  // Findings, before and after merging
  // ---------------------------------------------------------------------

  /** A record without an id or a package name has no key. */
  predicate IsKeyed(id: Option<string>, package: Option<string>) {
    IsGiven(id) && IsGiven(package)
  }

  function Scored(key: FindingKey, severity: Severity, cvss: Option<real>, version: Option<string>,
                  fixed: Option<string>, ctx: Context): ImageFinding
  {
    ImageFinding(key, severity, cvss, version, fixed, ContextualScore(cvss, severity, ctx))
  }

  function TrivyFinding(v: TrivyVuln, image: string, ctx: Context): ImageFinding
    requires IsKeyed(v.id, v.package)
  {
    Scored(FindingKey(v.id.value, image, Lower(v.package.value)), SeverityNamed(v.severity),
           BestScore(v.cvss, VendorV3), v.installed, OrNone(v.fixed), ctx)
  }

  function GrypeFinding(m: GrypeMatch, image: string, ctx: Context): ImageFinding
    requires IsKeyed(m.id, m.package)
  {
    Scored(FindingKey(m.id.value, image, Lower(m.package.value)), SeverityNamed(m.severity),
           BestScore(m.cvss, EntryV3), m.installed, if m.fixVersions != [] then Some(m.fixVersions[0]) else None, ctx)
  }

  function TrivyFindings(vulns: seq<TrivyVuln>, image: string, ctx: Context): seq<ImageFinding> {
    if vulns == [] then []
    else
      var front, v := TrivyFindings(Init(vulns), image, ctx), Last(vulns);
      if IsKeyed(v.id, v.package) then front + [TrivyFinding(v, image, ctx)] else front
  }

  function AllTrivyFindings(results: seq<seq<TrivyVuln>>, image: string, ctx: Context): seq<ImageFinding> {
    if results == [] then []
    else AllTrivyFindings(Init(results), image, ctx) + TrivyFindings(Last(results), image, ctx)
  }

  function GrypeFindings(matches: seq<GrypeMatch>, image: string, ctx: Context): seq<ImageFinding> {
    if matches == [] then []
    else
      var front, m := GrypeFindings(Init(matches), image, ctx), Last(matches);
      if IsKeyed(m.id, m.package) then front + [GrypeFinding(m, image, ctx)] else front
  }

  function ImageName(target: GrypeTarget): string {
    match target
    case NameTarget(name) => name
    case ImageTarget(userInput, imageId) =>
      if IsGiven(userInput) then userInput.value else if IsGiven(imageId) then imageId.value else "unknown"
    case NoTarget => "unknown"
  }

  ghost predicate HasKey(findings: seq<ImageFinding>, key: FindingKey) {
    exists f :: f in findings && f.key == key
  }

  /** Of the findings under each key, the first. */
  ghost function FirstPerKey(findings: seq<ImageFinding>): seq<ImageFinding> {
    if findings == [] then []
    else
      var front, f := FirstPerKey(Init(findings)), Last(findings);
      if HasKey(front, f.key) then front else front + [f]
  }

  function KeyOf(f: ImageFinding): FindingKey {
    f.key
  }

  function ScoreOf(f: ImageFinding): real {
    f.score
  }

  /** "merged": a dict as its values in insertion order, and its keys. */
  ghost predicate IsMerged(values: seq<ImageFinding>, keys: set<FindingKey>, findings: seq<ImageFinding>) {
    values == FirstPerKey(findings) && forall k :: k in keys <==> HasKey(values, k)
  }

  lemma MergeOne(findings: seq<ImageFinding>, keys: set<FindingKey>, f: ImageFinding)
    requires IsMerged(FirstPerKey(findings), keys, findings)
    ensures f.key in keys ==> IsMerged(FirstPerKey(findings), keys, findings + [f])
    ensures f.key !in keys ==> IsMerged(FirstPerKey(findings) + [f], keys + {f.key}, findings + [f])
  {
    var values := FirstPerKey(findings);
    assert Init(findings + [f]) == findings;
    assert forall g :: g in values + [f] <==> g in values || g == f;
    assert f in values + [f];
  }

  /** The inner loop of the Trivy adapter: one Results[] entry. */
  method MergeTrivy(values0: seq<ImageFinding>, keys0: set<FindingKey>, ghost before: seq<ImageFinding>,
                    vulns: seq<TrivyVuln>, image: string, ctx: Context)
    returns (values: seq<ImageFinding>, keys: set<FindingKey>)
    requires IsMerged(values0, keys0, before)
    ensures IsMerged(values, keys, before + TrivyFindings(vulns, image, ctx))
  {
    hide IsMerged, TrivyFinding;
    values, keys := values0, keys0;
    assert before + [] == before;
    for i := 0 to |vulns|
      invariant IsMerged(values, keys, before + TrivyFindings(vulns[..i], image, ctx))
    {
      var v := vulns[i];
      InitOfPrefix(vulns, i);
      if !IsKeyed(v.id, v.package) {
        continue;
      }
      ghost var soFar := before + TrivyFindings(vulns[..i], image, ctx);
      ghost var f := TrivyFinding(v, image, ctx);
      MergedValues(values, keys, soFar);
      MergeOne(soFar, keys, f);
      AppendAssociates(before, TrivyFindings(vulns[..i], image, ctx), [f]);
      var key := FindingKey(v.id.value, image, Lower(v.package.value));
      TrivyKey(v, image, ctx);
      if key in keys {
        continue;
      }
      var cvss := CollectScores(v.cvss, VendorV3);
      values := values + [Scored(key, SeverityNamed(v.severity), cvss, v.installed, OrNone(v.fixed), ctx)];
      keys := keys + {key};
    }
    assert vulns[..|vulns|] == vulns;
  }

  lemma MergedValues(values: seq<ImageFinding>, keys: set<FindingKey>, findings: seq<ImageFinding>)
    requires IsMerged(values, keys, findings)
    ensures values == FirstPerKey(findings)
  {
  }

  lemma TrivyKey(v: TrivyVuln, image: string, ctx: Context)
    requires IsKeyed(v.id, v.package)
    ensures var key := FindingKey(v.id.value, image, Lower(v.package.value));
            && TrivyFinding(v, image, ctx).key == key
            && TrivyFinding(v, image, ctx) == Scored(key, SeverityNamed(v.severity), BestScore(v.cvss, VendorV3),
                                                     v.installed, OrNone(v.fixed), ctx)
  {
    hide ContextualScore, Lower, SeverityNamed, BestScore;
  }

  lemma GrypeKey(m: GrypeMatch, image: string, ctx: Context)
    requires IsKeyed(m.id, m.package)
    ensures var key := FindingKey(m.id.value, image, Lower(m.package.value));
            && GrypeFinding(m, image, ctx).key == key
            && GrypeFinding(m, image, ctx) ==
               Scored(key, SeverityNamed(m.severity), BestScore(m.cvss, EntryV3), m.installed,
                      if m.fixVersions != [] then Some(m.fixVersions[0]) else None, ctx)
  {
    hide ContextualScore, Lower, SeverityNamed, BestScore;
  }

  /** trivy_adapter.parse: the first finding under every key, by descending score. */
  method ParseTrivy(report: TrivyReport, ctx: Context) returns (findings: seq<ImageFinding>)
    ensures var image := if report.artifactName.Some? then report.artifactName.value else "unknown";
            IsStableSort(FirstPerKey(AllTrivyFindings(report.results, image, ctx)), findings, ScoreOf)
    ensures ScoredBy(findings, ctx)
  {
    hide IsMerged, TrivyFindings;
    var image := if report.artifactName.Some? then report.artifactName.value else "unknown";
    var values: seq<ImageFinding>, keys: set<FindingKey> := [], {};
    NothingMerged();
    for i := 0 to |report.results|
      invariant IsMerged(values, keys, AllTrivyFindings(report.results[..i], image, ctx))
    {
      InitOfPrefix(report.results, i);
      values, keys := MergeTrivy(values, keys, AllTrivyFindings(report.results[..i], image, ctx),
                                 report.results[i], image, ctx);
    }
    assert report.results[..|report.results|] == report.results;
    MergedValues(values, keys, AllTrivyFindings(report.results, image, ctx));
    StableSortIsStable(values, ScoreOf);
    findings := StableSort(values, ScoreOf);
    AllTrivyIsScored(report.results, image, ctx);
    ReportIsScored(AllTrivyFindings(report.results, image, ctx), findings, ctx);
  }

  lemma NothingMerged()
    ensures IsMerged([], {}, [])
  {
  }

  /** grype_adapter.parse */
  method ParseGrype(report: GrypeReport, ctx: Context) returns (findings: seq<ImageFinding>)
    ensures IsStableSort(FirstPerKey(GrypeFindings(report.matches, ImageName(report.target), ctx)), findings, ScoreOf)
    ensures ScoredBy(findings, ctx)
  {
    hide IsMerged, GrypeFinding, ImageName;
    var image := ImageName(report.target);
    var values: seq<ImageFinding>, keys: set<FindingKey> := [], {};
    NothingMerged();
    for i := 0 to |report.matches|
      invariant IsMerged(values, keys, GrypeFindings(report.matches[..i], image, ctx))
    {
      var m := report.matches[i];
      InitOfPrefix(report.matches, i);
      if !IsKeyed(m.id, m.package) {
        continue;
      }
      ghost var soFar := GrypeFindings(report.matches[..i], image, ctx);
      MergedValues(values, keys, soFar);
      MergeOne(soFar, keys, GrypeFinding(m, image, ctx));
      var key := FindingKey(m.id.value, image, Lower(m.package.value));
      GrypeKey(m, image, ctx);
      if key in keys {
        continue;
      }
      var fixed := if m.fixVersions != [] then Some(m.fixVersions[0]) else None;
      var cvss := CollectScores(m.cvss, EntryV3);
      values := values + [Scored(key, SeverityNamed(m.severity), cvss, m.installed, fixed, ctx)];
      keys := keys + {key};
    }
    assert report.matches[..|report.matches|] == report.matches;
    MergedValues(values, keys, GrypeFindings(report.matches, image, ctx));
    StableSortIsStable(values, ScoreOf);
    findings := StableSort(values, ScoreOf);
    GrypeIsScored(report.matches, image, ctx);
    ReportIsScored(GrypeFindings(report.matches, image, ctx), findings, ctx);
  }

  // ---------------------------------------------------------------------
  // What merging keeps
  // ---------------------------------------------------------------------

  ghost predicate IsFirstOfItsKey(findings: seq<ImageFinding>, f: ImageFinding) {
    exists i :: 0 <= i < |findings| && findings[i] == f && forall j :: 0 <= j < i ==> findings[j].key != f.key
  }

  lemma HasKeySnoc(findings: seq<ImageFinding>, f: ImageFinding, key: FindingKey)
    ensures HasKey(findings + [f], key) <==> HasKey(findings, key) || f.key == key
  {
    assert forall g :: g in findings + [f] <==> g in findings || g == f;
  }

  lemma DistinctKeysSnoc(values: seq<ImageFinding>, f: ImageFinding)
    requires DistinctTags(values, KeyOf) && !HasKey(values, f.key)
    ensures DistinctTags(values + [f], KeyOf)
  {
    forall i | 0 <= i < |values| ensures values[i].key != f.key {
      assert values[i] in values;
    }
  }

  lemma {:induction false} FirstPerKeyIsExact(findings: seq<ImageFinding>)
    ensures DistinctTags(FirstPerKey(findings), KeyOf)
    ensures forall f :: f in FirstPerKey(findings) <==> IsFirstOfItsKey(findings, f)
    ensures forall k :: HasKey(FirstPerKey(findings), k) <==> HasKey(findings, k)
  {
    hide IsFirstOfItsKey, HasKey, DistinctTags;
    if findings == [] {
      NothingFirst();
    } else {
      var front, l := Init(findings), Last(findings);
      var values := FirstPerKey(front);
      FirstPerKeyIsExact(front);
      forall f ensures f in FirstPerKey(findings) <==> IsFirstOfItsKey(findings, f) {
        FirstOfAppended(findings, f);
      }
      forall k ensures HasKey(FirstPerKey(findings), k) <==> HasKey(findings, k) {
        HasKeySnoc(front, l, k);
        HasKeySnoc(values, l, k);
      }
      if !HasKey(values, l.key) {
        DistinctKeysSnoc(values, l);
      }
    }
  }

  lemma NothingFirst()
    ensures DistinctTags<ImageFinding, FindingKey>([], KeyOf) && forall f :: !IsFirstOfItsKey([], f)
  {
  }

  lemma FirstOfAppended(findings: seq<ImageFinding>, f: ImageFinding)
    requires findings != []
    ensures IsFirstOfItsKey(findings, f) <==>
            IsFirstOfItsKey(Init(findings), f) || (f == Last(findings) && !HasKey(Init(findings), f.key))
  {
    var front, n := Init(findings), |findings| - 1;
    if IsFirstOfItsKey(findings, f) {
      var i :| 0 <= i < |findings| && findings[i] == f && forall j :: 0 <= j < i ==> findings[j].key != f.key;
      if i < n {
        assert front[i] == f && forall j :: 0 <= j < i ==> front[j].key != f.key;
      } else {
        assert forall j :: 0 <= j < n ==> front[j] == findings[j];
      }
    }
    if IsFirstOfItsKey(front, f) {
      var i :| 0 <= i < |front| && front[i] == f && forall j :: 0 <= j < i ==> front[j].key != f.key;
      assert findings[i] == f && forall j :: 0 <= j < i ==> findings[j].key == front[j].key;
    }
    if f == Last(findings) && !HasKey(front, f.key) {
      assert findings[n] == f;
      forall j | 0 <= j < n ensures findings[j].key != f.key {
        assert front[j] in front;
      }
    }
  }

  /** The report is a permutation of the first findings: keys are distinct, none is lost, none is invented. */
  lemma ParsedReportIsExact(findings: seq<ImageFinding>, report: seq<ImageFinding>)
    requires IsStableSort(FirstPerKey(findings), report, ScoreOf)
    ensures DistinctTags(report, KeyOf)
    ensures forall f :: f in report <==> IsFirstOfItsKey(findings, f)
    ensures forall k :: HasKey(report, k) <==> HasKey(findings, k)
  {
    hide IsFirstOfItsKey;
    FirstPerKeyIsExact(findings);
    StableSortKeepsElements(FirstPerKey(findings), report, ScoreOf);
    SameMembers(FirstPerKey(findings), report);
    PermutationKeepsDistinctTags(FirstPerKey(findings), report, KeyOf);
  }

  // ---------------------------------------------------------------------
  // score_report
  // ---------------------------------------------------------------------

  function NormalisedAll(findings: seq<ImageFinding>): seq<ImageFinding> {
    if findings == [] then []
    else NormalisedAll(Init(findings)) + [Last(findings).(severity := Normalised(Last(findings).severity))]
  }

  function CountOf(findings: seq<ImageFinding>, severity: Severity): nat {
    if findings == [] then 0
    else CountOf(Init(findings), severity) + if Last(findings).severity == severity then 1 else 0
  }

  const LISTED := {CRITICAL, HIGH, MEDIUM, LOW, UNKNOWN}

  lemma CountSnoc(findings: seq<ImageFinding>, f: ImageFinding, severity: Severity)
    ensures CountOf(findings + [f], severity) == CountOf(findings, severity) + if f.severity == severity then 1 else 0
  {
    assert Init(findings + [f]) == findings;
  }

  lemma NormalisedSnoc(findings: seq<ImageFinding>, i: nat)
    requires i < |findings|
    ensures NormalisedAll(findings[..i + 1]) ==
            NormalisedAll(findings[..i]) + [findings[i].(severity := Normalised(findings[i].severity))]
  {
    InitOfPrefix(findings, i);
  }

  /** The loop of score_report: severities are overwritten in place while they are counted. */
  method SummariseSeverities(findings: array<ImageFinding>) returns (breakdown: map<Severity, nat>)
    modifies findings
    ensures findings[..] == NormalisedAll(old(findings[..]))
    ensures breakdown.Keys == LISTED
    ensures forall s :: s in LISTED ==> breakdown[s] == CountOf(findings[..], s)
  {
    hide NormalisedAll, CountOf;
    breakdown := map[CRITICAL := 0, HIGH := 0, MEDIUM := 0, LOW := 0, UNKNOWN := 0];
    ghost var before := findings[..];
    NothingNormalised();
    for i := 0 to findings.Length
      invariant findings[..i] == NormalisedAll(before[..i])
      invariant findings[i..] == before[i..]
      invariant breakdown.Keys == LISTED
      invariant forall s :: s in LISTED ==> breakdown[s] == CountOf(findings[..i], s)
    {
      NormalisedSnoc(before, i);
      assert findings[i] == findings[i..][0] == before[i];
      ghost var counted := findings[..i];
      if findings[i].severity !in LISTED {
        findings[i] := findings[i].(severity := UNKNOWN);
      }
      ghost var f := findings[i];
      assert findings[..i + 1] == counted + [f];
      forall s ensures CountOf(findings[..i + 1], s) == CountOf(counted, s) + if f.severity == s then 1 else 0 {
        CountSnoc(counted, f, s);
      }
      breakdown := breakdown[findings[i].severity := breakdown[findings[i].severity] + 1];
    }
    assert before[..findings.Length] == before && findings[..findings.Length] == findings[..];
  }

  lemma NothingNormalised()
    ensures NormalisedAll([]) == [] && forall s :: CountOf([], s) == 0
  {
  }

  /** The breakdown accounts for every finding. */
  lemma {:induction false} BreakdownSumsToCount(findings: seq<ImageFinding>)
    ensures var n := NormalisedAll(findings);
            CountOf(n, CRITICAL) + CountOf(n, HIGH) + CountOf(n, MEDIUM) + CountOf(n, LOW) + CountOf(n, UNKNOWN)
            == |findings|
  {
    if findings != [] {
      BreakdownSumsToCount(Init(findings));
      assert Init(NormalisedAll(findings)) == NormalisedAll(Init(findings));
    }
  }

  ghost predicate ScoredBy(findings: seq<ImageFinding>, ctx: Context) {
    forall f :: f in findings ==> f.score == ContextualScore(f.cvssScore, f.severity, ctx)
  }

  /** Overwriting a severity after scoring leaves the score that the new severity would have been given. */
  lemma {:induction false} LateNormalisationKeepsScores(findings: seq<ImageFinding>, ctx: Context)
    requires ScoredBy(findings, ctx)
    ensures ScoredBy(NormalisedAll(findings), ctx)
  {
    hide ContextualScore;
    if findings != [] {
      var l := Last(findings);
      assert forall f :: f in Init(findings) ==> f in findings;
      LateNormalisationKeepsScores(Init(findings), ctx);
      NormalisingKeepsScores(l.cvssScore, l.severity, ctx);
      assert l in findings;
      assert forall f :: f in NormalisedAll(findings) <==>
        f in NormalisedAll(Init(findings)) || f == l.(severity := Normalised(l.severity));
    }
  }

  lemma {:induction false} TrivyIsScored(vulns: seq<TrivyVuln>, image: string, ctx: Context)
    ensures ScoredBy(TrivyFindings(vulns, image, ctx), ctx)
  {
    hide ContextualScore, Lower, SeverityNamed, BestScore;
    if vulns != [] {
      TrivyIsScored(Init(vulns), image, ctx);
    }
  }

  lemma {:induction false} GrypeIsScored(matches: seq<GrypeMatch>, image: string, ctx: Context)
    ensures ScoredBy(GrypeFindings(matches, image, ctx), ctx)
  {
    hide ContextualScore, Lower, SeverityNamed, BestScore;
    if matches != [] {
      GrypeIsScored(Init(matches), image, ctx);
    }
  }

  lemma {:induction false} AllTrivyIsScored(results: seq<seq<TrivyVuln>>, image: string, ctx: Context)
    ensures ScoredBy(AllTrivyFindings(results, image, ctx), ctx)
  {
    hide ContextualScore, TrivyFindings;
    if results != [] {
      AllTrivyIsScored(Init(results), image, ctx);
      TrivyIsScored(Last(results), image, ctx);
    }
  }

  /** Dropping repeated keys and sorting keep the scores right. */
  lemma ReportIsScored(findings: seq<ImageFinding>, report: seq<ImageFinding>, ctx: Context)
    requires ScoredBy(findings, ctx) && IsStableSort(FirstPerKey(findings), report, ScoreOf)
    ensures ScoredBy(report, ctx)
  {
    hide ContextualScore, FirstPerKey;
    ParsedReportIsExact(findings, report);
    forall f | f in report ensures f in findings {
      assert IsFirstOfItsKey(findings, f);
    }
  }

  // ---------------------------------------------------------------------
  // The whole of score_report
  // ---------------------------------------------------------------------

  datatype Report = Trivy(trivy: TrivyReport) | Grype(grype: GrypeReport)

  /** What the records of a report say, before merging. */
  function RawFindings(report: Report, ctx: Context): seq<ImageFinding> {
    match report
    case Trivy(r) =>
      AllTrivyFindings(r.results, if r.artifactName.Some? then r.artifactName.value else "unknown", ctx)
    case Grype(r) => GrypeFindings(r.matches, ImageName(r.target), ctx)
  }

  /** score_report: parsed, normalised and counted, with every score that of the severity shown. */
  method ScoreReport(report: Report, ctx: Context)
    returns (findings: array<ImageFinding>, breakdown: map<Severity, nat>)
    ensures fresh(findings)
    ensures exists parsed :: IsStableSort(FirstPerKey(RawFindings(report, ctx)), parsed, ScoreOf)
                          && findings[..] == NormalisedAll(parsed)
    ensures ScoredBy(findings[..], ctx)
    ensures breakdown.Keys == LISTED && forall s :: s in LISTED ==> breakdown[s] == CountOf(findings[..], s)
    ensures breakdown[CRITICAL] + breakdown[HIGH] + breakdown[MEDIUM] + breakdown[LOW] + breakdown[UNKNOWN]
            == findings.Length
  {
    hide NormalisedAll, CountOf, FirstPerKey, IsStableSort, ContextualScore, ImageName, AllTrivyFindings, GrypeFindings;
    var parsed;
    match report {
      case Trivy(r) => parsed := ParseTrivy(r, ctx);
      case Grype(r) => parsed := ParseGrype(r, ctx);
    }
    findings := new ImageFinding[|parsed|](i requires 0 <= i < |parsed| => parsed[i]);
    assert findings[..] == parsed;
    breakdown := SummariseSeverities(findings);
    LateNormalisationKeepsScores(parsed, ctx);
    BreakdownSumsToCount(parsed);
    NormalisedLength(parsed);
  }

  lemma {:induction false} NormalisedLength(findings: seq<ImageFinding>)
    ensures |NormalisedAll(findings)| == |findings|
  {
    if findings != [] { NormalisedLength(Init(findings)); }
  }
}
