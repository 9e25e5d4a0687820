/** Matching CVE entries against a cluster inventory (control-plane/app/cve_service.py, _match_cves). */
module CveMatching {
  import opened Sequences
  import opened Scoring
  import opened Semver
  import opened Text
  import OsvRanges

  datatype Addon = Addon(name: string, version: string)
  datatype Inventory = Inventory(serverVersion: string, nodeVersions: seq<string>, addons: seq<Addon>)

  datatype Component = Component(name: string, versions: seq<string>, ranges: seq<OsvRanges.Range>,
                                 fixedIn: Option<string>)
  datatype Entry = Entry(cveId: string, severity: Severity, cvssScore: Option<real>, components: seq<Component>)

  datatype Match = Match(component: string, version: string, fixed: Option<string>)
  datatype CveFinding = CveFinding(entry: Entry, affected: seq<Match>, score: real)

  /** part in text */
  predicate Occurs(part: string, text: string) {
    part <= text || (text != "" && Occurs(part, text[1..]))
  }

  predicate Overlaps(known: string, component: string) {
    known == component || Occurs(component, known) || Occurs(known, component)
  }

  // ---------------------------------------------------------------------
  // What a match means
  // ---------------------------------------------------------------------

  /** The inventory holds this version under this (lower-cased) name. */
  ghost predicate Present(inv: Inventory, name: string, version: string) {
    || (name == "kubernetes" && version == inv.serverVersion && version != "" && version != "unknown")
    || (name == "kubernetes" && version in inv.nodeVersions)
    || (exists a :: a in inv.addons && Lower(a.name) == name && a.version == version && version != "unknown")
  }

  function BeforeDash(s: string): string {
    if s == "" || s[0] == '-' then "" else [s[0]] + BeforeDash(s[1..])
  }

  predicate IsListed(c: Component, version: string) {
    exists v :: v in c.versions && BeforeDash(DropLeading(v, IsV)) == version
  }

  predicate Holds(r: OsvRanges.Range, version: string) {
    VersionInRange(version, r.introduced, r.fixed)
  }

  predicate Hits(c: Component, version: string) {
    IsListed(c, version) || exists r :: r in c.ranges && Holds(r, version)
  }

  /** Some inventory version under an overlapping name is hit. */
  ghost predicate IsAffected(e: Entry, inv: Inventory) {
    exists c, name, version :: c in e.components && Concerns(c, inv, name, version) && Hits(c, version)
  }

  ghost predicate Concerns(c: Component, inv: Inventory, name: string, version: string) {
    Lower(c.name) != "" && Overlaps(name, Lower(c.name)) && Present(inv, name, version)
  }

  // ---------------------------------------------------------------------
  // The triples of a component, whatever the iteration order
  // ---------------------------------------------------------------------

  function FirstHolding(ranges: seq<OsvRanges.Range>, version: string): Option<OsvRanges.Range> {
    if ranges == [] then None
    else if Holds(ranges[0], version) then Some(ranges[0]) else FirstHolding(ranges[1..], version)
  }

  /** At most one match per component and version: a listed version, or else the first range that holds it. */
  function MatchOf(c: Component, version: string): Option<Match> {
    if IsListed(c, version) then Some(Match(Lower(c.name), version, c.fixedIn))
    else
      match FirstHolding(c.ranges, version)
      case Some(r) => Some(Match(Lower(c.name), version, r.fixed))
      case None => None
  }

  ghost function AllVersions(inv: Inventory): set<string> {
    {inv.serverVersion} + (set v | v in inv.nodeVersions) + (set a | a in inv.addons :: a.version)
  }

  ghost function Candidates(c: Component, inv: Inventory): set<string> {
    set v | v in AllVersions(inv) && exists name :: Concerns(c, inv, name, v)
  }

  ghost function MatchesAmong(c: Component, versions: set<string>): set<Match> {
    set v | v in versions && MatchOf(c, v).Some? :: MatchOf(c, v).value
  }

  ghost function MatchesOf(components: seq<Component>, inv: Inventory): multiset<Match> {
    if components == [] then multiset{}
    else
      MatchesOf(Init(components), inv) + multiset(MatchesAmong(Last(components), Candidates(Last(components), inv)))
  }

  /** The name of the first component with a match. */
  ghost function FirstAffected(components: seq<Component>, inv: Inventory): Option<string> {
    if components == [] then None
    else
      var front, c := FirstAffected(Init(components), inv), Last(components);
      if front.Some? then front
      else if MatchesAmong(c, Candidates(c, inv)) != {} then Some(Lower(c.name)) else None
  }

  ghost predicate AffectedIsRight(affected: seq<Match>, components: seq<Component>, inv: Inventory) {
    && multiset(affected) == MatchesOf(components, inv)
    && FirstAffected(components, inv) == if affected == [] then None else Some(affected[0].component)
  }

  /** The affected entries in feed order, with their scores. */
  ghost function Scored(entries: seq<Entry>, inv: Inventory, ctx: Context): seq<(Entry, real)> {
    if entries == [] then []
    else
      var front, e := Scored(Init(entries), inv, ctx), Last(entries);
      if IsAffected(e, inv) then front + [(e, ContextualScore(e.cvssScore, e.severity, ctx))] else front
  }

  function ScoreOf(p: (Entry, real)): real {
    p.1
  }

  function Summary(findings: seq<CveFinding>): seq<(Entry, real)> {
    if findings == [] then [] else Summary(Init(findings)) + [(Last(findings).entry, Last(findings).score)]
  }

  function FindingScore(f: CveFinding): real {
    f.score
  }

  // ---------------------------------------------------------------------
  // The loops; sets are iterated in any order
  // ---------------------------------------------------------------------

  function VersionsUnder(known: map<string, set<string>>, name: string): set<string> {
    if name in known then known[name] else {}
  }

  ghost predicate IsInventoryMap(known: map<string, set<string>>, inv: Inventory) {
    forall name, v :: v in VersionsUnder(known, name) <==> Present(inv, name, v)
  }

  /** versions_map[name].add(version) */
  function AddVersion(known: map<string, set<string>>, name: string, version: string): map<string, set<string>> {
    known[name := VersionsUnder(known, name) + {version}]
  }

  method BuildVersionsMap(inv: Inventory) returns (known: map<string, set<string>>)
    ensures IsInventoryMap(known, inv)
  {
    known := map["kubernetes" := {}];
    if inv.serverVersion != "" && inv.serverVersion != "unknown" {
      known := AddVersion(known, "kubernetes", inv.serverVersion);
    }
    assert IsInventoryMap(known, inv.(nodeVersions := inv.nodeVersions[..0], addons := []));
    for i := 0 to |inv.nodeVersions|
      invariant IsInventoryMap(known, inv.(nodeVersions := inv.nodeVersions[..i], addons := []))
    {
      NodeStep(known, inv, i);
      known := AddVersion(known, "kubernetes", inv.nodeVersions[i]);
    }
    assert inv.nodeVersions[..|inv.nodeVersions|] == inv.nodeVersions;
    assert inv.addons[..0] == [];
    for i := 0 to |inv.addons|
      invariant IsInventoryMap(known, inv.(addons := inv.addons[..i]))
    {
      var a := inv.addons[i];
      AddonStep(known, inv, i);
      if Lower(a.name) !in known {
        known := known[Lower(a.name) := {}];
      }
      if a.version != "unknown" {
        known := AddVersion(known, Lower(a.name), a.version);
      }
    }
    assert inv.addons[..|inv.addons|] == inv.addons;
  }

  lemma NodeStep(known: map<string, set<string>>, inv: Inventory, i: nat)
    requires i < |inv.nodeVersions|
    requires IsInventoryMap(known, inv.(nodeVersions := inv.nodeVersions[..i], addons := []))
    ensures IsInventoryMap(AddVersion(known, "kubernetes", inv.nodeVersions[i]),
                           inv.(nodeVersions := inv.nodeVersions[..i + 1], addons := []))
  {
    var before, after := inv.(nodeVersions := inv.nodeVersions[..i], addons := []),
                         inv.(nodeVersions := inv.nodeVersions[..i + 1], addons := []);
    assert inv.nodeVersions[..i + 1] == inv.nodeVersions[..i] + [inv.nodeVersions[i]];
    forall name, v ensures Present(after, name, v) <==>
                           Present(before, name, v) || (name == "kubernetes" && v == inv.nodeVersions[i]) {
    }
  }

  lemma AddonStep(known: map<string, set<string>>, inv: Inventory, i: nat)
    requires i < |inv.addons| && IsInventoryMap(known, inv.(addons := inv.addons[..i]))
    ensures var a, after := inv.addons[i], inv.(addons := inv.addons[..i + 1]);
            var base := if Lower(a.name) !in known then known[Lower(a.name) := {}] else known;
            IsInventoryMap(if a.version != "unknown" then AddVersion(base, Lower(a.name), a.version) else base, after)
  {
    hide Lower;
    var a, before, after := inv.addons[i], inv.(addons := inv.addons[..i]), inv.(addons := inv.addons[..i + 1]);
    assert inv.addons[..i + 1] == inv.addons[..i] + [a];
    assert forall b :: b in after.addons <==> b in before.addons || b == a;
    forall name, v ensures Present(after, name, v) <==>
      Present(before, name, v) || (name == Lower(a.name) && v == a.version && v != "unknown") {
    }
  }

  /** candidate_versions: the union over all overlapping known names. */
  method CollectCandidates(known: map<string, set<string>>, c: Component, ghost inv: Inventory)
    returns (candidates: set<string>)
    requires IsInventoryMap(known, inv) && Lower(c.name) != ""
    ensures candidates == Candidates(c, inv)
  {
    hide Overlaps, Lower, Present;
    candidates := {};
    var names := known.Keys;
    while names != {}
      invariant names <= known.Keys
      invariant forall v :: v in candidates <==>
        exists name :: name in known.Keys - names && Overlaps(name, Lower(c.name)) && v in known[name]
      decreases |names|
    {
      var name :| name in names;
      names := names - {name};
      if Overlaps(name, Lower(c.name)) {
        candidates := candidates + known[name];
      }
    }
    forall v ensures v in candidates <==> v in Candidates(c, inv) {
      if v in candidates {
        var name :| name in known.Keys && Overlaps(name, Lower(c.name)) && v in known[name];
        assert v in VersionsUnder(known, name);
        assert Concerns(c, inv, name, v);
        PresentIsListed(inv, name, v);
      }
      if v in Candidates(c, inv) {
        var name :| Concerns(c, inv, name, v);
        assert v in VersionsUnder(known, name);
      }
    }
  }

  lemma PresentIsListed(inv: Inventory, name: string, v: string)
    requires Present(inv, name, v)
    ensures v in AllVersions(inv)
  {
  }

  method FindFirstRange(ranges: seq<OsvRanges.Range>, version: string) returns (r: Option<OsvRanges.Range>)
    ensures r == FirstHolding(ranges, version)
  {
    hide Holds;
    for i := 0 to |ranges|
      invariant FirstHolding(ranges, version) == FirstHolding(ranges[i..], version)
    {
      assert ranges[i..][0] == ranges[i] && ranges[i..][1..] == ranges[i + 1..];
      if Holds(ranges[i], version) {
        return Some(ranges[i]);
      }
    }
    return None;
  }

  /** The loop over candidate versions of one component. */
  method MatchComponent(c: Component, candidates: set<string>) returns (matches: seq<Match>)
    ensures multiset(matches) == multiset(MatchesAmong(c, candidates))
    ensures forall i :: 0 <= i < |matches| ==> matches[i].component == Lower(c.name)
  {
    hide IsListed, FirstHolding;
    matches := [];
    var rest := candidates;
    assert MatchesAmong(c, {}) == {};
    while rest != {}
      invariant rest <= candidates
      invariant multiset(matches) == multiset(MatchesAmong(c, candidates - rest))
      invariant forall i :: 0 <= i < |matches| ==> matches[i].component == Lower(c.name)
      decreases |rest|
    {
      var version :| version in rest;
      ghost var done := candidates - rest;
      rest := rest - {version};
      assert candidates - rest == done + {version};
      MatchesGrow(c, done, version);
      if IsListed(c, version) {
        matches := matches + [Match(Lower(c.name), version, c.fixedIn)];
        continue;
      }
      var r := FindFirstRange(c.ranges, version);
      if r.Some? {
        matches := matches + [Match(Lower(c.name), version, r.value.fixed)];
      }
    }
    assert candidates - rest == candidates;
  }

  lemma MatchesGrow(c: Component, done: set<string>, version: string)
    requires version !in done
    ensures multiset(MatchesAmong(c, done + {version})) == multiset(MatchesAmong(c, done)) +
            match MatchOf(c, version) case Some(m) => multiset{m} case None => multiset{}
  {
    hide IsListed, FirstHolding;
    var before, after := MatchesAmong(c, done), MatchesAmong(c, done + {version});
    if MatchOf(c, version).Some? {
      var m := MatchOf(c, version).value;
      assert m !in before;
      assert after == before + {m};
    } else {
      assert after == before;
    }
  }

  /** The loop over the components of one entry. */
  method MatchEntry(e: Entry, known: map<string, set<string>>, ghost inv: Inventory) returns (affected: seq<Match>)
    requires IsInventoryMap(known, inv)
    ensures AffectedIsRight(affected, e.components, inv)
  {
    hide IsInventoryMap, MatchesAmong, Candidates;
    affected := [];
    for i := 0 to |e.components|
      invariant AffectedIsRight(affected, e.components[..i], inv)
    {
      var c := e.components[i];
      InitOfPrefix(e.components, i);
      if Lower(c.name) == "" {
        NamelessHasNoMatch(c, inv);
        continue;
      }
      var candidates := CollectCandidates(known, c, inv);
      var matches := MatchComponent(c, candidates);
      assert matches != [] <==> MatchesAmong(c, candidates) != {};
      affected := affected + matches;
    }
    assert e.components[..|e.components|] == e.components;
  }

  lemma NamelessHasNoMatch(c: Component, inv: Inventory)
    requires Lower(c.name) == ""
    ensures MatchesAmong(c, Candidates(c, inv)) == {}
  {
    assert Candidates(c, inv) == {};
  }

  // ---------------------------------------------------------------------
  // Reported exactly when affected
  // ---------------------------------------------------------------------

  lemma {:induction false} FirstHoldingFinds(ranges: seq<OsvRanges.Range>, version: string)
    ensures FirstHolding(ranges, version).Some? <==> exists r :: r in ranges && Holds(r, version)
  {
    hide Holds;
    if ranges != [] {
      FirstHoldingFinds(ranges[1..], version);
      assert forall r :: r in ranges <==> r == ranges[0] || r in ranges[1..];
    }
  }

  ghost predicate ComponentIsAffected(c: Component, inv: Inventory) {
    exists name, version :: Concerns(c, inv, name, version) && Hits(c, version)
  }

  lemma MatchesWhenAffected(c: Component, inv: Inventory)
    ensures MatchesAmong(c, Candidates(c, inv)) != {} <==> ComponentIsAffected(c, inv)
  {
    hide Overlaps, Lower, IsListed, Holds, FirstHolding;
    forall v ensures MatchOf(c, v).Some? <==> Hits(c, v) {
      FirstHoldingFinds(c.ranges, v);
    }
    if ComponentIsAffected(c, inv) {
      var name, v :| Concerns(c, inv, name, v) && Hits(c, v);
      PresentIsListed(inv, name, v);
      assert MatchOf(c, v).value in MatchesAmong(c, Candidates(c, inv));
    }
    if m :| m in MatchesAmong(c, Candidates(c, inv)) {
      var v :| v in Candidates(c, inv) && MatchOf(c, v).Some? && MatchOf(c, v).value == m;
      assert Hits(c, v);
    }
  }

  lemma {:induction false} EntryMatchesWhenAffected(components: seq<Component>, inv: Inventory)
    ensures MatchesOf(components, inv) != multiset{} <==> exists c :: c in components && ComponentIsAffected(c, inv)
  {
    hide MatchesAmong, ComponentIsAffected, Candidates;
    if components != [] {
      var s := MatchesAmong(Last(components), Candidates(Last(components), inv));
      EntryMatchesWhenAffected(Init(components), inv);
      MatchesWhenAffected(Last(components), inv);
      assert s == {} ==> multiset(s) == multiset{};
      assert s != {} ==> exists m :: m in s && m in multiset(s);
      assert forall c :: c in components <==> c in Init(components) || c == Last(components);
    }
  }

  lemma AffectedWhenNonempty(e: Entry, affected: seq<Match>, inv: Inventory)
    requires AffectedIsRight(affected, e.components, inv)
    ensures affected != [] <==> IsAffected(e, inv)
  {
    hide MatchesOf, FirstAffected, Concerns, Hits;
    EntryMatchesWhenAffected(e.components, inv);
    assert affected != [] ==> affected[0] in multiset(affected);
    if IsAffected(e, inv) {
      var c, name, version :| c in e.components && Concerns(c, inv, name, version) && Hits(c, version);
      assert ComponentIsAffected(c, inv);
    }
  }

  /** _match_cves, for any iteration order of the version sets. */
  method MatchCves(entries: seq<Entry>, inv: Inventory, ctx: Context) returns (findings: seq<CveFinding>)
    ensures IsStableSort(Scored(entries, inv, ctx), Summary(findings), ScoreOf)
    ensures forall f :: f in findings ==> AffectedIsRight(f.affected, f.entry.components, inv)
  {
    hide ContextualScore, IsAffected, AffectedIsRight;
    var known := BuildVersionsMap(inv);
    findings := [];
    for i := 0 to |entries|
      invariant Summary(findings) == Scored(entries[..i], inv, ctx)
      invariant forall f :: f in findings ==> AffectedIsRight(f.affected, f.entry.components, inv)
    {
      var e := entries[i];
      InitOfPrefix(entries, i);
      var affected := MatchEntry(e, known, inv);
      AffectedWhenNonempty(e, affected, inv);
      if affected != [] {
        var f := CveFinding(e, affected, ContextualScore(e.cvssScore, e.severity, ctx));
        assert Init(findings + [f]) == findings;
        findings := findings + [f];
      }
    }
    assert entries[..|entries|] == entries;
    ghost var unsorted := findings;
    findings := StableSort(findings, FindingScore);
    StableSortIsStable(unsorted, FindingScore);
    SortingKeepsSummaries(unsorted, findings);
    StableSortPermutes(unsorted, FindingScore);
    SameMembers(unsorted, findings);
  }

  lemma {:induction false} SummaryOfBucket(findings: seq<CveFinding>, k: real)
    ensures WithScore(Summary(findings), ScoreOf, k) == Summary(WithScore(findings, FindingScore, k))
    ensures |Summary(findings)| == |findings|
    ensures forall i :: 0 <= i < |findings| ==> Summary(findings)[i] == (findings[i].entry, findings[i].score)
  {
    if findings != [] {
      var front, l := Init(findings), Last(findings);
      SummaryOfBucket(front, k);
      assert Init(Summary(findings)) == Summary(front);
      if l.score == k {
        assert Init(WithScore(front, FindingScore, k) + [l]) == WithScore(front, FindingScore, k);
      }
    }
  }

  lemma SortingKeepsSummaries(s: seq<CveFinding>, out: seq<CveFinding>)
    requires IsStableSort(s, out, FindingScore)
    ensures IsStableSort(Summary(s), Summary(out), ScoreOf)
  {
    SummaryOfBucket(out, 0.0);
    forall k ensures WithScore(Summary(out), ScoreOf, k) == WithScore(Summary(s), ScoreOf, k) {
      SummaryOfBucket(out, k);
      SummaryOfBucket(s, k);
    }
  }

  lemma {:induction false} ScoredEntries(entries: seq<Entry>, inv: Inventory, ctx: Context, e: Entry)
    ensures Mentions(Scored(entries, inv, ctx), e) <==> e in entries && IsAffected(e, inv)
  {
    hide ContextualScore, IsAffected;
    if entries != [] {
      var l, score := Last(entries), ContextualScore(Last(entries).cvssScore, Last(entries).severity, ctx);
      ScoredEntries(Init(entries), inv, ctx, e);
      assert e in entries <==> e in Init(entries) || e == l;
      if IsAffected(l, inv) {
        assert (l, score) in Scored(entries, inv, ctx);
        assert forall p :: p in Scored(entries, inv, ctx) <==> p in Scored(Init(entries), inv, ctx) || p == (l, score);
      }
    }
  }

  ghost predicate Mentions(scored: seq<(Entry, real)>, e: Entry) {
    exists p :: p in scored && p.0 == e
  }

  ghost predicate Reports(findings: seq<CveFinding>, e: Entry) {
    exists f :: f in findings && f.entry == e
  }

  lemma {:induction false} SummaryMentions(findings: seq<CveFinding>, e: Entry)
    ensures Mentions(Summary(findings), e) <==> Reports(findings, e)
  {
    if findings != [] {
      var front, l := Init(findings), Last(findings);
      SummaryMentions(front, e);
      assert forall f :: f in findings <==> f in front || f == l;
      assert forall p :: p in Summary(findings) <==> p in Summary(front) || p == (l.entry, l.score);
    }
  }

  /** An entry is reported exactly when some overlapping name has a version that is listed or in a range. */
  lemma ReportedExactlyWhenAffected(
    entries: seq<Entry>, inv: Inventory, ctx: Context, findings: seq<CveFinding>, e: Entry)
    requires IsStableSort(Scored(entries, inv, ctx), Summary(findings), ScoreOf)
    ensures Reports(findings, e) <==> e in entries && IsAffected(e, inv)
  {
    hide IsAffected, Scored, IsStableSort, Reports, Summary;
    StableSortKeepsElements(Scored(entries, inv, ctx), Summary(findings), ScoreOf);
    SameMembers(Scored(entries, inv, ctx), Summary(findings));
    ScoredEntries(entries, inv, ctx, e);
    SummaryMentions(findings, e);
  }

  /** Two runs differ at most in the order of the matches inside a finding, and never in which component comes first. */
  lemma {:induction false} IterationOrderIsIrrelevant(
    entries: seq<Entry>, inv: Inventory, ctx: Context, a: seq<CveFinding>, b: seq<CveFinding>)
    requires IsStableSort(Scored(entries, inv, ctx), Summary(a), ScoreOf)
    requires IsStableSort(Scored(entries, inv, ctx), Summary(b), ScoreOf)
    requires forall f :: f in a ==> AffectedIsRight(f.affected, f.entry.components, inv)
    requires forall f :: f in b ==> AffectedIsRight(f.affected, f.entry.components, inv)
    ensures |a| == |b|
    ensures forall i :: 0 <= i < |a| ==>
      && a[i].entry == b[i].entry && a[i].score == b[i].score
      && multiset(a[i].affected) == multiset(b[i].affected)
      && (a[i].affected == [] <==> b[i].affected == [])
      && (a[i].affected != [] ==> a[i].affected[0].component == b[i].affected[0].component)
  {
    hide Scored, IsStableSort, MatchesOf, FirstAffected;
    StableSortUnique(Scored(entries, inv, ctx), Summary(a), Summary(b), ScoreOf);
    SummaryOfBucket(a, 0.0);
    SummaryOfBucket(b, 0.0);
    forall i | 0 <= i < |a|
      ensures a[i].entry == b[i].entry && a[i].score == b[i].score
           && multiset(a[i].affected) == multiset(b[i].affected)
           && (a[i].affected == [] <==> b[i].affected == [])
           && (a[i].affected != [] ==> a[i].affected[0].component == b[i].affected[0].component)
    {
      assert a[i] in a && b[i] in b;
      assert Summary(a)[i] == Summary(b)[i];
    }
  }

  /** A larger inventory never loses a CVE. */
  lemma LargerInventoryKeepsFindings(
    entries: seq<Entry>, small: Inventory, large: Inventory, ctx: Context,
    before: seq<CveFinding>, after: seq<CveFinding>, e: Entry)
    requires forall name, v :: Present(small, name, v) ==> Present(large, name, v)
    requires IsStableSort(Scored(entries, small, ctx), Summary(before), ScoreOf)
    requires IsStableSort(Scored(entries, large, ctx), Summary(after), ScoreOf)
    requires Reports(before, e)
    ensures Reports(after, e)
  {
    hide Scored, Reports, IsStableSort, Hits, Overlaps, Lower, Present;
    ReportedExactlyWhenAffected(entries, small, ctx, before, e);
    ReportedExactlyWhenAffected(entries, large, ctx, after, e);
    var c, name, v :| c in e.components && Concerns(c, small, name, v) && Hits(c, v);
    assert Concerns(c, large, name, v);
  }
}
