/** The CVE report said of texts and versions: containment, listed versions and half-open intervals. */
module CveByFields {
  import opened Sequences
  import opened Scoring
  import opened Semver
  import opened Text
  import opened CveMatching
  import OsvRanges

  predicate StandsAt(part: string, text: string, i: int) {
    0 <= i && i + |part| <= |text| && text[i..i + |part|] == part
  }

  /** part stands somewhere in text. */
  ghost predicate IsPartOf(part: string, text: string) {
    exists i :: StandsAt(part, text, i)
  }

  lemma {:induction false} OccursByText(part: string, text: string)
    ensures Occurs(part, text) <==> IsPartOf(part, text)
  {
    hide IsPartOf;
    PrefixStands(part, text);
    if text != "" {
      OccursByText(part, text[1..]);
      PartOfTail(part, text);
    } else {
      PartOfNothing(part);
    }
  }

  lemma PrefixStands(part: string, text: string)
    ensures part <= text <==> StandsAt(part, text, 0)
    ensures part <= text ==> IsPartOf(part, text)
  {
  }

  lemma PartOfNothing(part: string)
    ensures IsPartOf(part, "") <==> part == ""
  {
    assert StandsAt("", "", 0);
  }

  lemma PartOfTail(part: string, text: string)
    requires text != ""
    ensures IsPartOf(part, text) <==> part <= text || IsPartOf(part, text[1..])
  {
    PrefixStands(part, text);
    if i :| StandsAt(part, text[1..], i) {
      assert text[1..][i..i + |part|] == text[i + 1..i + 1 + |part|];
      assert StandsAt(part, text, i + 1);
    }
    if i :| StandsAt(part, text, i) && i > 0 {
      assert text[1..][i - 1..i - 1 + |part|] == text[i..i + |part|];
      assert StandsAt(part, text[1..], i - 1);
    }
    if i :| StandsAt(part, text, i) && i <= 0 {
      assert StandsAt(part, text, 0);
    }
  }

  lemma SurroundedIsPart(before: string, part: string, after: string)
    ensures IsPartOf(part, before + part + after)
  {
    var text := before + part + after;
    assert text[|before|..|before| + |part|] == part;
    assert StandsAt(part, text, |before|);
  }

  lemma OverlapsByText(known: string, component: string)
    ensures Overlaps(known, component) <==> IsPartOf(component, known) || IsPartOf(known, component)
  {
    hide Occurs, IsPartOf;
    OccursByText(component, known);
    OccursByText(known, component);
    if known == component {
      SurroundedIsPart("", component, "");
      assert "" + component + "" == component;
    }
  }

  // ---------------------------------------------------------------------
  // Listed versions
  // ---------------------------------------------------------------------

  ghost predicate IsMadeOf(listed: string, vs: string, version: string, rest: string) {
    && listed == vs + version + rest
    && (forall i :: 0 <= i < |vs| ==> vs[i] == 'v')
    && (rest == "" || rest[0] == '-')
  }

  /** The listed text is the version, perhaps after some "v" and before a dash and more. */
  ghost predicate ListsAs(listed: string, version: string) {
    exists vs, rest :: IsMadeOf(listed, vs, version, rest)
  }

  lemma {:induction false} BeforeDashOf(s: string, rest: string)
    requires '-' !in s && (rest == "" || rest[0] == '-')
    ensures BeforeDash(s + rest) == s
  {
    if s == "" {
      assert s + rest == rest;
    } else {
      assert (s + rest)[1..] == s[1..] + rest;
      BeforeDashOf(s[1..], rest);
    }
  }

  lemma {:induction false} BeforeDashSplits(s: string) returns (rest: string)
    ensures s == BeforeDash(s) + rest && (rest == "" || rest[0] == '-') && '-' !in BeforeDash(s)
  {
    if s == "" || s[0] == '-' {
      rest := s;
    } else {
      rest := BeforeDashSplits(s[1..]);
      assert s == [s[0]] + s[1..];
    }
  }

  lemma {:induction false} LeadingVs(s: string) returns (vs: string)
    ensures s == vs + DropLeading(s, IsV) && forall i :: 0 <= i < |vs| ==> vs[i] == 'v'
    ensures DropLeading(s, IsV) != "" ==> DropLeading(s, IsV)[0] != 'v'
  {
    if s != "" && IsV(s[0]) {
      vs := LeadingVs(s[1..]);
      vs := [s[0]] + vs;
    } else {
      vs := "";
    }
  }

  lemma MadeOfIsListed(listed: string, vs: string, version: string, rest: string)
    requires '-' !in version && (version != "" ==> version[0] != 'v') && IsMadeOf(listed, vs, version, rest)
    ensures BeforeDash(DropLeading(listed, IsV)) == version
  {
    hide BeforeDash, DropLeading;
    var core := version + rest;
    assert listed == vs + core;
    assert core != "" ==> core[0] == if version != "" then version[0] else rest[0];
    DropLeadingOf(vs, core, IsV);
    BeforeDashOf(version, rest);
  }

  /** For a version of the inventory that has neither a dash nor a leading "v". */
  lemma ListedByText(listed: string, version: string)
    requires '-' !in version && (version != "" ==> version[0] != 'v')
    ensures BeforeDash(DropLeading(listed, IsV)) == version <==> ListsAs(listed, version)
  {
    hide BeforeDash, DropLeading;
    var vs := LeadingVs(listed);
    var core := DropLeading(listed, IsV);
    var rest := BeforeDashSplits(core);
    if BeforeDash(core) == version {
      assert listed == vs + version + rest;
      assert IsMadeOf(listed, vs, version, rest);
    }
    if us, more :| IsMadeOf(listed, us, version, more) {
      MadeOfIsListed(listed, us, version, more);
    }
  }

  /** Other inventory versions are never listed: what is left of a listed text has neither. */
  lemma OthersAreNotListed(listed: string, version: string)
    requires '-' in version || (version != "" && version[0] == 'v')
    ensures BeforeDash(DropLeading(listed, IsV)) != version
  {
    var vs := LeadingVs(listed);
    var rest := BeforeDashSplits(DropLeading(listed, IsV));
  }

  /** Neither a dash nor a leading "v", and some listed text stands for it. */
  ghost predicate IsListedVersion(c: Component, version: string) {
    && '-' !in version && (version != "" ==> version[0] != 'v')
    && exists listed :: listed in c.versions && ListsAs(listed, version)
  }

  ghost predicate IsHit(c: Component, version: string) {
    || IsListedVersion(c, version)
    || exists r :: r in c.ranges && Within(ParseSemver(version), ParseSemver(r.introduced), Bound(r.fixed))
  }

  lemma HitsByFields(c: Component, version: string)
    ensures IsListed(c, version) <==> IsListedVersion(c, version)
    ensures Hits(c, version) <==> IsHit(c, version)
  {
    hide ParseSemver, BeforeDash, DropLeading, ListsAs, Within, VersionInRange;
    forall listed ensures BeforeDash(DropLeading(listed, IsV)) == version <==>
      '-' !in version && (version != "" ==> version[0] != 'v') && ListsAs(listed, version)
    {
      if '-' !in version && (version != "" ==> version[0] != 'v') {
        ListedByText(listed, version);
      } else {
        OthersAreNotListed(listed, version);
      }
    }
    forall r: OsvRanges.Range ensures Holds(r, version) <==>
                     Within(ParseSemver(version), ParseSemver(r.introduced), Bound(r.fixed)) {
      RangeIsAnInterval(version, r.introduced, r.fixed);
    }
  }

  // ---------------------------------------------------------------------
  // The report
  // ---------------------------------------------------------------------

  /** A version of the server or of a node, under "kubernetes", or of an add-on under its lower-cased name. */
  ghost predicate InInventory(inv: Inventory, name: string, version: string) {
    || (name == "kubernetes"
        && (version in inv.nodeVersions || (version == inv.serverVersion && version != "" && version != "unknown")))
    || (version != "unknown" && exists a :: a in inv.addons && a.version == version && Lower(a.name) == name)
  }

  lemma PresentByFields(inv: Inventory, name: string, version: string)
    ensures Present(inv, name, version) <==> InInventory(inv, name, version)
  {
    hide Lower;
  }

  /** The component's lower-cased name contains or is contained in an inventory name that has this version. */
  ghost predicate Touches(c: Component, inv: Inventory, name: string, version: string) {
    && c.name != "" && InInventory(inv, name, version)
    && (IsPartOf(Lower(c.name), name) || IsPartOf(name, Lower(c.name)))
  }

  lemma ConcernsByFields(c: Component, inv: Inventory, name: string, version: string)
    ensures Concerns(c, inv, name, version) <==> Touches(c, inv, name, version)
  {
    hide Overlaps, IsPartOf, Present, InInventory, Lower;
    PresentByFields(inv, name, version);
    LowerByCharacter(c.name);
    OverlapsByText(name, Lower(c.name));
  }

  /** An entry is in the report exactly when one of its components touches an inventory version that it hits. */
  lemma ReportByFields(
    entries: seq<Entry>, inv: Inventory, ctx: Context, findings: seq<CveFinding>, e: Entry)
    requires IsStableSort(Scored(entries, inv, ctx), Summary(findings), ScoreOf)
    ensures Reports(findings, e) <==>
            e in entries && exists c, name, version :: c in e.components && Touches(c, inv, name, version) && IsHit(c, version)
  {
    hide Concerns, Touches, Hits, IsHit, Scored, Summary, IsStableSort, Reports;
    ReportedExactlyWhenAffected(entries, inv, ctx, findings, e);
    forall c, name, version ensures Concerns(c, inv, name, version) <==> Touches(c, inv, name, version) {
      ConcernsByFields(c, inv, name, version);
    }
    forall c, version ensures Hits(c, version) <==> IsHit(c, version) {
      HitsByFields(c, version);
    }
  }

  /** So is one whose component's name has an inventory name anywhere inside it. */
  lemma LongerNamesAreReported(
    entries: seq<Entry>, inv: Inventory, ctx: Context, findings: seq<CveFinding>, e: Entry,
    c: Component, before: string, name: string, after: string, version: string)
    requires IsStableSort(Scored(entries, inv, ctx), Summary(findings), ScoreOf)
    requires e in entries && c in e.components && c.name != ""
    requires Lower(c.name) == before + name + after && InInventory(inv, name, version) && IsHit(c, version)
    ensures Reports(findings, e)
  {
    hide IsPartOf, IsHit, Scored, Summary, IsStableSort, Reports, Lower, InInventory;
    SurroundedIsPart(before, name, after);
    ReportByFields(entries, inv, ctx, findings, e);
    assert Touches(c, inv, name, version);
  }

  // ---------------------------------------------------------------------
  // What a finding shows
  // ---------------------------------------------------------------------

  predicate IsIn(version: string, r: OsvRanges.Range) {
    Within(ParseSemver(version), ParseSemver(r.introduced), Bound(r.fixed))
  }

  /** The fix of a listed version is the component's; otherwise it is that of the first range with the version. */
  ghost predicate ShowsFix(c: Component, version: string, fixed: Option<string>) {
    if IsListedVersion(c, version) then fixed == c.fixedIn
    else exists i :: 0 <= i < |c.ranges| && IsIn(version, c.ranges[i]) && c.ranges[i].fixed == fixed
                  && forall j :: 0 <= j < i ==> !IsIn(version, c.ranges[j])
  }

  lemma {:induction false} FirstHoldingByIndex(ranges: seq<OsvRanges.Range>, version: string) returns (i: nat)
    ensures FirstHolding(ranges, version).None? ==> forall j :: 0 <= j < |ranges| ==> !IsIn(version, ranges[j])
    ensures FirstHolding(ranges, version).Some? ==>
              i < |ranges| && ranges[i] == FirstHolding(ranges, version).value && IsIn(version, ranges[i])
              && forall j :: 0 <= j < i ==> !IsIn(version, ranges[j])
  {
    hide IsIn, Holds;
    i := 0;
    if ranges != [] {
      HoldsByFields(ranges[0], version);
      if !Holds(ranges[0], version) {
        var k := FirstHoldingByIndex(ranges[1..], version);
        i := k + 1;
      }
    }
  }

  lemma HoldsByFields(r: OsvRanges.Range, version: string)
    ensures Holds(r, version) <==> IsIn(version, r)
  {
    hide ParseSemver;
    RangeIsAnInterval(version, r.introduced, r.fixed);
  }

  lemma MatchByFields(c: Component, version: string, m: Match)
    ensures MatchOf(c, version) == Some(m) <==>
            m.component == Lower(c.name) && m.version == version && ShowsFix(c, version, m.fixed)
  {
    hide IsListed, IsListedVersion, IsIn, FirstHolding, Lower;
    HitsByFields(c, version);
    var i := FirstHoldingByIndex(c.ranges, version);
    if !IsListedVersion(c, version) && ShowsFix(c, version, m.fixed) {
      var k :| 0 <= k < |c.ranges| && IsIn(version, c.ranges[k]) && c.ranges[k].fixed == m.fixed
            && forall j :: 0 <= j < k ==> !IsIn(version, c.ranges[j]);
      assert i == k;
    }
  }

  ghost predicate TouchesSome(c: Component, inv: Inventory, version: string) {
    exists name :: Touches(c, inv, name, version)
  }

  lemma CandidatesByFields(c: Component, inv: Inventory, version: string)
    ensures version in Candidates(c, inv) <==> TouchesSome(c, inv, version)
  {
    hide Concerns, Touches;
    forall name ensures Concerns(c, inv, name, version) <==> Touches(c, inv, name, version) {
      ConcernsByFields(c, inv, name, version);
    }
    if name :| Concerns(c, inv, name, version) {
      ConcernedIsListed(c, inv, name, version);
    }
  }

  lemma ConcernedIsListed(c: Component, inv: Inventory, name: string, version: string)
    requires Concerns(c, inv, name, version)
    ensures version in AllVersions(inv)
  {
    PresentIsListed(inv, name, version);
  }

  lemma {:induction false} MatchesAreOfComponents(components: seq<Component>, inv: Inventory, m: Match)
    ensures m in MatchesOf(components, inv) <==>
            exists c :: c in components && m in MatchesAmong(c, Candidates(c, inv))
  {
    hide MatchesAmong, Candidates;
    if components != [] {
      MatchesAreOfComponents(Init(components), inv, m);
      MatchesStep(components, inv, m);
      assert forall c :: c in components <==> c in Init(components) || c == Last(components);
    }
  }

  lemma MatchesStep(components: seq<Component>, inv: Inventory, m: Match)
    requires components != []
    ensures m in MatchesOf(components, inv) <==>
            || m in MatchesOf(Init(components), inv)
            || m in MatchesAmong(Last(components), Candidates(Last(components), inv))
  {
    hide MatchesAmong, Candidates;
    var front, s := MatchesOf(Init(components), inv), MatchesAmong(Last(components), Candidates(Last(components), inv));
    assert MatchesOf(components, inv) == front + multiset(s);
    assert m in front + multiset(s) <==> m in front || m in multiset(s);
  }

  /** The affected triples of a finding, said of its components and the inventory. */
  lemma AffectedByFields(affected: seq<Match>, components: seq<Component>, inv: Inventory, m: Match)
    requires AffectedIsRight(affected, components, inv)
    ensures m in affected <==>
            exists c :: c in components && TouchesSome(c, inv, m.version)
                     && m.component == Lower(c.name) && ShowsFix(c, m.version, m.fixed)
  {
    hide MatchesOf, Candidates, MatchOf, TouchesSome, ShowsFix, FirstAffected, Lower;
    assert m in affected <==> m in multiset(affected);
    MatchesAreOfComponents(components, inv, m);
    forall c ensures m in MatchesAmong(c, Candidates(c, inv)) <==>
                     TouchesSome(c, inv, m.version) && m.component == Lower(c.name) && ShowsFix(c, m.version, m.fixed)
    {
      CandidatesByFields(c, inv, m.version);
      MatchByFields(c, m.version, m);
      forall v | MatchOf(c, v) == Some(m) ensures v == m.version {
        MatchByFields(c, v, m);
      }
    }
  }

  function BaseShown(e: Entry): real {
    if e.cvssScore.Some? then e.cvssScore.value
    else if e.severity == CRITICAL then 9.5 else if e.severity == HIGH then 7.5
    else if e.severity == MEDIUM then 5.5 else if e.severity == LOW then 2.5 else 1.0
  }

  function ScoreShown(e: Entry, ctx: Context): real {
    ScaledScore(BaseShown(e), Multiplier(ctx))
  }

  lemma EntryScores(e: Entry, ctx: Context)
    ensures ContextualScore(e.cvssScore, e.severity, ctx) == ScoreShown(e, ctx)
  {
    hide Multiplier, Round2, BaseScore, BaseShown, ScaledScore;
    BaseByFields(e);
  }

  lemma BaseByFields(e: Entry)
    ensures BaseScore(e.cvssScore, e.severity) == BaseShown(e)
  {
  }

  /** A finding shows the entry's own score: its CVSS, or else its severity's, times the weights of the context. */
  lemma ScoreByFields(entries: seq<Entry>, inv: Inventory, ctx: Context, findings: seq<CveFinding>, f: CveFinding)
    requires IsStableSort(Scored(entries, inv, ctx), Summary(findings), ScoreOf) && f in findings
    ensures f.score == ScoreShown(f.entry, ctx)
  {
    hide Scored, Summary, IsStableSort, ScoreShown, ContextualScore;
    EntryScores(f.entry, ctx);
    StableSortKeepsElements(Scored(entries, inv, ctx), Summary(findings), ScoreOf);
    SameMembers(Scored(entries, inv, ctx), Summary(findings));
    SummaryHas(findings, f);
    ScoredHas(entries, inv, ctx, f.entry, f.score);
  }

  lemma {:induction false} SummaryHas(findings: seq<CveFinding>, f: CveFinding)
    requires f in findings
    ensures (f.entry, f.score) in Summary(findings)
  {
    if f != Last(findings) {
      SummaryHas(Init(findings), f);
    }
  }

  lemma {:induction false} ScoredHas(entries: seq<Entry>, inv: Inventory, ctx: Context, e: Entry, score: real)
    requires (e, score) in Scored(entries, inv, ctx)
    ensures score == ContextualScore(e.cvssScore, e.severity, ctx)
  {
    hide IsAffected, ContextualScore;
    if (e, score) in Scored(Init(entries), inv, ctx) {
      ScoredHas(Init(entries), inv, ctx, e, score);
    }
  }
}
