/** The image reports said of the scanners' own records: first record per key, severities by spelling, best v3 score. */
module ImageByFields {
  import opened Sequences
  import opened Scoring
  import opened Text
  import opened ImageReports

  // ---------------------------------------------------------------------
  // Texts
  // ---------------------------------------------------------------------

  /** text is word, which is lower-case, in any case. */
  predicate Spells(text: string, word: string) {
    && |text| == |word|
    && forall i :: 0 <= i < |text| ==> text[i] == word[i] || text[i] as int + 32 == word[i] as int
  }

  predicate IsLowerWord(word: string) {
    forall i :: 0 <= i < |word| ==> 'a' <= word[i] <= 'z'
  }

  lemma UpperSpells(text: string, word: string, upper: string)
    requires IsLowerWord(word) && |upper| == |word|
    requires forall i :: 0 <= i < |word| ==> upper[i] as int + 32 == word[i] as int
    ensures Upper(text) == upper <==> Spells(text, word)
  {
    hide Upper;
    UpperByCharacter(text);
    if |text| == |word| {
      forall i | 0 <= i < |text|
        ensures Upper(text)[i] == upper[i] <==> text[i] == word[i] || text[i] as int + 32 == word[i] as int
      {
        CharacterSpells(text[i], word[i], upper[i], Upper(text)[i]);
      }
      SameCharacters(Upper(text), upper);
    }
  }

  lemma CharacterSpells(c: char, w: char, u: char, up: char)
    requires 'a' <= w <= 'z' && u as int + 32 == w as int
    requires up == if 'a' <= c <= 'z' then (c as int - 32) as char else c
    ensures up == u <==> c == w || c as int + 32 == w as int
  {
  }

  lemma SameCharacters(a: string, b: string)
    requires |a| == |b|
    ensures a == b <==> forall i :: 0 <= i < |a| ==> a[i] == b[i]
  {
  }

  /** A listed severity is spelt in any case; a missing or empty one is unknown; any other is kept upper-cased. */
  predicate IsSeverity(raw: Option<string>, severity: Severity) {
    match severity
    case CRITICAL => raw.Some? && Spells(raw.value, "critical")
    case HIGH => raw.Some? && Spells(raw.value, "high")
    case MEDIUM => raw.Some? && Spells(raw.value, "medium")
    case LOW => raw.Some? && Spells(raw.value, "low")
    case UNKNOWN => raw == None || raw == Some("") || Spells(raw.value, "unknown")
    case OTHER(text) =>
      && raw.Some? && raw.value != "" && text == Upper(raw.value)
      && !Spells(raw.value, "critical") && !Spells(raw.value, "high") && !Spells(raw.value, "medium")
      && !Spells(raw.value, "low") && !Spells(raw.value, "unknown")
  }

  lemma SeverityByText(raw: Option<string>, severity: Severity)
    ensures SeverityNamed(raw) == severity <==> IsSeverity(raw, severity)
  {
    hide Upper, Spells;
    if raw.Some? && raw.value != "" {
      UpperSpells(raw.value, "critical", "CRITICAL");
      UpperSpells(raw.value, "high", "HIGH");
      UpperSpells(raw.value, "medium", "MEDIUM");
      UpperSpells(raw.value, "low", "LOW");
      UpperSpells(raw.value, "unknown", "UNKNOWN");
    } else if raw == Some("") {
      EmptySpellsNothing();
    }
  }

  lemma EmptySpellsNothing()
    ensures !Spells("", "critical") && !Spells("", "high") && !Spells("", "medium") && !Spells("", "low")
  {
  }

  // ---------------------------------------------------------------------
  // Scores
  // ---------------------------------------------------------------------

  /** The greatest of the numbers that the table has under V3Score. */
  ghost predicate IsBestOfVendors(best: Option<real>, table: seq<VendorScore>) {
    match best
    case None => forall v :: v in table ==> v.NotAnObject? || v.v3 == None
    case Some(x) =>
      && Vendor(Some(x)) in table
      && forall v :: v in table && v.Vendor? && v.v3.Some? ==> v.v3.value <= x
  }

  /** An entry of no stated version, or of one that starts with 3. */
  predicate IsV3(e: CvssEntry) {
    e.CvssEntry? && (e.version == None || e.version == Some("") || e.version.value[0] == '3')
  }

  ghost predicate IsBestOfEntries(best: Option<real>, entries: seq<CvssEntry>) {
    match best
    case None => forall e :: e in entries && IsV3(e) ==> e.baseScore == None
    case Some(x) =>
      && (exists e :: e in entries && IsV3(e) && e.baseScore == Some(x))
      && forall e :: e in entries && IsV3(e) && e.baseScore.Some? ==> e.baseScore.value <= x
  }

  lemma BestOfVendorsByFields(best: Option<real>, table: seq<VendorScore>)
    ensures BestScore(table, VendorV3) == best <==> IsBestOfVendors(best, table)
  {
    BestScoreIsBest(table, VendorV3);
    OneBest(BestScore(table, VendorV3), best, table, VendorV3);
    assert IsBest(best, table, VendorV3) <==> IsBestOfVendors(best, table);
  }

  lemma BestOfEntriesByFields(best: Option<real>, entries: seq<CvssEntry>)
    ensures BestScore(entries, EntryV3) == best <==> IsBestOfEntries(best, entries)
  {
    BestScoreIsBest(entries, EntryV3);
    OneBest(BestScore(entries, EntryV3), best, entries, EntryV3);
    assert forall e :: EntryV3(e) == if IsV3(e) then e.baseScore else None;
    assert IsBest(best, entries, EntryV3) <==> IsBestOfEntries(best, entries);
  }

  lemma OneBest<T(!new)>(a: Option<real>, b: Option<real>, entries: seq<T>, v3: T -> Option<real>)
    requires IsBest(a, entries, v3)
    ensures IsBest(b, entries, v3) <==> a == b
  {
  }

  // ---------------------------------------------------------------------
  // Records
  // ---------------------------------------------------------------------

  /** A record with an id and a package, and the finding that shows it. */
  ghost predicate TrivyShows(v: TrivyVuln, image: string, ctx: Context, f: ImageFinding) {
    && v.id.Some? && v.id.value != "" && v.package.Some? && v.package.value != ""
    && f.key == FindingKey(v.id.value, image, Lower(v.package.value))
    && IsSeverity(v.severity, f.severity) && IsBestOfVendors(f.cvssScore, v.cvss)
    && f.version == v.installed && f.fixed == (if v.fixed == Some("") then None else v.fixed)
    && f.score == ContextualScore(f.cvssScore, f.severity, ctx)
  }

  ghost predicate GrypeShows(m: GrypeMatch, image: string, ctx: Context, f: ImageFinding) {
    && m.id.Some? && m.id.value != "" && m.package.Some? && m.package.value != ""
    && f.key == FindingKey(m.id.value, image, Lower(m.package.value))
    && IsSeverity(m.severity, f.severity) && IsBestOfEntries(f.cvssScore, m.cvss)
    && f.version == m.installed && f.fixed == (if m.fixVersions == [] then None else Some(m.fixVersions[0]))
    && f.score == ContextualScore(f.cvssScore, f.severity, ctx)
  }

  function TrivySaid(v: TrivyVuln, image: string, ctx: Context): Option<ImageFinding> {
    if IsKeyed(v.id, v.package) then Some(TrivyFinding(v, image, ctx)) else None
  }

  function GrypeSaid(m: GrypeMatch, image: string, ctx: Context): Option<ImageFinding> {
    if IsKeyed(m.id, m.package) then Some(GrypeFinding(m, image, ctx)) else None
  }

  lemma TrivyByFields(v: TrivyVuln, image: string, ctx: Context, f: ImageFinding)
    ensures TrivySaid(v, image, ctx) == Some(f) <==> TrivyShows(v, image, ctx, f)
  {
    hide ContextualScore, Lower, SeverityNamed, IsSeverity, BestScore, IsBestOfVendors;
    SeverityByText(v.severity, f.severity);
    BestOfVendorsByFields(f.cvssScore, v.cvss);
  }

  lemma GrypeByFields(m: GrypeMatch, image: string, ctx: Context, f: ImageFinding)
    ensures GrypeSaid(m, image, ctx) == Some(f) <==> GrypeShows(m, image, ctx, f)
  {
    hide ContextualScore, Lower, SeverityNamed, IsSeverity, BestScore, IsBestOfEntries;
    SeverityByText(m.severity, f.severity);
    BestOfEntriesByFields(f.cvssScore, m.cvss);
  }

  // ---------------------------------------------------------------------
  // The first record per key
  // ---------------------------------------------------------------------

  function Somes(said: seq<Option<ImageFinding>>): seq<ImageFinding> {
    if said == [] then []
    else if Last(said).Some? then Somes(Init(said)) + [Last(said).value] else Somes(Init(said))
  }

  ghost predicate SaysKey(said: seq<Option<ImageFinding>>, key: FindingKey) {
    exists j :: 0 <= j < |said| && said[j].Some? && said[j].value.key == key
  }

  /** Some record says f, and no earlier one says its key. */
  ghost predicate IsSaidFirst(said: seq<Option<ImageFinding>>, f: ImageFinding) {
    exists i :: 0 <= i < |said| && said[i] == Some(f) && !SaysKey(said[..i], f.key)
  }

  lemma {:induction false} SomesHaveKeys(said: seq<Option<ImageFinding>>, key: FindingKey)
    ensures HasKey(Somes(said), key) <==> SaysKey(said, key)
  {
    if said != [] {
      var front, l := Init(said), Last(said);
      SomesHaveKeys(front, key);
      KeyStep(said, key);
      if l.Some? {
        HasKeySnoc(Somes(front), l.value, key);
      }
    }
  }

  lemma KeyStep(said: seq<Option<ImageFinding>>, key: FindingKey)
    requires said != []
    ensures SaysKey(said, key) <==> SaysKey(Init(said), key) || (Last(said).Some? && Last(said).value.key == key)
  {
    var front, n := Init(said), |said| - 1;
    assert said[n] == Last(said);
    if j :| 0 <= j < |said| && said[j].Some? && said[j].value.key == key {
      if j < n {
        assert front[j] == said[j];
      }
    }
    if j :| 0 <= j < |front| && front[j].Some? && front[j].value.key == key {
      assert said[j] == front[j];
    }
  }

  lemma FirstStep(said: seq<Option<ImageFinding>>, f: ImageFinding)
    requires said != []
    ensures IsSaidFirst(said, f) <==>
            IsSaidFirst(Init(said), f) || (Last(said) == Some(f) && !SaysKey(Init(said), f.key))
  {
    hide SaysKey;
    var front, n := Init(said), |said| - 1;
    assert forall i :: 0 <= i <= n ==> said[..i] == front[..i];
    assert front[..n] == front;
    if i :| 0 <= i < |said| && said[i] == Some(f) && !SaysKey(said[..i], f.key) {
      if i < n {
        assert front[i] == Some(f) && !SaysKey(front[..i], f.key);
      }
    }
    if i :| 0 <= i < |front| && front[i] == Some(f) && !SaysKey(front[..i], f.key) {
      assert said[i] == Some(f) && !SaysKey(said[..i], f.key);
    }
    if Last(said) == Some(f) && !SaysKey(front, f.key) {
      assert said[n] == Some(f) && !SaysKey(said[..n], f.key);
    }
  }

  lemma {:induction false} FirstsByRecord(said: seq<Option<ImageFinding>>, f: ImageFinding)
    ensures f in FirstPerKey(Somes(said)) <==> IsSaidFirst(said, f)
  {
    hide HasKey, IsSaidFirst, SaysKey, FirstPerKey;
    if said == [] {
      NothingSaidFirst(f);
    } else {
      var front, l := Init(said), Last(said);
      FirstsByRecord(front, f);
      FirstStep(said, f);
      SomesHaveKeys(front, f.key);
      if l.Some? {
        FirstsSnoc(Somes(front), l.value, f);
      }
    }
  }

  lemma FirstsSnoc(findings: seq<ImageFinding>, last: ImageFinding, f: ImageFinding)
    ensures f in FirstPerKey(findings + [last]) <==>
            f in FirstPerKey(findings) || (f == last && !HasKey(findings, f.key))
  {
    hide HasKey, IsFirstOfItsKey, DistinctTags;
    FirstPerKeyIsExact(findings);
    assert Init(findings + [last]) == findings;
  }

  lemma NothingSaidFirst(f: ImageFinding)
    ensures !IsSaidFirst([], f) && f !in FirstPerKey(Somes([]))
  {
  }

  // ---------------------------------------------------------------------
  // The reports
  // ---------------------------------------------------------------------

  /** All records of a Trivy report, block after block. */
  function Records(results: seq<seq<TrivyVuln>>): seq<TrivyVuln> {
    if results == [] then [] else Records(Init(results)) + Last(results)
  }

  function AllTrivySaid(vulns: seq<TrivyVuln>, image: string, ctx: Context): seq<Option<ImageFinding>> {
    if vulns == [] then [] else AllTrivySaid(Init(vulns), image, ctx) + [TrivySaid(Last(vulns), image, ctx)]
  }

  function AllGrypeSaid(matches: seq<GrypeMatch>, image: string, ctx: Context): seq<Option<ImageFinding>> {
    if matches == [] then [] else AllGrypeSaid(Init(matches), image, ctx) + [GrypeSaid(Last(matches), image, ctx)]
  }

  lemma {:induction false} TrivySomes(vulns: seq<TrivyVuln>, image: string, ctx: Context)
    ensures TrivyFindings(vulns, image, ctx) == Somes(AllTrivySaid(vulns, image, ctx))
    ensures |AllTrivySaid(vulns, image, ctx)| == |vulns|
    ensures forall i :: 0 <= i < |vulns| ==> AllTrivySaid(vulns, image, ctx)[i] == TrivySaid(vulns[i], image, ctx)
  {
    hide TrivyFinding, IsKeyed;
    if vulns != [] {
      TrivySomes(Init(vulns), image, ctx);
      assert Init(AllTrivySaid(vulns, image, ctx)) == AllTrivySaid(Init(vulns), image, ctx);
    }
  }

  lemma {:induction false} GrypeSomes(matches: seq<GrypeMatch>, image: string, ctx: Context)
    ensures GrypeFindings(matches, image, ctx) == Somes(AllGrypeSaid(matches, image, ctx))
    ensures |AllGrypeSaid(matches, image, ctx)| == |matches|
    ensures forall i :: 0 <= i < |matches| ==> AllGrypeSaid(matches, image, ctx)[i] == GrypeSaid(matches[i], image, ctx)
  {
    hide GrypeFinding, IsKeyed;
    if matches != [] {
      GrypeSomes(Init(matches), image, ctx);
      assert Init(AllGrypeSaid(matches, image, ctx)) == AllGrypeSaid(Init(matches), image, ctx);
    }
  }

  lemma {:induction false} TrivyConcat(a: seq<TrivyVuln>, b: seq<TrivyVuln>, image: string, ctx: Context)
    ensures TrivyFindings(a + b, image, ctx) == TrivyFindings(a, image, ctx) + TrivyFindings(b, image, ctx)
  {
    hide TrivyFinding, IsKeyed;
    if b == [] {
      assert a + b == a;
    } else {
      InitOfConcat(a, b);
      TrivyConcat(a, Init(b), image, ctx);
    }
  }

  lemma {:induction false} TrivyFlat(results: seq<seq<TrivyVuln>>, image: string, ctx: Context)
    ensures AllTrivyFindings(results, image, ctx) == TrivyFindings(Records(results), image, ctx)
  {
    hide TrivyFindings;
    if results == [] {
      NoTrivyFindings(image, ctx);
    } else {
      TrivyFlat(Init(results), image, ctx);
      TrivyConcat(Records(Init(results)), Last(results), image, ctx);
    }
  }

  lemma NoTrivyFindings(image: string, ctx: Context)
    ensures TrivyFindings([], image, ctx) == []
  {
  }

  /** The record at i says f, and none before it has the same id and, in any case, the same package. */
  ghost predicate TrivyFirst(vulns: seq<TrivyVuln>, i: int, image: string, ctx: Context, f: ImageFinding) {
    && 0 <= i < |vulns| && TrivyShows(vulns[i], image, ctx, f)
    && forall j :: 0 <= j < i && vulns[j].id == vulns[i].id ==>
         vulns[j].package == None || Lower(vulns[j].package.value) != Lower(vulns[i].package.value)
  }

  ghost predicate GrypeFirst(matches: seq<GrypeMatch>, i: int, image: string, ctx: Context, f: ImageFinding) {
    && 0 <= i < |matches| && GrypeShows(matches[i], image, ctx, f)
    && forall j :: 0 <= j < i && matches[j].id == matches[i].id ==>
         matches[j].package == None || Lower(matches[j].package.value) != Lower(matches[i].package.value)
  }

  lemma LowerIsEmpty(s: string)
    ensures Lower(s) == "" <==> s == ""
  {
    LowerByCharacter(s);
  }

  lemma TrivyKeysByFields(vulns: seq<TrivyVuln>, said: seq<Option<ImageFinding>>, i: nat, image: string, ctx: Context,
                         f: ImageFinding)
    requires said == AllTrivySaid(vulns, image, ctx) && |said| == |vulns|
    requires i < |vulns| && TrivyShows(vulns[i], image, ctx, f)
    ensures SaysKey(said[..i], f.key) <==> !TrivyFirst(vulns, i, image, ctx, f)
  {
    hide TrivyShows, Lower, ContextualScore, SeverityNamed, BestScore;
    TrivySomes(vulns, image, ctx);
    TrivyByFields(vulns[i], image, ctx, f);
    forall j | 0 <= j < i ensures said[..i][j] == TrivySaid(vulns[j], image, ctx) {
    }
    forall j | 0 <= j < i
      ensures (TrivySaid(vulns[j], image, ctx).Some? && TrivySaid(vulns[j], image, ctx).value.key == f.key) <==>
              vulns[j].id == vulns[i].id && vulns[j].package.Some?
              && Lower(vulns[j].package.value) == Lower(vulns[i].package.value)
    {
      if vulns[j].package.Some? {
        LowerIsEmpty(vulns[j].package.value);
      }
      LowerIsEmpty(vulns[i].package.value);
    }
  }

  lemma GrypeKeysByFields(matches: seq<GrypeMatch>, said: seq<Option<ImageFinding>>, i: nat, image: string, ctx: Context,
                         f: ImageFinding)
    requires said == AllGrypeSaid(matches, image, ctx) && |said| == |matches|
    requires i < |matches| && GrypeShows(matches[i], image, ctx, f)
    ensures SaysKey(said[..i], f.key) <==> !GrypeFirst(matches, i, image, ctx, f)
  {
    hide GrypeShows, Lower, ContextualScore, SeverityNamed, BestScore;
    GrypeSomes(matches, image, ctx);
    GrypeByFields(matches[i], image, ctx, f);
    forall j | 0 <= j < i ensures said[..i][j] == GrypeSaid(matches[j], image, ctx) {
    }
    forall j | 0 <= j < i
      ensures (GrypeSaid(matches[j], image, ctx).Some? && GrypeSaid(matches[j], image, ctx).value.key == f.key) <==>
              matches[j].id == matches[i].id && matches[j].package.Some?
              && Lower(matches[j].package.value) == Lower(matches[i].package.value)
    {
      if matches[j].package.Some? {
        LowerIsEmpty(matches[j].package.value);
      }
      LowerIsEmpty(matches[i].package.value);
    }
  }

  /** A Trivy report has exactly the findings that the first record of each id and package shows. */
  lemma TrivyReportByFields(report: TrivyReport, ctx: Context, findings: seq<ImageFinding>, f: ImageFinding)
    requires IsStableSort(FirstPerKey(RawFindings(Trivy(report), ctx)), findings, ScoreOf)
    ensures var image := if report.artifactName == None then "unknown" else report.artifactName.value;
            f in findings <==> exists i :: TrivyFirst(Records(report.results), i, image, ctx, f)
  {
    hide FirstPerKey, IsStableSort, AllTrivyFindings, TrivyFindings, AllTrivySaid, Somes, TrivySaid, TrivyShows,
      TrivyFirst, SaysKey, Records;
    var image := if report.artifactName == None then "unknown" else report.artifactName.value;
    var vulns := Records(report.results);
    TrivyFlat(report.results, image, ctx);
    TrivySomes(vulns, image, ctx);
    var said := AllTrivySaid(vulns, image, ctx);
    FirstsByRecord(said, f);
    StableSortKeepsElements(FirstPerKey(TrivyFindings(vulns, image, ctx)), findings, ScoreOf);
    SameMembers(FirstPerKey(TrivyFindings(vulns, image, ctx)), findings);
    forall i: nat | i < |vulns| && TrivyShows(vulns[i], image, ctx, f)
      ensures SaysKey(said[..i], f.key) <==> !TrivyFirst(vulns, i, image, ctx, f)
    {
      TrivyKeysByFields(vulns, said, i, image, ctx, f);
    }
    forall i | 0 <= i < |vulns|
      ensures TrivySaid(vulns[i], image, ctx) == Some(f) <==> TrivyShows(vulns[i], image, ctx, f)
    {
      TrivyByFields(vulns[i], image, ctx, f);
    }
    forall i ensures TrivyFirst(vulns, i, image, ctx, f) ==> 0 <= i < |vulns| && TrivyShows(vulns[i], image, ctx, f) {
      TrivyFirstShows(vulns, i, image, ctx, f);
    }
  }

  lemma TrivyFirstShows(vulns: seq<TrivyVuln>, i: int, image: string, ctx: Context, f: ImageFinding)
    ensures TrivyFirst(vulns, i, image, ctx, f) ==> 0 <= i < |vulns| && TrivyShows(vulns[i], image, ctx, f)
  {
    hide TrivyShows, Lower;
  }

  lemma GrypeFirstShows(matches: seq<GrypeMatch>, i: int, image: string, ctx: Context, f: ImageFinding)
    ensures GrypeFirst(matches, i, image, ctx, f) ==> 0 <= i < |matches| && GrypeShows(matches[i], image, ctx, f)
  {
    hide GrypeShows, Lower;
  }

  /** The image a Grype report is about. */
  predicate IsImage(target: GrypeTarget, image: string) {
    match target
    case NameTarget(name) => image == name
    case ImageTarget(userInput, imageId) =>
      if userInput.Some? && userInput.value != "" then image == userInput.value
      else image == if imageId == None || imageId == Some("") then "unknown" else imageId.value
    case NoTarget => image == "unknown"
  }

  /** The same for Grype. */
  lemma GrypeReportByFields(report: GrypeReport, ctx: Context, findings: seq<ImageFinding>, f: ImageFinding, image: string)
    requires IsStableSort(FirstPerKey(RawFindings(Grype(report), ctx)), findings, ScoreOf)
    requires IsImage(report.target, image)
    ensures f in findings <==> exists i :: GrypeFirst(report.matches, i, image, ctx, f)
  {
    hide FirstPerKey, IsStableSort, GrypeFindings, AllGrypeSaid, Somes, GrypeSaid, GrypeShows, GrypeFirst, SaysKey;
    var matches := report.matches;
    assert ImageName(report.target) == image;
    GrypeSomes(matches, image, ctx);
    var said := AllGrypeSaid(matches, image, ctx);
    FirstsByRecord(said, f);
    StableSortKeepsElements(FirstPerKey(GrypeFindings(matches, image, ctx)), findings, ScoreOf);
    SameMembers(FirstPerKey(GrypeFindings(matches, image, ctx)), findings);
    forall i: nat | i < |matches| && GrypeShows(matches[i], image, ctx, f)
      ensures SaysKey(said[..i], f.key) <==> !GrypeFirst(matches, i, image, ctx, f)
    {
      GrypeKeysByFields(matches, said, i, image, ctx, f);
    }
    forall i | 0 <= i < |matches|
      ensures GrypeSaid(matches[i], image, ctx) == Some(f) <==> GrypeShows(matches[i], image, ctx, f)
    {
      GrypeByFields(matches[i], image, ctx, f);
    }
    forall i ensures GrypeFirst(matches, i, image, ctx, f) ==> 0 <= i < |matches| && GrypeShows(matches[i], image, ctx, f) {
      GrypeFirstShows(matches, i, image, ctx, f);
    }
  }

  // ---------------------------------------------------------------------
  // The summary
  // ---------------------------------------------------------------------

  /** Findings keep their place and all but an unlisted severity. */
  lemma {:induction false} NormalisedByFields(findings: seq<ImageFinding>)
    ensures |NormalisedAll(findings)| == |findings|
    ensures forall i :: 0 <= i < |findings| ==>
              NormalisedAll(findings)[i] ==
              if findings[i].severity.OTHER? then findings[i].(severity := UNKNOWN) else findings[i]
  {
    if findings != [] {
      NormalisedByFields(Init(findings));
    }
  }

  function SeveritiesOf(findings: seq<ImageFinding>): seq<Severity> {
    seq(|findings|, i requires 0 <= i < |findings| => findings[i].severity)
  }

  /** A counter is the number of findings of its severity. */
  lemma {:induction false} CountByFields(findings: seq<ImageFinding>, severity: Severity)
    ensures CountOf(findings, severity) == multiset(SeveritiesOf(findings))[severity]
  {
    if findings == [] {
      assert SeveritiesOf(findings) == [];
    } else {
      CountByFields(Init(findings), severity);
      assert SeveritiesOf(findings) == SeveritiesOf(Init(findings)) + [Last(findings).severity];
    }
  }
}
