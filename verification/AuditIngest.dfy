/** Per-subject usage from audit-log lines (control-plane/app/audit_ingest.py). */
module AuditIngest {
  import opened Sequences
  import opened Json

  /** A line after decoding and parsing. */
  datatype Line = Missing | Undecodable | Blank | Malformed | Parsed(event: Json)

  datatype Usage = Usage(verb: string, resource: string, namespace: string)

  // ---------------------------------------------------------------------
  // What a line says
  // ---------------------------------------------------------------------

  /** v.get(key) when v is a dict; None also stands for "no dict". */
  function Field(v: Option<Json>, key: string): Option<Json> {
    if v.Some? && v.value.Obj? && key in v.value.fields then Some(v.value.fields[key]) else None
  }

  function NonEmptyText(v: Option<Json>): Option<string> {
    if v.Some? && v.value.Str? && v.value.s != "" then Some(v.value.s) else None
  }

  /** Python truthiness. */
  predicate Truthy(v: Json) {
    match v
    case Null => false
    case Bool(b) => b
    case Number(n) => n != 0.0
    case Str(s) => s != ""
    case Arr(items) => items != []
    case Obj(fields) => fields != map[]
  }

  function EventOf(line: Line): Option<Json> {
    if line.Parsed? then Some(line.event) else None
  }

  function SubjectOf(line: Line): Option<string> {
    NonEmptyText(Field(Field(EventOf(line), "user"), "username"))
  }

  function VerbOf(line: Line): Option<string> {
    NonEmptyText(Field(EventOf(line), "verb"))
  }

  function ObjectRef(line: Line): Option<Json> {
    Field(EventOf(line), "objectRef")
  }

  /** get("namespace") or "": None when it is neither falsy nor text. */
  function NamespaceOf(ref: Option<Json>): Option<string> {
    var v := Field(ref, "namespace");
    if v.None? || !Truthy(v.value) then Some("")
    else if v.value.Str? then Some(v.value.s) else None
  }

  /** RBAC names a subresource after its resource. */
  function Fold(resource: string, subresource: Option<string>): string {
    if subresource.Some? then resource + "/" + subresource.value else resource
  }

  predicate IsNothing(v: Option<Json>) {
    v.None? || v == Some(Null)
  }

  function ResourceOf(ref: Option<Json>): Option<string> {
    var sub := Field(ref, "subresource");
    match NonEmptyText(Field(ref, "resource"))
    case None => None
    case Some(resource) =>
      if IsNothing(sub) || sub == Some(Str("")) then Some(Fold(resource, None))
      else if sub.value.Str? then Some(Fold(resource, Some(sub.value.s))) else None
  }

  /** The line is a use of a resource by a subject. */
  predicate Records(line: Line, subject: string, u: Usage) {
    && SubjectOf(line) == Some(subject)
    && VerbOf(line) == Some(u.verb)
    && ResourceOf(ObjectRef(line)) == Some(u.resource)
    && NamespaceOf(ObjectRef(line)) == Some(u.namespace)
  }

  /** No line at all, or a well-formed request for something that is not a resource. */
  predicate IsIgnored(line: Line) {
    || line.Missing? || line.Blank?
    || (SubjectOf(line).Some? && VerbOf(line).Some? && IsNothing(Field(ObjectRef(line), "resource")))
  }

  predicate IsRecorded(line: Line) {
    SubjectOf(line).Some? && VerbOf(line).Some?
    && ResourceOf(ObjectRef(line)).Some? && NamespaceOf(ObjectRef(line)).Some?
  }

  function Count(lines: seq<Line>, p: Line -> bool): nat {
    if lines == [] then 0 else Count(Init(lines), p) + if p(Last(lines)) then 1 else 0
  }

  /** A line that cannot be read, or lacks a subject or a verb, or whose object is not well formed. */
  predicate IsSkipped(line: Line) {
    || line.Undecodable? || line.Malformed?
    || (line.Parsed?
        && (|| !line.event.Obj? || SubjectOf(line).None? || VerbOf(line).None?
            || (!IsNothing(Field(ObjectRef(line), "resource"))
                && (ResourceOf(ObjectRef(line)).None? || NamespaceOf(ObjectRef(line)).None?))))
  }

  ghost predicate Used(lines: seq<Line>, subject: string, u: Usage) {
    exists line :: line in lines && Records(line, subject, u)
  }

  function UsesOf(usage: map<string, set<Usage>>, subject: string): set<Usage> {
    if subject in usage then usage[subject] else {}
  }

  /** usage holds, for every subject, exactly what the lines record; a subject without uses is not in it. */
  ghost predicate IsUsageOf(usage: map<string, set<Usage>>, lines: seq<Line>) {
    && (forall s, u :: u in UsesOf(usage, s) <==> Used(lines, s, u))
    && (forall s :: s in usage ==> usage[s] != {})
  }

  // ---------------------------------------------------------------------
  // The loop
  // ---------------------------------------------------------------------

  datatype Step = Recorded(subject: string, use: Usage) | Skipped | Ignored

  /** The branches of the loop body, in the order the parser takes them. */
  method Classify(line: Line) returns (step: Step)
    ensures step.Recorded? <==> IsRecorded(line)
    ensures step.Recorded? ==> Records(line, step.subject, step.use)
    ensures step.Ignored? <==> IsIgnored(line)
  {
    if line.Missing? || line.Blank? {
      return Ignored;
    }
    if !line.Parsed? || !line.event.Obj? {
      return Skipped;
    }
    var event := Some(line.event);
    var user := Field(event, "user");
    if user.None? || !user.value.Obj? {
      return Skipped;
    }
    var subject := NonEmptyText(Field(user, "username"));
    if subject.None? {
      return Skipped;
    }
    var verb := NonEmptyText(Field(event, "verb"));
    if verb.None? {
      return Skipped;
    }
    var ref := Field(event, "objectRef");
    var resource, namespace := Field(ref, "resource"), NamespaceOf(ref);
    if IsNothing(resource) {
      return Ignored;
    }
    if NonEmptyText(resource).None? || namespace.None? {
      return Skipped;
    }
    var subresource := Field(ref, "subresource");
    if !IsNothing(subresource) && subresource != Some(Str("")) {
      if !subresource.value.Str? {
        return Skipped;
      }
      return Recorded(subject.value,
                      Usage(verb.value, Fold(resource.value.s, Some(subresource.value.s)), namespace.value));
    }
    return Recorded(subject.value, Usage(verb.value, resource.value.s, namespace.value));
  }

  /** parse_audit_usage, with the number of skipped lines that it logs. */
  method ParseAuditUsage(lines: seq<Line>) returns (usage: map<string, set<Usage>>, skipped: nat)
    ensures IsUsageOf(usage, lines)
    ensures skipped == Count(lines, IsSkipped)
  {
    hide Records, IsRecorded, IsIgnored, Used;
    usage, skipped := map[], 0;
    NothingUsed();
    for i := 0 to |lines|
      invariant IsUsageOf(usage, lines[..i])
      invariant skipped == Count(lines[..i], IsSkipped)
    {
      CountStep(lines, i, IsSkipped);
      var step := Classify(lines[i]);
      UsedStep(lines, i, step);
      assert IsSkipped(lines[i]) <==> step.Skipped? by { OneOfThree(lines[i]); }
      if step.Skipped? {
        skipped := skipped + 1;
        continue;
      }
      if step.Ignored? {
        continue;
      }
      ghost var before := usage;
      usage := usage[step.subject := UsesOf(usage, step.subject) + {step.use}];
      assert step.use in usage[step.subject];
      forall s, u ensures u in UsesOf(usage, s) <==>
                          u in UsesOf(before, s) || (s == step.subject && u == step.use) {
      }
    }
    assert lines[..|lines|] == lines;
  }

  lemma NothingUsed()
    ensures IsUsageOf(map[], [])
  {
  }

  lemma CountStep(lines: seq<Line>, i: nat, p: Line -> bool)
    requires i < |lines|
    ensures Count(lines[..i + 1], p) == Count(lines[..i], p) + if p(lines[i]) then 1 else 0
  {
    InitOfPrefix(lines, i);
  }

  lemma UsedStep(lines: seq<Line>, i: nat, step: Step)
    requires i < |lines|
    requires step.Recorded? <==> IsRecorded(lines[i])
    requires step.Recorded? ==> Records(lines[i], step.subject, step.use)
    ensures forall s, u :: Used(lines[..i + 1], s, u) <==>
      Used(lines[..i], s, u) || (step.Recorded? && s == step.subject && u == step.use)
  {
    hide SubjectOf, VerbOf, ResourceOf, NamespaceOf;
    assert lines[..i + 1] == lines[..i] + [lines[i]];
    forall s, u ensures Records(lines[i], s, u) <==> step.Recorded? && s == step.subject && u == step.use {
    }
    forall s, u ensures Used(lines[..i + 1], s, u) <==> Used(lines[..i], s, u) || Records(lines[i], s, u) {
      assert lines[i] in lines[..i + 1];
    }
  }

  // ---------------------------------------------------------------------
  // Laws
  // ---------------------------------------------------------------------

  /** Every line is recorded, skipped or ignored, and never two of these. */
  lemma {:induction false} EveryLineIsAccountedFor(lines: seq<Line>)
    ensures |lines| == Count(lines, IsRecorded) + Count(lines, IsSkipped) + Count(lines, IsIgnored)
  {
    if lines != [] {
      EveryLineIsAccountedFor(Init(lines));
      OneOfThree(Last(lines));
    }
  }

  lemma OneOfThree(line: Line)
    ensures !(IsRecorded(line) && IsIgnored(line))
    ensures IsSkipped(line) <==> !IsRecorded(line) && !IsIgnored(line)
  {
  }

  /** Only the set of lines matters: neither their order nor how often one is repeated. */
  lemma UsageDependsOnTheSetOfLines(
    a: seq<Line>, b: seq<Line>, usageA: map<string, set<Usage>>, usageB: map<string, set<Usage>>)
    requires forall l :: l in a <==> l in b
    requires IsUsageOf(usageA, a) && IsUsageOf(usageB, b)
    ensures usageA == usageB
  {
    hide Records;
    forall s ensures UsesOf(usageA, s) == UsesOf(usageB, s) {
      assert forall u :: Used(a, s, u) <==> Used(b, s, u);
    }
    forall s ensures s in usageA <==> s in usageB {
      assert UsesOf(usageA, s) == UsesOf(usageB, s);
    }
    forall s | s in usageA ensures usageA[s] == usageB[s] {
      assert UsesOf(usageA, s) == UsesOf(usageB, s);
    }
  }

  /** Parsing two logs one after the other gives, subject by subject, the union of what each gives. */
  lemma ConcatenationIsUnion(
    a: seq<Line>, b: seq<Line>, usageA: map<string, set<Usage>>, usageB: map<string, set<Usage>>,
    both: map<string, set<Usage>>)
    requires IsUsageOf(usageA, a) && IsUsageOf(usageB, b) && IsUsageOf(both, a + b)
    ensures both.Keys == usageA.Keys + usageB.Keys
    ensures forall s :: UsesOf(both, s) == UsesOf(usageA, s) + UsesOf(usageB, s)
  {
    hide Records;
    assert forall l :: l in a + b <==> l in a || l in b;
    forall s ensures UsesOf(both, s) == UsesOf(usageA, s) + UsesOf(usageB, s) {
      assert forall u :: Used(a + b, s, u) <==> Used(a, s, u) || Used(b, s, u);
    }
    forall s ensures s in both <==> s in usageA || s in usageB {
      assert UsesOf(both, s) == UsesOf(usageA, s) + UsesOf(usageB, s);
    }
  }

  function BeforeSlash(s: string): string {
    if s == "" || s[0] == '/' then "" else [s[0]] + BeforeSlash(s[1..])
  }

  lemma {:induction false} ResourceOfFold(r: string, s: Option<string>)
    requires '/' !in r
    ensures BeforeSlash(Fold(r, s)) == r
  {
    if r != "" {
      assert Fold(r, s)[1..] == Fold(r[1..], s);
      ResourceOfFold(r[1..], s);
    }
  }

  /** Resources without a slash fold apart: the granted-versus-used comparison cannot mix two of them up. */
  lemma FoldingIsInjective(r1: string, s1: Option<string>, r2: string, s2: Option<string>)
    requires '/' !in r1 && '/' !in r2 && Fold(r1, s1) == Fold(r2, s2)
    ensures r1 == r2 && s1 == s2
  {
    ResourceOfFold(r1, s1);
    ResourceOfFold(r2, s2);
    assert s1.Some? ==> Fold(r1, s1)[|r1| + 1..] == s1.value;
    assert s2.Some? ==> Fold(r2, s2)[|r2| + 1..] == s2.value;
    assert s1.Some? ==> |Fold(r1, s1)| > |r1|;
  }

  /** A subresource is text, and not empty. */
  predicate IsSubresource(s: Option<string>) {
    s.Some? ==> s.value != ""
  }

  ghost predicate CanFoldAlike(r1: string, r2: string) {
    exists s1, s2 :: IsSubresource(s1) && IsSubresource(s2) && Fold(r1, s1) == Fold(r2, s2)
  }

  /** What a resource name continues with after another name and a slash, and some more text if that is nothing. */
  lemma FoldsBeyond(r1: string, r2: string)
    requires r1 + "/" <= r2
    ensures CanFoldAlike(r1, r2)
  {
    var rest := r2[|r1| + 1..] + "/x";
    assert r2 == r1 + "/" + r2[|r1| + 1..];
    assert Fold(r1, Some(rest)) == Fold(r2, Some("x"));
  }

  lemma FoldedPrefix(r1: string, s1: Option<string>, r2: string, s2: Option<string>)
    requires Fold(r1, s1) == Fold(r2, s2) && r1 != r2 && |r1| <= |r2|
    ensures r1 + "/" <= r2
  {
    var whole := Fold(r1, s1);
    assert r1 == whole[..|r1|] && r2 == whole[..|r2|];
    assert s1.Some? && whole[..|r1| + 1] == r1 + "/";
    assert r2[..|r1| + 1] == whole[..|r1| + 1];
  }

  /** Two resources can fold alike exactly when one continues the other after a slash. */
  lemma FoldsAlikeExactly(r1: string, r2: string)
    requires r1 != r2
    ensures CanFoldAlike(r1, r2) <==> r1 + "/" <= r2 || r2 + "/" <= r1
  {
    if s1, s2 :| IsSubresource(s1) && IsSubresource(s2) && Fold(r1, s1) == Fold(r2, s2) {
      if |r1| <= |r2| {
        FoldedPrefix(r1, s1, r2, s2);
      } else {
        FoldedPrefix(r2, s2, r1, s1);
      }
    }
    if r1 + "/" <= r2 {
      FoldsBeyond(r1, r2);
    } else if r2 + "/" <= r1 {
      FoldsBeyond(r2, r1);
    }
  }

  /** With a slash in the resource it can. */
  lemma SlashesCollide(r: string, s: string, t: string)
    ensures Fold(r + "/" + s, Some(t)) == Fold(r, Some(s + "/" + t))
  {
    assert r + "/" + s + "/" + t == r + "/" + (s + "/" + t);
  }

  // ---------------------------------------------------------------------
  // The usage by the events' own fields
  // ---------------------------------------------------------------------

  predicate Holds(v: Json, key: string, w: Json) {
    v.Obj? && key in v.fields && v.fields[key] == w
  }

  predicate Lacks(v: Json, key: string) {
    !v.Obj? || key !in v.fields || v.fields[key] == Null
  }

  predicate IsFalsy(v: Json) {
    v == Null || v == Bool(false) || v == Number(0.0) || v == Str("") || v == Arr([]) || v == Obj(map[])
  }

  ghost predicate IsBy(event: Json, subject: string) {
    subject != "" && exists user :: Holds(event, "user", user) && Holds(user, "username", Str(subject))
  }

  predicate HasVerb(event: Json, verb: string) {
    verb != "" && Holds(event, "verb", Str(verb))
  }

  /** A resource, alone or with a subresource after a slash. */
  ghost predicate IsOn(ref: Json, resource: string) {
    exists r :: r != "" && Holds(ref, "resource", Str(r))
      && (|| (resource == r && (Lacks(ref, "subresource") || Holds(ref, "subresource", Str(""))))
          || (exists s :: s != "" && Holds(ref, "subresource", Str(s)) && resource == r + "/" + s))
  }

  /** A namespace, or none when that is missing or falsy. */
  ghost predicate IsWithin(ref: Json, namespace: string) {
    if namespace != "" then Holds(ref, "namespace", Str(namespace))
    else ref.Obj? && ("namespace" in ref.fields ==> IsFalsy(ref.fields["namespace"]))
  }

  ghost predicate SaysUse(line: Line, subject: string, u: Usage) {
    && line.Parsed? && IsBy(line.event, subject) && HasVerb(line.event, u.verb)
    && exists ref :: Holds(line.event, "objectRef", ref) && IsOn(ref, u.resource) && IsWithin(ref, u.namespace)
  }

  /** A subject and a verb, but no object, or one without a resource. */
  ghost predicate SaysNoResource(line: Line) {
    && line.Parsed? && (exists s :: IsBy(line.event, s)) && (exists v :: HasVerb(line.event, v))
    && (Lacks(line.event, "objectRef") || (exists ref :: Holds(line.event, "objectRef", ref) && Lacks(ref, "resource")))
  }

  lemma SubjectByFields(line: Line, subject: string)
    ensures SubjectOf(line) == Some(subject) <==> line.Parsed? && IsBy(line.event, subject)
  {
    if SubjectOf(line) == Some(subject) {
      assert Holds(line.event, "user", line.event.fields["user"]);
    }
  }

  lemma VerbByFields(line: Line, verb: string)
    ensures VerbOf(line) == Some(verb) <==> line.Parsed? && HasVerb(line.event, verb)
  {
  }

  lemma ResourceByFields(ref: Json, resource: string)
    ensures ResourceOf(Some(ref)) == Some(resource) <==> IsOn(ref, resource)
  {
    if ResourceOf(Some(ref)) == Some(resource) {
      var r, sub := ref.fields["resource"].s, Field(Some(ref), "subresource");
      assert Holds(ref, "resource", Str(r));
      if sub.Some? && sub.value.Str? && sub.value.s != "" {
        assert Holds(ref, "subresource", Str(sub.value.s));
      }
    }
  }

  lemma NamespaceByFields(ref: Json, namespace: string)
    ensures ref.Obj? ==> (NamespaceOf(Some(ref)) == Some(namespace) <==> IsWithin(ref, namespace))
  {
  }

  lemma NoObjectNoResource(line: Line, subject: string, u: Usage)
    requires Records(line, subject, u)
    ensures line.Parsed? && line.event.Obj? && "objectRef" in line.event.fields
    ensures line.event.fields["objectRef"].Obj?
  {
  }

  lemma RecordsByFields(line: Line, subject: string, u: Usage)
    ensures Records(line, subject, u) <==> SaysUse(line, subject, u)
  {
    hide SubjectOf, VerbOf, ResourceOf, NamespaceOf, IsBy, HasVerb, IsOn, IsWithin;
    SubjectByFields(line, subject);
    VerbByFields(line, u.verb);
    if Records(line, subject, u) {
      NoObjectNoResource(line, subject, u);
      var ref := line.event.fields["objectRef"];
      ResourceByFields(ref, u.resource);
      NamespaceByFields(ref, u.namespace);
      assert Holds(line.event, "objectRef", ref);
    }
    if SaysUse(line, subject, u) {
      var ref :| Holds(line.event, "objectRef", ref) && IsOn(ref, u.resource) && IsWithin(ref, u.namespace);
      ResourceByFields(ref, u.resource);
      OnlyObjectsAreOn(ref, u.resource);
      NamespaceByFields(ref, u.namespace);
      assert ObjectRef(line) == Some(ref);
    }
  }

  lemma OnlyObjectsAreOn(ref: Json, resource: string)
    requires IsOn(ref, resource)
    ensures ref.Obj?
  {
  }

  /** A subject's set holds exactly the uses that some line of the log says. */
  lemma UsageByFields(usage: map<string, set<Usage>>, lines: seq<Line>, subject: string, u: Usage)
    requires IsUsageOf(usage, lines)
    ensures subject in usage && u in usage[subject] <==> exists line :: line in lines && SaysUse(line, subject, u)
  {
    hide Records, SaysUse;
    assert u in UsesOf(usage, subject) <==> Used(lines, subject, u);
    forall line ensures Records(line, subject, u) <==> SaysUse(line, subject, u) {
      RecordsByFields(line, subject, u);
    }
  }

  /** A line is ignored when there is none, or when it asks for no resource. */
  lemma IgnoredByFields(line: Line)
    ensures IsIgnored(line) <==> line.Missing? || line.Blank? || SaysNoResource(line)
  {
    hide SubjectOf, VerbOf, IsBy, HasVerb;
    if SubjectOf(line).Some? {
      SubjectByFields(line, SubjectOf(line).value);
    }
    if VerbOf(line).Some? {
      VerbByFields(line, VerbOf(line).value);
    }
    forall s, v | line.Parsed? && IsBy(line.event, s) && HasVerb(line.event, v)
      ensures SubjectOf(line).Some? && VerbOf(line).Some?
    {
      SubjectByFields(line, s);
      VerbByFields(line, v);
    }
    ResourcelessByFields(line);
  }

  ghost predicate AsksForNothing(event: Json) {
    Lacks(event, "objectRef") || (exists ref :: Holds(event, "objectRef", ref) && Lacks(ref, "resource"))
  }

  lemma ResourcelessByFields(line: Line)
    ensures line.Parsed? ==> (IsNothing(Field(ObjectRef(line), "resource")) <==> AsksForNothing(line.event))
  {
    if line.Parsed? && line.event.Obj? && "objectRef" in line.event.fields {
      assert Holds(line.event, "objectRef", line.event.fields["objectRef"]);
    }
  }

  /** And skipped, which is what the count is of, when it says no use and is not ignored. */
  lemma SkippedByFields(line: Line)
    ensures IsSkipped(line) <==>
            && !line.Missing? && !line.Blank? && !SaysNoResource(line)
            && forall s, u :: !SaysUse(line, s, u)
  {
    hide IsSkipped, IsIgnored, SaysNoResource, SaysUse, SubjectOf, VerbOf, ResourceOf, NamespaceOf;
    OneOfThree(line);
    IgnoredByFields(line);
    if IsRecorded(line) {
      var u := Usage(VerbOf(line).value, ResourceOf(ObjectRef(line)).value, NamespaceOf(ObjectRef(line)).value);
      RecordsByFields(line, SubjectOf(line).value, u);
    }
    forall s, u | SaysUse(line, s, u) ensures IsRecorded(line) {
      RecordsByFields(line, s, u);
    }
  }
}
