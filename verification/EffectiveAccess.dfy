/**
 * The Effective Access Graph (control-plane/app/effective_access.py): which
 * identities hold, across all their bindings together, a combination of grants
 * that no single role shows.
 */
module EffectiveAccess {
  import opened Sequences
  import opened RbacGraph
  import opened Scoring

  datatype SubjectKey = SubjectKey(kind: SubjectKind, name: Option<string>, namespace: Option<string>)

  function KeyOf(s: Subject): SubjectKey {
    SubjectKey(s.kind, s.name, s.namespace)
  }

  // ---------------------------------------------------------------------
  // Checks on one rule
  // ---------------------------------------------------------------------

  predicate HasVerb(r: Rule, verb: Verb) {
    verb in r.verbs || AnyVerb in r.verbs
  }

  /** Unspecified API groups match; specified ones must name the group or "*". */
  predicate HasResource(r: Rule, group: ApiGroup, resources: set<Resource>) {
    && (Meets(r.resources, resources) || AnyResource in r.resources)
    && (r.apiGroups == [] || group in r.apiGroups || AnyGroup in r.apiGroups)
  }

  predicate CreatesRoles(r: Rule) {
    HasResource(r, RbacGroup, {Roles, ClusterRoles}) && HasVerb(r, Create)
  }

  predicate Escalates(r: Rule) {
    HasVerb(r, Escalate)
  }

  predicate CreatesBindings(r: Rule) {
    HasResource(r, RbacGroup, {RoleBindings, ClusterRoleBindings}) && HasVerb(r, Create)
  }

  predicate Binds(r: Rule) {
    HasVerb(r, Bind)
  }

  predicate Impersonates(r: Rule) {
    HasVerb(r, Impersonate) && HasResource(r, CoreGroup, {Users, Groups, ServiceAccounts, UserExtras})
  }

  predicate CreatesPods(r: Rule) {
    HasResource(r, CoreGroup, {Pods}) && HasVerb(r, Create)
  }

  /** A rule that makes its role "privileged": wildcard, secret read, escalation verb or exec. */
  predicate PrivilegedRule(r: Rule) {
    || AnyVerb in r.verbs
    || AnyResource in r.resources
    || (Meets(r.verbs, {Get, List, Watch}) && HasResource(r, CoreGroup, {Secrets}))
    || Meets(r.verbs, {Escalate, Bind, Impersonate})
    || (Meets(r.verbs, {Create, Get}) && HasResource(r, CoreGroup, {PodsExec, PodsAttach, PodsPortforward}))
  }

  // ---------------------------------------------------------------------
  // What a combination finding means: a naive scan of the whole graph
  // ---------------------------------------------------------------------

  datatype Combo = RoleEscalation | BindEscalation | ImpersonationGrant | PrivilegedPodCreation

  const COMBOS := [RoleEscalation, BindEscalation, ImpersonationGrant, PrivilegedPodCreation]

  function ComboSeverity(c: Combo): Severity {
    if c == PrivilegedPodCreation then HIGH else CRITICAL
  }

  ghost predicate Names(b: Binding, key: SubjectKey) {
    exists s :: s in b.subjects && KeyOf(s) == key
  }

  /** Some binding names the subject and resolves to a role with a rule satisfying p. */
  ghost predicate Grants(g: Graph, key: SubjectKey, p: Rule -> bool) {
    exists b, r :: b in AllBindings(g) && Names(b, key) && r in RulesOf(g, b, true) && p(r)
  }

  predicate IsNonDefaultAccountIn(s: Subject, namespace: string) {
    s.kind == ServiceAccount && s.name != Some("default") && s.namespace == Some(namespace)
  }

  /** The namespace holds a non-default ServiceAccount that some binding gives a privileged role. */
  ghost predicate HostsPrivilegedAccount(g: Graph, namespace: string) {
    exists b, s :: b in AllBindings(g) && s in b.subjects && IsNonDefaultAccountIn(s, namespace)
                && AnyRule(RulesOf(g, b, true), PrivilegedRule)
  }

  ghost predicate ComboHolds(g: Graph, key: SubjectKey, c: Combo) {
    match c
    case RoleEscalation => Grants(g, key, CreatesRoles) && Grants(g, key, Escalates)
    case BindEscalation => Grants(g, key, CreatesBindings) && Grants(g, key, Binds)
    case ImpersonationGrant => Grants(g, key, Impersonates)
    case PrivilegedPodCreation =>
      Grants(g, key, CreatesPods) && key.namespace.Some? && HostsPrivilegedAccount(g, key.namespace.value)
  }

  // ---------------------------------------------------------------------
  // The findings the naive scan calls for, in report order
  // ---------------------------------------------------------------------

  datatype ComboFinding = ComboFinding(combo: Combo, severity: Severity, subject: Subject,
                                       bindings: seq<BindingRef>, score: real)

  function ComboScore(f: ComboFinding): real {
    f.score
  }

  function AllSubjects(bindings: seq<Binding>): seq<Subject> {
    if bindings == [] then [] else AllSubjects(Init(bindings)) + Last(bindings).subjects
  }

  function KeysOf(subjects: seq<Subject>): seq<SubjectKey> {
    if subjects == [] then [] else KeysOf(Init(subjects)) + [KeyOf(Last(subjects))]
  }

  function FirstWithKey(subjects: seq<Subject>, key: SubjectKey): Option<Subject> {
    if subjects == [] then None
    else
      var f := FirstWithKey(Init(subjects), key);
      if f.Some? then f
      else if KeyOf(Last(subjects)) == key then Some(Last(subjects)) else None
  }

  /** b once for every one of these subjects that has the key. */
  function Mentions(b: Binding, subjects: seq<Subject>, key: SubjectKey): seq<Binding> {
    if subjects == [] then []
    else if KeyOf(Last(subjects)) == key then Mentions(b, Init(subjects), key) + [b]
    else Mentions(b, Init(subjects), key)
  }

  /** The bindings naming a subject, in order, one entry per mention. */
  function BindingsNaming(bindings: seq<Binding>, key: SubjectKey): seq<Binding> {
    if bindings == [] then []
    else BindingsNaming(Init(bindings), key) + Mentions(Last(bindings), Last(bindings).subjects, key)
  }

  function Refs(bindings: seq<Binding>): seq<BindingRef> {
    if bindings == [] then []
    else Refs(Init(bindings)) + [RefOf(Last(bindings))]
  }

  function RepresentativeSubject(g: Graph, key: SubjectKey): Option<Subject> {
    FirstWithKey(AllSubjects(AllBindings(g)), key)
  }

  /** One scored finding: the subject, the bindings that name it, and the combination. */
  function Report(c: Combo, ctx: Context, subject: Subject, naming: seq<Binding>): ComboFinding {
    ComboFinding(c, ComboSeverity(c), subject, Refs(naming), ContextualScore(None, ComboSeverity(c), ctx))
  }

  function FindingsForSubject(ctx: Context, subject: Subject, naming: seq<Binding>,
                              combos: seq<Combo>, holding: set<Combo>): seq<ComboFinding>
  {
    if combos == [] then []
    else
      var front := FindingsForSubject(ctx, subject, naming, Init(combos), holding);
      if Last(combos) in holding then front + [Report(Last(combos), ctx, subject, naming)] else front
  }

  ghost function HoldingCombos(g: Graph, key: SubjectKey): set<Combo> {
    set c | c in COMBOS && ComboHolds(g, key, c)
  }

  ghost function FindingsForKey(g: Graph, ctx: Context, key: SubjectKey): seq<ComboFinding> {
    match RepresentativeSubject(g, key)
    case Some(subject) =>
      FindingsForSubject(ctx, subject, BindingsNaming(AllBindings(g), key), COMBOS, HoldingCombos(g, key))
    case None => []
  }

  ghost function FindingsForKeys(g: Graph, ctx: Context, keys: seq<SubjectKey>): seq<ComboFinding> {
    if keys == [] then [] else FindingsForKeys(g, ctx, Init(keys)) + FindingsForKey(g, ctx, Last(keys))
  }

  /** Before sorting: every subject in order of first mention, every combination that holds for it. */
  ghost function ExpectedFindings(g: Graph, ctx: Context): seq<ComboFinding> {
    FindingsForKeys(g, ctx, Distinct(KeysOf(AllSubjects(AllBindings(g)))))
  }

  // ---------------------------------------------------------------------
  // The engine: a role index, an inverted subject index, flattened rules
  // ---------------------------------------------------------------------

  function RulesVia(index: map<RoleKey, Role>, b: Binding): seq<Rule> {
    match Lookup(index, KeyOfRef(b))
    case Some(role) => role.rules
    case None => []
  }

  ghost predicate Flattened(bindings: seq<Binding>, index: map<RoleKey, Role>, r: Rule) {
    exists b :: b in bindings && r in RulesVia(index, b)
  }

  method FlattenRules(bindings: seq<Binding>, index: map<RoleKey, Role>) returns (rules: seq<Rule>)
    ensures forall r :: r in rules <==> Flattened(bindings, index, r)
  {
    rules := [];
    for i := 0 to |bindings|
      invariant forall r :: r in rules <==> Flattened(bindings[..i], index, r)
    {
      var b := bindings[i];
      assert bindings[..i + 1] == bindings[..i] + [b];
      forall r ensures Flattened(bindings[..i + 1], index, r) <==>
                       Flattened(bindings[..i], index, r) || r in RulesVia(index, b) {
        assert b in bindings[..i + 1];
      }
      var role := Lookup(index, KeyOfRef(b));
      assert RulesVia(index, b) == if role.Some? then role.value.rules else [];
      if role.Some? {
        rules := rules + role.value.rules;
      }
    }
    assert bindings[..|bindings|] == bindings;
  }

  ghost predicate AccountIn(subjects: seq<Subject>, namespace: string) {
    exists s :: s in subjects && IsNonDefaultAccountIn(s, namespace)
  }

  ghost predicate HostsPrivilegedVia(bindings: seq<Binding>, index: map<RoleKey, Role>, namespace: string) {
    exists b :: b in bindings && AccountIn(b.subjects, namespace) && AnyRule(RulesVia(index, b), PrivilegedRule)
  }

  method BuildPrivilegedNamespaces(bindings: seq<Binding>, index: map<RoleKey, Role>)
    returns (namespaces: set<string>)
    ensures forall n :: n in namespaces <==> HostsPrivilegedVia(bindings, index, n)
  {
    namespaces := {};
    for i := 0 to |bindings|
      invariant forall n :: n in namespaces <==> HostsPrivilegedVia(bindings[..i], index, n)
    {
      var b := bindings[i];
      assert bindings[..i + 1] == bindings[..i] + [b];
      forall n ensures HostsPrivilegedVia(bindings[..i + 1], index, n) <==>
        HostsPrivilegedVia(bindings[..i], index, n)
        || (AccountIn(b.subjects, n) && AnyRule(RulesVia(index, b), PrivilegedRule)) {
        assert b in bindings[..i + 1];
      }
      if !AnyRule(RulesVia(index, b), PrivilegedRule) {
        continue;
      }
      var found := NonDefaultAccountNamespaces(b.subjects);
      namespaces := namespaces + found;
    }
    assert bindings[..|bindings|] == bindings;
  }

  /** The inner loop of _build_privileged_namespaces; a subject without a namespace is skipped. */
  method NonDefaultAccountNamespaces(subjects: seq<Subject>) returns (namespaces: set<string>)
    ensures forall n :: n in namespaces <==> AccountIn(subjects, n)
  {
    namespaces := {};
    for j := 0 to |subjects|
      invariant forall n :: n in namespaces <==> AccountIn(subjects[..j], n)
    {
      var s := subjects[j];
      assert subjects[..j + 1] == subjects[..j] + [s];
      forall n ensures AccountIn(subjects[..j + 1], n) <==> AccountIn(subjects[..j], n) || IsNonDefaultAccountIn(s, n) {
        assert s in subjects[..j + 1];
      }
      if s.kind != ServiceAccount { continue; }
      if s.name == Some("default") { continue; }
      if s.namespace.None? { continue; }
      namespaces := namespaces + {s.namespace.value};
    }
    assert subjects[..|subjects|] == subjects;
  }

  /** subject_to_bindings: a dict as its key order and its contents. */
  method GroupBySubject(bindings: seq<Binding>)
    returns (keys: seq<SubjectKey>, groups: map<SubjectKey, seq<Binding>>)
    ensures keys == Distinct(KeysOf(AllSubjects(bindings)))
    ensures forall k :: k in groups <==> k in keys
    ensures forall k :: k in groups ==> groups[k] == BindingsNaming(bindings, k)
  {
    keys, groups := [], map[];
    for i := 0 to |bindings|
      invariant keys == Distinct(KeysOf(AllSubjects(bindings[..i])))
      invariant forall k :: k in groups <==> k in keys
      invariant forall k :: Group(groups, k) == BindingsNaming(bindings[..i], k)
    {
      forall k ensures BindingsNaming(bindings[..i + 1], k) ==
                       BindingsNaming(bindings[..i], k) + Mentions(bindings[i], bindings[i].subjects, k) {
        NamingSnoc(bindings, i, k);
      }
      AllSubjectsSnoc(bindings, i);
      keys, groups := AddMentions(AllSubjects(bindings[..i]), keys, groups, bindings[i]);
    }
    assert bindings[..|bindings|] == bindings;
  }

  lemma NamingSnoc(bindings: seq<Binding>, i: nat, k: SubjectKey)
    requires i < |bindings|
    ensures BindingsNaming(bindings[..i + 1], k) ==
            BindingsNaming(bindings[..i], k) + Mentions(bindings[i], bindings[i].subjects, k)
  {
    InitOfPrefix(bindings, i);
  }

  lemma AllSubjectsSnoc(bindings: seq<Binding>, i: nat)
    requires i < |bindings|
    ensures AllSubjects(bindings[..i + 1]) == AllSubjects(bindings[..i]) + bindings[i].subjects
  {
    InitOfPrefix(bindings, i);
  }

  function Group(groups: map<SubjectKey, seq<Binding>>, k: SubjectKey): seq<Binding> {
    if k in groups then groups[k] else []
  }

  /** subject_to_bindings[key].append(b), a defaultdict creating the missing list. */
  method AppendMention(keys0: seq<SubjectKey>, groups0: map<SubjectKey, seq<Binding>>, key: SubjectKey, b: Binding)
    returns (keys: seq<SubjectKey>, groups: map<SubjectKey, seq<Binding>>)
    requires forall k :: k in groups0 <==> k in keys0
    ensures keys == if key in keys0 then keys0 else keys0 + [key]
    ensures forall k :: k in groups <==> k in keys
    ensures forall k :: Group(groups, k) == if k == key then Group(groups0, k) + [b] else Group(groups0, k)
  {
    keys := if key in keys0 then keys0 else keys0 + [key];
    groups := groups0[key := Group(groups0, key) + [b]];
  }

  /** The inner loop: one append per subject of the binding. */
  method AddMentions(ghost seen: seq<Subject>, keys0: seq<SubjectKey>, groups0: map<SubjectKey, seq<Binding>>, b: Binding)
    returns (keys: seq<SubjectKey>, groups: map<SubjectKey, seq<Binding>>)
    requires keys0 == Distinct(KeysOf(seen))
    requires forall k :: k in groups0 <==> k in keys0
    ensures keys == Distinct(KeysOf(seen + b.subjects))
    ensures forall k :: k in groups <==> k in keys
    ensures forall k :: Group(groups, k) == Group(groups0, k) + Mentions(b, b.subjects, k)
  {
    keys, groups := keys0, groups0;
    assert seen + b.subjects[..0] == seen;
    for j := 0 to |b.subjects|
      invariant keys == Distinct(KeysOf(seen + b.subjects[..j]))
      invariant forall k :: k in groups <==> k in keys
      invariant forall k :: Group(groups, k) == Group(groups0, k) + Mentions(b, b.subjects[..j], k)
    {
      ghost var before := groups;
      DistinctKeysSnoc(seen, b.subjects, j);
      keys, groups := AppendMention(keys, groups, KeyOf(b.subjects[j]), b);
      forall k ensures Group(groups, k) == Group(groups0, k) + Mentions(b, b.subjects[..j + 1], k) {
        MentionsSnoc(b, j, k, Group(groups0, k));
      }
    }
    assert b.subjects[..|b.subjects|] == b.subjects;
  }

  lemma MentionsSnoc(b: Binding, j: nat, k: SubjectKey, prefix: seq<Binding>)
    requires j < |b.subjects|
    ensures prefix + Mentions(b, b.subjects[..j + 1], k) ==
            var m := prefix + Mentions(b, b.subjects[..j], k);
            if KeyOf(b.subjects[j]) == k then m + [b] else m
  {
    InitOfPrefix(b.subjects, j);
  }

  lemma DistinctKeysSnoc(seen: seq<Subject>, subjects: seq<Subject>, j: nat)
    requires j < |subjects|
    ensures Distinct(KeysOf(seen + subjects[..j + 1])) ==
            var r, key := Distinct(KeysOf(seen + subjects[..j])), KeyOf(subjects[j]);
            if key in r then r else r + [key]
  {
    InitOfPrefix(subjects, j);
    InitOfConcat(seen, subjects[..j + 1]);
    InitOfConcat(KeysOf(seen + subjects[..j]), [KeyOf(subjects[j])]);
  }

  lemma {:induction false} KeysOfMembers(subjects: seq<Subject>, key: SubjectKey)
    ensures key in KeysOf(subjects) <==> FirstWithKey(subjects, key).Some?
  {
    if subjects != [] {
      KeysOfMembers(Init(subjects), key);
    }
  }

  lemma {:induction false} FirstWithKeyFound(subjects: seq<Subject>, key: SubjectKey)
    ensures match FirstWithKey(subjects, key)
            case Some(s) => KeyOf(s) == key && s in subjects
            case None => forall s :: s in subjects ==> KeyOf(s) != key
  {
    if subjects != [] {
      FirstWithKeyFound(Init(subjects), key);
      assert forall s :: s in subjects <==> s in Init(subjects) || s == Last(subjects);
    }
  }

  lemma {:induction false} FirstWithKeyConcat(a: seq<Subject>, b: seq<Subject>, key: SubjectKey)
    ensures FirstWithKey(a + b, key) ==
            if FirstWithKey(a, key).Some? then FirstWithKey(a, key) else FirstWithKey(b, key)
  {
    if b == [] {
      assert a + b == a;
    } else {
      InitOfConcat(a, b);
      FirstWithKeyConcat(a, Init(b), key);
    }
  }

  lemma {:induction false} MentionsAreTheBinding(b: Binding, subjects: seq<Subject>, key: SubjectKey)
    ensures forall i :: 0 <= i < |Mentions(b, subjects, key)| ==> Mentions(b, subjects, key)[i] == b
    ensures |Mentions(b, subjects, key)| > 0 <==> FirstWithKey(subjects, key).Some?
  {
    if subjects != [] {
      MentionsAreTheBinding(b, Init(subjects), key);
    }
  }

  /** bindings[0] of a subject's group holds the subject's first mention, so next(...) finds a witness. */
  lemma {:induction false} FirstMentionIsInFirstBinding(bindings: seq<Binding>, key: SubjectKey)
    ensures var group, first := BindingsNaming(bindings, key), FirstWithKey(AllSubjects(bindings), key);
            && (group == [] <==> first.None?)
            && (group != [] ==> first == FirstWithKey(group[0].subjects, key))
  {
    if bindings != [] {
      var b := Last(bindings);
      FirstMentionIsInFirstBinding(Init(bindings), key);
      FirstWithKeyConcat(AllSubjects(Init(bindings)), b.subjects, key);
      MentionsAreTheBinding(b, b.subjects, key);
      var group, m := BindingsNaming(Init(bindings), key), Mentions(b, b.subjects, key);
      if group == [] {
        assert group + m == m;
      } else {
        assert (group + m)[0] == group[0];
      }
    }
  }

  lemma {:induction false} NamingMembers(bindings: seq<Binding>, key: SubjectKey)
    ensures forall b :: b in BindingsNaming(bindings, key) <==> b in bindings && Names(b, key)
  {
    if bindings != [] {
      var l := Last(bindings);
      NamingMembers(Init(bindings), key);
      MentionsAreTheBinding(l, l.subjects, key);
      FirstWithKeyFound(l.subjects, key);
      var m := Mentions(l, l.subjects, key);
      assert |m| > 0 ==> m[0] in m;
    }
  }

  /** What a combination predicate sees of a subject: its flattened rules and one flag. */
  predicate ComboFires(c: Combo, rules: seq<Rule>, hasPrivilegedAccount: bool) {
    match c
    case RoleEscalation => AnyRule(rules, CreatesRoles) && AnyRule(rules, Escalates)
    case BindEscalation => AnyRule(rules, CreatesBindings) && AnyRule(rules, Binds)
    case ImpersonationGrant => AnyRule(rules, Impersonates)
    case PrivilegedPodCreation => AnyRule(rules, CreatesPods) && hasPrivilegedAccount
  }

  ghost predicate IndexOf(index: map<RoleKey, Role>, g: Graph) {
    forall b :: RulesVia(index, b) == RulesOf(g, b, true)
  }

  lemma FlattenedMeansGranted(
    g: Graph, index: map<RoleKey, Role>, key: SubjectKey, rules: seq<Rule>, p: Rule -> bool)
    requires IndexOf(index, g)
    requires forall r :: r in rules <==> Flattened(BindingsNaming(AllBindings(g), key), index, r)
    ensures AnyRule(rules, p) <==> Grants(g, key, p)
  {
    var bindings := AllBindings(g);
    NamingMembers(bindings, key);
    forall r ensures r in rules <==> exists b :: b in bindings && Names(b, key) && r in RulesOf(g, b, true) {
      if r in rules {
        var b :| b in BindingsNaming(bindings, key) && r in RulesVia(index, b);
        assert b in bindings && Names(b, key) && r in RulesOf(g, b, true);
      }
      if b :| b in bindings && Names(b, key) && r in RulesOf(g, b, true) {
        assert b in BindingsNaming(bindings, key) && r in RulesVia(index, b);
      }
    }
  }

  /** The inverted index with flattened rules says exactly what the naive scan says. */
  lemma FiresIffHolds(
    g: Graph, index: map<RoleKey, Role>, key: SubjectKey, rules: seq<Rule>, hasPrivilegedAccount: bool, c: Combo)
    requires IndexOf(index, g)
    requires forall r :: r in rules <==> Flattened(BindingsNaming(AllBindings(g), key), index, r)
    requires hasPrivilegedAccount <==>
      key.namespace.Some? && HostsPrivilegedVia(AllBindings(g), index, key.namespace.value)
    ensures ComboFires(c, rules, hasPrivilegedAccount) <==> ComboHolds(g, key, c)
  {
    match c
    case RoleEscalation =>
      FlattenedMeansGranted(g, index, key, rules, CreatesRoles);
      FlattenedMeansGranted(g, index, key, rules, Escalates);
    case BindEscalation =>
      FlattenedMeansGranted(g, index, key, rules, CreatesBindings);
      FlattenedMeansGranted(g, index, key, rules, Binds);
    case ImpersonationGrant =>
      FlattenedMeansGranted(g, index, key, rules, Impersonates);
    case PrivilegedPodCreation =>
      FlattenedMeansGranted(g, index, key, rules, CreatesPods);
  }

  /** The four predicates, in order. */
  method EvaluateCombos(ctx: Context, subject: Subject, group: seq<Binding>, rules: seq<Rule>,
                        hasPrivilegedAccount: bool, ghost holding: set<Combo>)
    returns (found: seq<ComboFinding>)
    requires forall c :: c in holding <==> ComboFires(c, rules, hasPrivilegedAccount)
    ensures found == FindingsForSubject(ctx, subject, group, COMBOS, holding)
  {
    found := [];
    if rules == [] {
      assert holding == {};
      NothingHolds(ctx, subject, group, COMBOS);
      return;
    }
    for j := 0 to |COMBOS|
      invariant found == FindingsForSubject(ctx, subject, group, COMBOS[..j], holding)
    {
      InitOfPrefix(COMBOS, j);
      if ComboFires(COMBOS[j], rules, hasPrivilegedAccount) {
        found := found + [Report(COMBOS[j], ctx, subject, group)];
      }
    }
    assert COMBOS[..|COMBOS|] == COMBOS;
  }

  lemma {:induction false} NothingHolds(ctx: Context, subject: Subject, group: seq<Binding>, combos: seq<Combo>)
    ensures FindingsForSubject(ctx, subject, group, combos, {}) == []
  {
    if combos != [] {
      NothingHolds(ctx, subject, group, Init(combos));
    }
  }

  lemma EveryCombo(c: Combo)
    ensures c in COMBOS
  {
    assert c == COMBOS[0] || c == COMBOS[1] || c == COMBOS[2] || c == COMBOS[3];
  }

  /** The body of the loop over subjects. */
  method EvaluateSubject(ghost g: Graph, ctx: Context, index: map<RoleKey, Role>, key: SubjectKey,
                         group: seq<Binding>, privilegedNamespaces: set<string>)
    returns (found: seq<ComboFinding>)
    requires IndexOf(index, g)
    requires key in KeysOf(AllSubjects(AllBindings(g)))
    requires group == BindingsNaming(AllBindings(g), key)
    requires forall n :: n in privilegedNamespaces <==> HostsPrivilegedVia(AllBindings(g), index, n)
    ensures found == FindingsForKey(g, ctx, key)
  {
    FirstMentionIsInFirstBinding(AllBindings(g), key);
    KeysOfMembers(AllSubjects(AllBindings(g)), key);
    FirstWithKeyFound(AllSubjects(AllBindings(g)), key);
    var subject := FirstWithKey(group[0].subjects, key).value;
    var rules := FlattenRules(group, index);
    var hasPrivilegedAccount := subject.namespace.Some? && subject.namespace.value in privilegedNamespaces;
    ghost var holding := HoldingCombos(g, key);
    forall c ensures c in holding <==> ComboFires(c, rules, hasPrivilegedAccount) {
      FiresIffHolds(g, index, key, rules, hasPrivilegedAccount, c);
      EveryCombo(c);
    }
    found := EvaluateCombos(ctx, subject, group, rules, hasPrivilegedAccount, holding);
  }

  /** evaluate_combo_findings: the sorted report is the stable sort of what the naive scan calls for. */
  method EvaluateComboFindings(g: Graph, ctx: Context) returns (findings: seq<ComboFinding>)
    ensures IsStableSort(ExpectedFindings(g, ctx), findings, ComboScore)
  {
    var index := IndexRoles(g, true);
    assert IndexOf(index, g);
    var privilegedNamespaces := BuildPrivilegedNamespaces(AllBindings(g), index);
    var keys, groups := GroupBySubject(AllBindings(g));
    DistinctElements(KeysOf(AllSubjects(AllBindings(g))));

    findings := [];
    for i := 0 to |keys|
      invariant findings == FindingsForKeys(g, ctx, keys[..i])
    {
      InitOfPrefix(keys, i);
      var found := EvaluateSubject(g, ctx, index, keys[i], groups[keys[i]], privilegedNamespaces);
      findings := findings + found;
    }
    assert keys[..|keys|] == keys;
    StableSortIsStable(findings, ComboScore);
    findings := StableSort(findings, ComboScore);
  }
}
