/**
 * The combination report said of the graph's own fields: every condition is
 * spelled out over names, verbs, resources and groups, without the engine's
 * checks, its index or its flattening.
 */
module EffectiveAccessByFields {
  import opened Sequences
  import opened RbacGraph
  import opened GraphByFields
  import opened Scoring
  import opened EffectiveAccess
  import opened EffectiveAccessLaws

  // ---------------------------------------------------------------------
  // One rule
  // ---------------------------------------------------------------------

  predicate MayCreateRoles(r: Rule) {
    && (Create in r.verbs || AnyVerb in r.verbs)
    && (Roles in r.resources || ClusterRoles in r.resources || AnyResource in r.resources)
    && (r.apiGroups == [] || RbacGroup in r.apiGroups || AnyGroup in r.apiGroups)
  }

  predicate MayEscalate(r: Rule) {
    Escalate in r.verbs || AnyVerb in r.verbs
  }

  predicate MayCreateBindings(r: Rule) {
    && (Create in r.verbs || AnyVerb in r.verbs)
    && (RoleBindings in r.resources || ClusterRoleBindings in r.resources || AnyResource in r.resources)
    && (r.apiGroups == [] || RbacGroup in r.apiGroups || AnyGroup in r.apiGroups)
  }

  predicate MayBind(r: Rule) {
    Bind in r.verbs || AnyVerb in r.verbs
  }

  predicate MayImpersonate(r: Rule) {
    && (Impersonate in r.verbs || AnyVerb in r.verbs)
    && (Users in r.resources || Groups in r.resources || ServiceAccounts in r.resources || UserExtras in r.resources
        || AnyResource in r.resources)
    && (r.apiGroups == [] || CoreGroup in r.apiGroups || AnyGroup in r.apiGroups)
  }

  predicate MayCreatePods(r: Rule) {
    && (Create in r.verbs || AnyVerb in r.verbs)
    && (Pods in r.resources || AnyResource in r.resources)
    && (r.apiGroups == [] || CoreGroup in r.apiGroups || AnyGroup in r.apiGroups)
  }

  /** Everything, or reading secrets, or running commands in pods, or a verb that widens one's own access. */
  predicate IsPowerful(r: Rule) {
    || AnyVerb in r.verbs || AnyResource in r.resources
    || Escalate in r.verbs || Bind in r.verbs || Impersonate in r.verbs
    || ((r.apiGroups == [] || CoreGroup in r.apiGroups || AnyGroup in r.apiGroups)
        && (|| (Secrets in r.resources && (Get in r.verbs || List in r.verbs || Watch in r.verbs))
            || ((PodsExec in r.resources || PodsAttach in r.resources || PodsPortforward in r.resources)
                && (Create in r.verbs || Get in r.verbs))))
  }

  lemma ChecksByFields(r: Rule)
    ensures CreatesRoles(r) <==> MayCreateRoles(r)
    ensures Escalates(r) <==> MayEscalate(r)
    ensures CreatesBindings(r) <==> MayCreateBindings(r)
    ensures Binds(r) <==> MayBind(r)
    ensures Impersonates(r) <==> MayImpersonate(r)
    ensures CreatesPods(r) <==> MayCreatePods(r)
    ensures PrivilegedRule(r) <==> IsPowerful(r)
  {
  }

  // ---------------------------------------------------------------------
  // The graph
  // ---------------------------------------------------------------------

  ghost predicate NamedIn(b: Binding, key: SubjectKey) {
    exists s :: s in b.subjects && s.kind == key.kind && s.name == key.name && s.namespace == key.namespace
  }

  /** The binding refers to a named role that has this rule. */
  ghost predicate GivesRule(g: Graph, b: Binding, r: Rule) {
    exists role :: RefersTo(g, b, role) && CountsAs(role, true) && r in role.rules
  }

  /** Some binding that names the subject gives it a rule satisfying p. */
  ghost predicate Reaches(g: Graph, key: SubjectKey, p: Rule -> bool) {
    exists b, r :: IsBinding(g, b) && NamedIn(b, key) && GivesRule(g, b, r) && p(r)
  }

  /** Some binding gives a powerful rule to a service account of the namespace that is not "default". */
  ghost predicate HousesPower(g: Graph, namespace: string) {
    exists b, s, r :: IsBinding(g, b) && s in b.subjects && GivesRule(g, b, r) && IsPowerful(r)
      && s.kind == ServiceAccount && s.namespace == Some(namespace) && s.name != Some("default")
  }

  ghost predicate Holds(g: Graph, key: SubjectKey, c: Combo) {
    || (c == RoleEscalation && Reaches(g, key, MayCreateRoles) && Reaches(g, key, MayEscalate))
    || (c == BindEscalation && Reaches(g, key, MayCreateBindings) && Reaches(g, key, MayBind))
    || (c == ImpersonationGrant && Reaches(g, key, MayImpersonate))
    || (c == PrivilegedPodCreation && Reaches(g, key, MayCreatePods)
        && key.namespace.Some? && HousesPower(g, key.namespace.value))
  }

  lemma RulesByFields(g: Graph, b: Binding, r: Rule)
    ensures r in RulesOf(g, b, true) <==> GivesRule(g, b, r)
  {
    hide FindRole, RefersTo, CountsAs;
    forall role ensures FindRole(g, KeyOfRef(b), true) == Some(role) <==> RefersTo(g, b, role) && CountsAs(role, true) {
      ResolvesByFields(g, b, role, true);
    }
  }

  lemma NamesByFields(b: Binding, key: SubjectKey)
    ensures Names(b, key) <==> NamedIn(b, key)
  {
    assert forall s :: KeyOf(s) == key <==> s.kind == key.kind && s.name == key.name && s.namespace == key.namespace;
  }

  lemma GrantsByFields(g: Graph, key: SubjectKey, p: Rule -> bool, q: Rule -> bool)
    requires forall r :: p(r) <==> q(r)
    ensures Grants(g, key, p) <==> Reaches(g, key, q)
  {
    hide GivesRule, RulesOf, AllBindings, IsBinding, Names, NamedIn;
    forall b, r ensures r in RulesOf(g, b, true) <==> GivesRule(g, b, r) {
      RulesByFields(g, b, r);
    }
    forall b ensures b in AllBindings(g) <==> IsBinding(g, b) {
      BindingsByFields(g, b);
    }
    forall b ensures Names(b, key) <==> NamedIn(b, key) {
      NamesByFields(b, key);
    }
    if b, r :| b in AllBindings(g) && Names(b, key) && r in RulesOf(g, b, true) && p(r) {
      assert IsBinding(g, b) && NamedIn(b, key) && GivesRule(g, b, r) && q(r);
    }
    if b, r :| IsBinding(g, b) && NamedIn(b, key) && GivesRule(g, b, r) && q(r) {
      assert b in AllBindings(g) && Names(b, key) && r in RulesOf(g, b, true) && p(r);
    }
  }

  lemma PowerByFields(g: Graph, namespace: string)
    ensures HostsPrivilegedAccount(g, namespace) <==> HousesPower(g, namespace)
  {
    hide GivesRule, RulesOf, AllBindings, IsBinding, PrivilegedRule, IsPowerful;
    forall r ensures PrivilegedRule(r) <==> IsPowerful(r) {
      ChecksByFields(r);
    }
    forall b, r ensures r in RulesOf(g, b, true) <==> GivesRule(g, b, r) {
      RulesByFields(g, b, r);
    }
    forall b ensures b in AllBindings(g) <==> IsBinding(g, b) {
      BindingsByFields(g, b);
    }
    if HostsPrivilegedAccount(g, namespace) {
      var b, s :| b in AllBindings(g) && s in b.subjects && IsNonDefaultAccountIn(s, namespace)
               && AnyRule(RulesOf(g, b, true), PrivilegedRule);
      var r :| r in RulesOf(g, b, true) && PrivilegedRule(r);
      assert IsBinding(g, b) && GivesRule(g, b, r) && IsPowerful(r);
    }
    if HousesPower(g, namespace) {
      var b, s, r :| IsBinding(g, b) && s in b.subjects && GivesRule(g, b, r) && IsPowerful(r)
                  && s.kind == ServiceAccount && s.namespace == Some(namespace) && s.name != Some("default");
      assert r in RulesOf(g, b, true) && AnyRule(RulesOf(g, b, true), PrivilegedRule);
      assert b in AllBindings(g) && IsNonDefaultAccountIn(s, namespace);
    }
  }

  lemma HoldsByFields(g: Graph, key: SubjectKey, c: Combo)
    ensures ComboHolds(g, key, c) <==> Holds(g, key, c)
  {
    hide Grants, Reaches, HostsPrivilegedAccount, HousesPower, CreatesRoles, MayCreateRoles, Escalates, MayEscalate,
      CreatesBindings, MayCreateBindings, Binds, MayBind, Impersonates, MayImpersonate, CreatesPods, MayCreatePods;
    forall r {
      ChecksByFields(r);
    }
    match c
    case RoleEscalation =>
      GrantsByFields(g, key, CreatesRoles, MayCreateRoles);
      GrantsByFields(g, key, Escalates, MayEscalate);
    case BindEscalation =>
      GrantsByFields(g, key, CreatesBindings, MayCreateBindings);
      GrantsByFields(g, key, Binds, MayBind);
    case ImpersonationGrant =>
      GrantsByFields(g, key, Impersonates, MayImpersonate);
    case PrivilegedPodCreation =>
      GrantsByFields(g, key, CreatesPods, MayCreatePods);
      if key.namespace.Some? {
        PowerByFields(g, key.namespace.value);
      }
  }

  // ---------------------------------------------------------------------
  // The report
  // ---------------------------------------------------------------------

  predicate IsPair(f: ComboFinding, key: SubjectKey, c: Combo) {
    && f.combo == c
    && f.subject.kind == key.kind && f.subject.name == key.name && f.subject.namespace == key.namespace
  }

  ghost predicate IsReported(findings: seq<ComboFinding>, key: SubjectKey, c: Combo) {
    exists f :: f in findings && IsPair(f, key, c)
  }

  /** A (subject, combination) pair is in the report exactly when the fields of the graph say so. */
  lemma ReportedByFields(g: Graph, ctx: Context, findings: seq<ComboFinding>, key: SubjectKey, c: Combo)
    requires IsStableSort(ExpectedFindings(g, ctx), findings, ComboScore)
    ensures IsReported(findings, key, c) <==> Holds(g, key, c)
  {
    hide ComboHolds, Holds, ExpectedFindings, IsStableSort;
    ReportedExactlyOnce(g, ctx, findings);
    HoldsByFields(g, key, c);
    forall f: ComboFinding ensures PairOf(f) == (key, c) <==> IsPair(f, key, c) {
    }
    assert Reports(findings, key, c) <==> IsReported(findings, key, c);
  }

  /** What a finding shows beside its subject and combination. */
  lemma FindingByFields(g: Graph, ctx: Context, findings: seq<ComboFinding>, f: ComboFinding)
    requires IsStableSort(ExpectedFindings(g, ctx), findings, ComboScore) && f in findings
    ensures f.severity == if f.combo == PrivilegedPodCreation then HIGH else CRITICAL
    ensures f.score == Round2((if f.combo == PrivilegedPodCreation then 7.5 else 9.5) * Multiplier(ctx))
    ensures forall ref :: ref in f.bindings <==>
              exists b :: IsBinding(g, b) && NamedIn(b, KeyOf(f.subject))
                       && ref.kind == b.kind && ref.name == b.name && ref.namespace == b.namespace
  {
    hide ExpectedFindings, IsStableSort, AllBindings, IsBinding, NamedIn, Names, Refs, BindingsNaming, Multiplier, Round2;
    RepresentativeHasTheKey(g, ctx, findings, f);
    StableSortKeepsElements(ExpectedFindings(g, ctx), findings, ComboScore);
    SameMembers(ExpectedFindings(g, ctx), findings);
    ExpectedScores(g, ctx, f);
    var key := KeyOf(f.subject);
    NamingMembers(AllBindings(g), key);
    forall ref ensures ref in f.bindings <==>
                       exists b :: IsBinding(g, b) && NamedIn(b, key)
                                && ref.kind == b.kind && ref.name == b.name && ref.namespace == b.namespace
    {
      RefsMembers(BindingsNaming(AllBindings(g), key), ref);
      forall b ensures b in AllBindings(g) && Names(b, key) <==> IsBinding(g, b) && NamedIn(b, key) {
        BindingsByFields(g, b);
        NamesByFields(b, key);
      }
    }
  }

  lemma {:induction false} RefsMembers(bindings: seq<Binding>, ref: BindingRef)
    ensures ref in Refs(bindings) <==>
            exists b :: b in bindings && ref.kind == b.kind && ref.name == b.name && ref.namespace == b.namespace
  {
    if bindings != [] {
      RefsMembers(Init(bindings), ref);
      assert forall b :: b in bindings <==> b in Init(bindings) || b == Last(bindings);
    }
  }

  ghost predicate IsScored(f: ComboFinding, ctx: Context) {
    && f.severity == (if f.combo == PrivilegedPodCreation then HIGH else CRITICAL)
    && f.score == Round2((if f.combo == PrivilegedPodCreation then 7.5 else 9.5) * Multiplier(ctx))
  }

  lemma ReportIsScored(c: Combo, ctx: Context, subject: Subject, naming: seq<Binding>)
    ensures IsScored(Report(c, ctx, subject, naming), ctx)
  {
    hide Multiplier, Round2, Refs;
  }

  lemma {:induction false} SubjectScores(ctx: Context, subject: Subject, naming: seq<Binding>, combos: seq<Combo>,
                                         holding: set<Combo>, f: ComboFinding)
    requires f in FindingsForSubject(ctx, subject, naming, combos, holding)
    ensures IsScored(f, ctx)
  {
    hide IsScored, Report;
    if f in FindingsForSubject(ctx, subject, naming, Init(combos), holding) {
      SubjectScores(ctx, subject, naming, Init(combos), holding, f);
    } else {
      ReportIsScored(Last(combos), ctx, subject, naming);
    }
  }

  lemma {:induction false} KeyScores(g: Graph, ctx: Context, keys: seq<SubjectKey>, f: ComboFinding)
    requires f in FindingsForKeys(g, ctx, keys)
    ensures IsScored(f, ctx)
  {
    hide IsScored, FindingsForSubject, HoldingCombos, AllBindings, BindingsNaming, RepresentativeSubject;
    if f in FindingsForKey(g, ctx, Last(keys)) {
      SubjectScores(ctx, RepresentativeSubject(g, Last(keys)).value, BindingsNaming(AllBindings(g), Last(keys)), COMBOS,
                    HoldingCombos(g, Last(keys)), f);
    } else {
      KeyScores(g, ctx, Init(keys), f);
    }
  }

  lemma ExpectedScores(g: Graph, ctx: Context, f: ComboFinding)
    requires f in ExpectedFindings(g, ctx)
    ensures IsScored(f, ctx)
  {
    hide IsScored, FindingsForKeys, AllBindings, AllSubjects, Distinct, KeysOf;
    KeyScores(g, ctx, Distinct(KeysOf(AllSubjects(AllBindings(g)))), f);
  }

  function Place(c: Combo): nat {
    match c
    case RoleEscalation => 0
    case BindEscalation => 1
    case ImpersonationGrant => 2
    case PrivilegedPodCreation => 3
  }

  /** Before sorting, the combinations of a subject are looked for in this order. */
  lemma SubjectInOrder(ctx: Context, subject: Subject, naming: seq<Binding>, holding: set<Combo>, i: nat, j: nat)
    requires i < j < |FindingsForSubject(ctx, subject, naming, COMBOS, holding)|
    ensures var fs := FindingsForSubject(ctx, subject, naming, COMBOS, holding);
            Place(fs[i].combo) < Place(fs[j].combo)
  {
    assert forall a, b :: 0 <= a < b < |COMBOS| ==> Place(COMBOS[a]) < Place(COMBOS[b]);
    CombosInOrder(ctx, subject, naming, COMBOS, holding, i, j);
  }

  lemma {:induction false} CombosInOrder(ctx: Context, subject: Subject, naming: seq<Binding>, combos: seq<Combo>,
                                         holding: set<Combo>, i: nat, j: nat)
    requires forall a, b :: 0 <= a < b < |combos| ==> Place(combos[a]) < Place(combos[b])
    requires i < j < |FindingsForSubject(ctx, subject, naming, combos, holding)|
    ensures var fs := FindingsForSubject(ctx, subject, naming, combos, holding);
            Place(fs[i].combo) < Place(fs[j].combo)
  {
    hide ContextualScore, Refs, Place;
    var front := FindingsForSubject(ctx, subject, naming, Init(combos), holding);
    if j < |front| {
      CombosInOrder(ctx, subject, naming, Init(combos), holding, i, j);
    } else {
      var a := ComboAt(ctx, subject, naming, Init(combos), holding, i);
      assert combos[a] == Init(combos)[a];
    }
  }

  lemma {:induction false} ComboAt(ctx: Context, subject: Subject, naming: seq<Binding>, combos: seq<Combo>,
                                   holding: set<Combo>, i: nat) returns (a: nat)
    requires i < |FindingsForSubject(ctx, subject, naming, combos, holding)|
    ensures a < |combos| && FindingsForSubject(ctx, subject, naming, combos, holding)[i].combo == combos[a]
  {
    hide ContextualScore, Refs;
    if i < |FindingsForSubject(ctx, subject, naming, Init(combos), holding)| {
      a := ComboAt(ctx, subject, naming, Init(combos), holding, i);
    } else {
      a := |combos| - 1;
    }
  }

  // ---------------------------------------------------------------------
  // Wider rules
  // ---------------------------------------------------------------------

  /** The wider rule has all that the rule has; unspecified groups stay unspecified. */
  predicate Widens(r: Rule, wider: Rule) {
    && (forall v :: v in r.verbs ==> v in wider.verbs)
    && (forall x :: x in r.resources ==> x in wider.resources)
    && (if r.apiGroups == [] then wider.apiGroups == [] else forall a :: a in r.apiGroups ==> a in wider.apiGroups)
  }

  /** A wildcard in place of nothing: put into a rule's verbs, its resources, or its groups if it has any. */
  function WithAnyVerb(r: Rule): Rule {
    r.(verbs := r.verbs + [AnyVerb])
  }

  function WithAnyResource(r: Rule): Rule {
    r.(resources := r.resources + [AnyResource])
  }

  function WithAnyGroup(r: Rule): Rule {
    if r.apiGroups == [] then r else r.(apiGroups := r.apiGroups + [AnyGroup])
  }

  lemma WildcardsWiden(r: Rule)
    ensures Widens(r, WithAnyVerb(r)) && Widens(r, WithAnyResource(r)) && Widens(r, WithAnyGroup(r))
  {
  }

  lemma ChecksAreMonotone()
    ensures forall r, w :: Widens(r, w) && MayCreateRoles(r) ==> MayCreateRoles(w)
    ensures forall r, w :: Widens(r, w) && MayEscalate(r) ==> MayEscalate(w)
    ensures forall r, w :: Widens(r, w) && MayCreateBindings(r) ==> MayCreateBindings(w)
    ensures forall r, w :: Widens(r, w) && MayBind(r) ==> MayBind(w)
    ensures forall r, w :: Widens(r, w) && MayImpersonate(r) ==> MayImpersonate(w)
    ensures forall r, w :: Widens(r, w) && MayCreatePods(r) ==> MayCreatePods(w)
    ensures forall r, w :: Widens(r, w) && IsPowerful(r) ==> IsPowerful(w)
  {
  }

  /** Each binding stays, and for each rule it gives it still gives that one or a wider one. */
  ghost predicate GraphWidens(g: Graph, h: Graph) {
    forall b, r :: IsBinding(g, b) && GivesRule(g, b, r) ==> IsBinding(h, b) && GivesWider(h, b, r)
  }

  ghost predicate GivesWider(h: Graph, b: Binding, r: Rule) {
    exists w :: GivesRule(h, b, w) && Widens(r, w)
  }

  lemma ReachesMore(g: Graph, h: Graph, key: SubjectKey, p: Rule -> bool)
    requires GraphWidens(g, h) && Reaches(g, key, p) && forall r, w :: Widens(r, w) && p(r) ==> p(w)
    ensures Reaches(h, key, p)
  {
    hide IsBinding, GivesRule, NamedIn, Widens;
    var b, r :| IsBinding(g, b) && NamedIn(b, key) && GivesRule(g, b, r) && p(r);
    assert GivesWider(h, b, r);
    var w :| GivesRule(h, b, w) && Widens(r, w);
    assert IsBinding(h, b) && NamedIn(b, key) && p(w);
  }

  lemma HousesMore(g: Graph, h: Graph, namespace: string)
    requires GraphWidens(g, h) && HousesPower(g, namespace)
    ensures HousesPower(h, namespace)
  {
    hide IsBinding, GivesRule, Widens, IsPowerful;
    ChecksAreMonotone();
    var b, s, r :| IsBinding(g, b) && s in b.subjects && GivesRule(g, b, r) && IsPowerful(r)
                && s.kind == ServiceAccount && s.namespace == Some(namespace) && s.name != Some("default");
    assert GivesWider(h, b, r);
    var w :| GivesRule(h, b, w) && Widens(r, w);
    assert IsBinding(h, b) && IsPowerful(w);
  }

  lemma HoldsMore(g: Graph, h: Graph, key: SubjectKey, c: Combo)
    requires GraphWidens(g, h) && Holds(g, key, c)
    ensures Holds(h, key, c)
  {
    hide Reaches, HousesPower, GraphWidens, Widens, MayCreateRoles, MayEscalate, MayCreateBindings, MayBind,
      MayImpersonate, MayCreatePods, IsPowerful;
    ChecksAreMonotone();
    match c
    case RoleEscalation =>
      ReachesMore(g, h, key, MayCreateRoles);
      ReachesMore(g, h, key, MayEscalate);
    case BindEscalation =>
      ReachesMore(g, h, key, MayCreateBindings);
      ReachesMore(g, h, key, MayBind);
    case ImpersonationGrant =>
      ReachesMore(g, h, key, MayImpersonate);
    case PrivilegedPodCreation =>
      ReachesMore(g, h, key, MayCreatePods);
      HousesMore(g, h, key.namespace.value);
  }

  /** Widening rules never removes a reported pair. */
  lemma WiderRulesKeepReports(g: Graph, h: Graph, ctx: Context, before: seq<ComboFinding>, after: seq<ComboFinding>,
                              key: SubjectKey, c: Combo)
    requires GraphWidens(g, h)
    requires IsStableSort(ExpectedFindings(g, ctx), before, ComboScore)
    requires IsStableSort(ExpectedFindings(h, ctx), after, ComboScore)
    ensures IsReported(before, key, c) ==> IsReported(after, key, c)
  {
    hide GraphWidens, Holds, IsReported, IsStableSort, ExpectedFindings;
    ReportedByFields(g, ctx, before, key, c);
    ReportedByFields(h, ctx, after, key, c);
    if Holds(g, key, c) {
      HoldsMore(g, h, key, c);
    }
  }

  function ReplaceRule(roles: seq<Role>, i: nat, k: nat, w: Rule): seq<Role>
    requires i < |roles| && k < |roles[i].rules|
  {
    roles[i := roles[i].(rules := roles[i].rules[k := w])]
  }

  lemma ReplacedRuleWidens(roles: seq<Role>, i: nat, k: nat, w: Rule, kind: RoleKind, key: RoleKey, r: Rule)
    requires i < |roles| && k < |roles[i].rules| && Widens(roles[i].rules[k], w)
    requires LastWithKey(roles, kind, key, true).Some? && r in LastWithKey(roles, kind, key, true).value.rules
    ensures LastWithKey(ReplaceRule(roles, i, k, w), kind, key, true).Some?
    ensures exists x :: x in LastWithKey(ReplaceRule(roles, i, k, w), kind, key, true).value.rules && Widens(r, x)
  {
    hide LastWithKey;
    var rules := roles[i].rules[k := w];
    LastWithKeyReplaced(roles, i, roles[i].(rules := rules), kind, key);
    assert Widens(r, r);
    if r in roles[i].rules {
      var m :| 0 <= m < |roles[i].rules| && roles[i].rules[m] == r;
      assert rules[m] in rules && Widens(r, rules[m]);
    }
  }

  /** One rule of one role or cluster role made wider, by a wildcard say, widens the graph. */
  lemma WiderRuleWidens(g: Graph, h: Graph, i: nat, k: nat, w: Rule, inClusterRole: bool)
    requires var roles := if inClusterRole then g.clusterRoles else g.roles;
             && i < |roles| && k < |roles[i].rules| && Widens(roles[i].rules[k], w)
             && h == if inClusterRole then g.(clusterRoles := ReplaceRule(roles, i, k, w))
                     else g.(roles := ReplaceRule(roles, i, k, w))
    ensures GraphWidens(g, h)
  {
    hide LastWithKey, GivesRule, Widens, ReplaceRule, RefersTo;
    forall b, r | IsBinding(g, b) && GivesRule(g, b, r) ensures IsBinding(h, b) && GivesWider(h, b, r) {
      var key := KeyOfRef(b);
      KindOfKey(g.roles, NamespacedRole, key, true);
      KindOfKey(h.roles, NamespacedRole, key, true);
      KindOfKey(g.clusterRoles, ClusterRole, key, true);
      KindOfKey(h.clusterRoles, ClusterRole, key, true);
      RulesByFields(g, b, r);
      if inClusterRole && key.kind == ClusterRole {
        ReplacedRuleWidens(g.clusterRoles, i, k, w, ClusterRole, key, r);
        var x :| x in LastWithKey(h.clusterRoles, ClusterRole, key, true).value.rules && Widens(r, x);
        RulesByFields(h, b, x);
      } else if !inClusterRole && key.kind == NamespacedRole {
        ReplacedRuleWidens(g.roles, i, k, w, NamespacedRole, key, r);
        var x :| x in LastWithKey(h.roles, NamespacedRole, key, true).value.rules && Widens(r, x);
        RulesByFields(h, b, x);
      } else {
        RulesByFields(h, b, r);
        WidensItself(r);
      }
    }
  }

  lemma WidensItself(r: Rule)
    ensures Widens(r, r)
  {
  }
}
