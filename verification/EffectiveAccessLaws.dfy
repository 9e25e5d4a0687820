/** What the combination engine guarantees about every graph, and when a graph grows or is reordered. */
module EffectiveAccessLaws {
  import opened Sequences
  import opened RbacGraph
  import opened Scoring
  import opened EffectiveAccess

  // ---------------------------------------------------------------------
  // Exactly once
  // ---------------------------------------------------------------------

  function PairOf(f: ComboFinding): (SubjectKey, Combo) {
    (KeyOf(f.subject), f.combo)
  }

  ghost predicate Reports(findings: seq<ComboFinding>, key: SubjectKey, c: Combo) {
    exists f :: f in findings && PairOf(f) == (key, c)
  }

  lemma {:induction false} SubjectFindings(ctx: Context, subject: Subject, naming: seq<Binding>,
                                           combos: seq<Combo>, holding: set<Combo>)
    requires NoDuplicates(combos)
    ensures DistinctTags(FindingsForSubject(ctx, subject, naming, combos, holding), PairOf)
    ensures forall f :: f in FindingsForSubject(ctx, subject, naming, combos, holding) ==>
      f.subject == subject && f.combo in combos && f.combo in holding
    ensures forall c :: c in combos && c in holding ==>
      Report(c, ctx, subject, naming) in FindingsForSubject(ctx, subject, naming, combos, holding)
  {
    if combos != [] {
      SubjectFindings(ctx, subject, naming, Init(combos), holding);
      assert Last(combos) !in Init(combos);
      assert forall c :: c in combos <==> c in Init(combos) || c == Last(combos);
    }
  }

  lemma KeyFindings(g: Graph, ctx: Context, key: SubjectKey)
    ensures DistinctTags(FindingsForKey(g, ctx, key), PairOf)
    ensures forall f :: f in FindingsForKey(g, ctx, key) ==> KeyOf(f.subject) == key && ComboHolds(g, key, f.combo)
    ensures forall c :: RepresentativeSubject(g, key).Some? && ComboHolds(g, key, c) ==>
      Reports(FindingsForKey(g, ctx, key), key, c)
  {
    hide FindingsForSubject, AllBindings, AllSubjects, BindingsNaming, ComboHolds, FirstWithKey, DistinctTags, Report;
    FirstWithKeyFound(AllSubjects(AllBindings(g)), key);
    if RepresentativeSubject(g, key).Some? {
      var subject, naming := RepresentativeSubject(g, key).value, BindingsNaming(AllBindings(g), key);
      SubjectFindings(ctx, subject, naming, COMBOS, HoldingCombos(g, key));
      forall c | ComboHolds(g, key, c) ensures Reports(FindingsForKey(g, ctx, key), key, c) {
        EveryCombo(c);
        ReportNames(ctx, subject, naming, c);
        assert Report(c, ctx, subject, naming) in FindingsForKey(g, ctx, key);
      }
    } else {
      NoTags();
    }
  }

  lemma NoTags()
    ensures DistinctTags<ComboFinding, (SubjectKey, Combo)>([], PairOf)
  {
  }

  lemma ReportNames(ctx: Context, subject: Subject, naming: seq<Binding>, c: Combo)
    ensures PairOf(Report(c, ctx, subject, naming)) == (KeyOf(subject), c)
  {
    hide ContextualScore, Refs;
  }

  lemma {:induction false} AllKeyFindings(g: Graph, ctx: Context, keys: seq<SubjectKey>)
    requires NoDuplicates(keys)
    ensures DistinctTags(FindingsForKeys(g, ctx, keys), PairOf)
    ensures forall f :: f in FindingsForKeys(g, ctx, keys) ==>
      KeyOf(f.subject) in keys && ComboHolds(g, KeyOf(f.subject), f.combo)
    ensures forall key, c :: key in keys && RepresentativeSubject(g, key).Some? && ComboHolds(g, key, c) ==>
      Reports(FindingsForKeys(g, ctx, keys), key, c)
  {
    if keys != [] {
      var front, last := FindingsForKeys(g, ctx, Init(keys)), FindingsForKey(g, ctx, Last(keys));
      AllKeyFindings(g, ctx, Init(keys));
      KeyFindings(g, ctx, Last(keys));
      assert Last(keys) !in Init(keys);
      forall key, c | key in keys && RepresentativeSubject(g, key).Some? && ComboHolds(g, key, c)
        ensures Reports(front + last, key, c)
      {
        if key in Init(keys) {
          assert Reports(front, key, c);
        } else {
          assert Reports(last, key, c);
        }
      }
    }
  }

  /** Who holds a combination is named by some binding. */
  lemma {:induction false} HoldersAreMentioned(g: Graph, key: SubjectKey, c: Combo)
    requires ComboHolds(g, key, c)
    ensures RepresentativeSubject(g, key).Some?
  {
    assert exists b :: b in AllBindings(g) && Names(b, key);
    var b :| b in AllBindings(g) && Names(b, key);
    NamingMembers(AllBindings(g), key);
    FirstMentionIsInFirstBinding(AllBindings(g), key);
    assert b in BindingsNaming(AllBindings(g), key);
  }

  /** Each (subject, combination) pair is reported once when the naive scan finds it, and never otherwise. */
  lemma ReportedExactlyOnce(g: Graph, ctx: Context, findings: seq<ComboFinding>)
    requires IsStableSort(ExpectedFindings(g, ctx), findings, ComboScore)
    ensures DistinctTags(findings, PairOf)
    ensures forall key, c :: Reports(findings, key, c) <==> ComboHolds(g, key, c)
  {
    var keys := Distinct(KeysOf(AllSubjects(AllBindings(g))));
    var expected := ExpectedFindings(g, ctx);
    DistinctElements(KeysOf(AllSubjects(AllBindings(g))));
    AllKeyFindings(g, ctx, keys);
    StableSortKeepsElements(expected, findings, ComboScore);
    PermutationKeepsDistinctTags(expected, findings, PairOf);
    SameMembers(expected, findings);
    forall key, c ensures Reports(findings, key, c) <==> ComboHolds(g, key, c) {
      if ComboHolds(g, key, c) {
        HoldersAreMentioned(g, key, c);
        KeysOfMembers(AllSubjects(AllBindings(g)), key);
        assert Reports(expected, key, c);
      }
    }
  }

  /** A finding shows the first mention of its subject, under its key, and every binding naming it. */
  lemma RepresentativeHasTheKey(g: Graph, ctx: Context, findings: seq<ComboFinding>, f: ComboFinding)
    requires IsStableSort(ExpectedFindings(g, ctx), findings, ComboScore) && f in findings
    ensures RepresentativeSubject(g, KeyOf(f.subject)) == Some(f.subject)
    ensures f.bindings == Refs(BindingsNaming(AllBindings(g), KeyOf(f.subject)))
    ensures exists b :: b in AllBindings(g) && f.subject in b.subjects
  {
    hide IsStableSort, ExpectedFindings, Refs, BindingsNaming, AllBindings, AllSubjects, FirstWithKey;
    StableSortKeepsElements(ExpectedFindings(g, ctx), findings, ComboScore);
    SameMembers(ExpectedFindings(g, ctx), findings);
    assert f in ExpectedFindings(g, ctx);
    ExpectedShowsSubject(g, ctx, f);
  }

  lemma ExpectedShowsSubject(g: Graph, ctx: Context, f: ComboFinding)
    requires f in ExpectedFindings(g, ctx)
    ensures RepresentativeSubject(g, KeyOf(f.subject)) == Some(f.subject)
    ensures f.bindings == Refs(BindingsNaming(AllBindings(g), KeyOf(f.subject)))
    ensures exists b :: b in AllBindings(g) && f.subject in b.subjects
  {
    hide RepresentativeSubject, FindingsForKeys, Refs, BindingsNaming, AllBindings, AllSubjects;
    ShowsSubject(g, ctx, Distinct(KeysOf(AllSubjects(AllBindings(g)))), f);
    MentionedSomewhere(g, f.subject);
  }

  lemma MentionedSomewhere(g: Graph, s: Subject)
    requires RepresentativeSubject(g, KeyOf(s)) == Some(s)
    ensures exists b :: b in AllBindings(g) && s in b.subjects
  {
    hide BindingsNaming, AllSubjects, AllBindings, Names;
    var key, bindings := KeyOf(s), AllBindings(g);
    FirstMentionIsInFirstBinding(bindings, key);
    var first := BindingsNaming(bindings, key)[0];
    FirstWithKeyFound(first.subjects, key);
    NamingMembers(bindings, key);
    assert first in BindingsNaming(bindings, key);
  }

  lemma {:induction false} ReportShows(ctx: Context, subject: Subject, naming: seq<Binding>, combos: seq<Combo>,
                                       holding: set<Combo>, f: ComboFinding)
    requires f in FindingsForSubject(ctx, subject, naming, combos, holding)
    ensures f.subject == subject && f.bindings == Refs(naming)
  {
    hide Refs, ContextualScore;
    if f !in FindingsForSubject(ctx, subject, naming, Init(combos), holding) {
      assert f == Report(Last(combos), ctx, subject, naming);
    } else {
      ReportShows(ctx, subject, naming, Init(combos), holding, f);
    }
  }

  lemma {:induction false} ShowsSubject(g: Graph, ctx: Context, keys: seq<SubjectKey>, f: ComboFinding)
    requires f in FindingsForKeys(g, ctx, keys)
    ensures RepresentativeSubject(g, KeyOf(f.subject)) == Some(f.subject)
    ensures f.bindings == Refs(BindingsNaming(AllBindings(g), KeyOf(f.subject)))
  {
    hide Refs, BindingsNaming, FindingsForSubject, HoldingCombos, AllBindings, AllSubjects;
    if f in FindingsForKey(g, ctx, Last(keys)) {
      var key := Last(keys);
      ReportShows(ctx, RepresentativeSubject(g, key).value, BindingsNaming(AllBindings(g), key), COMBOS,
                  HoldingCombos(g, key), f);
      FirstWithKeyFound(AllSubjects(AllBindings(g)), key);
    } else {
      ShowsSubject(g, ctx, Init(keys), f);
    }
  }

  // ---------------------------------------------------------------------
  // Growth
  // ---------------------------------------------------------------------

  /** h has every binding of g, and each of them still reaches all its rules. */
  ghost predicate Extends(g: Graph, h: Graph) {
    forall b :: b in AllBindings(g) ==>
      b in AllBindings(h) && forall r :: r in RulesOf(g, b, true) ==> r in RulesOf(h, b, true)
  }

  lemma GrantsMonotone(g: Graph, h: Graph, key: SubjectKey, p: Rule -> bool)
    requires Extends(g, h) && Grants(g, key, p)
    ensures Grants(h, key, p)
  {
    var b, r :| b in AllBindings(g) && Names(b, key) && r in RulesOf(g, b, true) && p(r);
    assert b in AllBindings(h) && r in RulesOf(h, b, true);
  }

  lemma HostsMonotone(g: Graph, h: Graph, namespace: string)
    requires Extends(g, h) && HostsPrivilegedAccount(g, namespace)
    ensures HostsPrivilegedAccount(h, namespace)
  {
    var b, s :| b in AllBindings(g) && s in b.subjects && IsNonDefaultAccountIn(s, namespace)
             && AnyRule(RulesOf(g, b, true), PrivilegedRule);
    var r :| r in RulesOf(g, b, true) && PrivilegedRule(r);
    assert b in AllBindings(h) && r in RulesOf(h, b, true);
    assert AnyRule(RulesOf(h, b, true), PrivilegedRule);
  }

  /** A graph that grows never loses a (subject, combination) pair. */
  lemma ComboMonotone(g: Graph, h: Graph, key: SubjectKey, c: Combo)
    requires Extends(g, h) && ComboHolds(g, key, c)
    ensures ComboHolds(h, key, c)
  {
    match c
    case RoleEscalation =>
      GrantsMonotone(g, h, key, CreatesRoles);
      GrantsMonotone(g, h, key, Escalates);
    case BindEscalation =>
      GrantsMonotone(g, h, key, CreatesBindings);
      GrantsMonotone(g, h, key, Binds);
    case ImpersonationGrant =>
      GrantsMonotone(g, h, key, Impersonates);
    case PrivilegedPodCreation =>
      GrantsMonotone(g, h, key, CreatesPods);
      HostsMonotone(g, h, key.namespace.value);
  }

  lemma {:induction false} TaggedMembers(bindings: seq<Binding>, kind: BindingKind, b: Binding)
    ensures b in Tagged(bindings, kind) <==> exists d :: d in bindings && b == d.(kind := kind)
  {
    if bindings != [] {
      TaggedMembers(Init(bindings), kind, b);
      assert forall d :: d in bindings <==> d in Init(bindings) || d == Last(bindings);
    }
  }

  lemma TaggedSubset(small: seq<Binding>, large: seq<Binding>, kind: BindingKind)
    requires forall d :: d in small ==> d in large
    ensures forall b :: b in Tagged(small, kind) ==> b in Tagged(large, kind)
  {
    forall b | b in Tagged(small, kind) ensures b in Tagged(large, kind) {
      TaggedMembers(small, kind, b);
      TaggedMembers(large, kind, b);
    }
  }

  /** Bindings added anywhere, of either kind, only extend the graph. */
  lemma MoreBindingsExtend(g: Graph, h: Graph)
    requires g.roles == h.roles && g.clusterRoles == h.clusterRoles
    requires forall b :: b in g.roleBindings ==> b in h.roleBindings
    requires forall b :: b in g.clusterRoleBindings ==> b in h.clusterRoleBindings
    ensures Extends(g, h)
  {
    TaggedSubset(g.roleBindings, h.roleBindings, RoleBinding);
    TaggedSubset(g.clusterRoleBindings, h.clusterRoleBindings, ClusterRoleBinding);
    assert forall b :: RulesOf(g, b, true) == RulesOf(h, b, true);
  }

  lemma {:induction false} LastWithKeyConcat(a: seq<Role>, b: seq<Role>, kind: RoleKind, key: RoleKey)
    ensures LastWithKey(a + b, kind, key, true) ==
            if LastWithKey(b, kind, key, true).Some? then LastWithKey(b, kind, key, true)
            else LastWithKey(a, kind, key, true)
  {
    if b == [] {
      assert a + b == a;
    } else {
      InitOfConcat(a, b);
      LastWithKeyConcat(a, Init(b), kind, key);
    }
  }

  /** A list of roles with one more role in it, at any place. */
  lemma LastWithKeyInserted(a: seq<Role>, role: Role, b: seq<Role>, kind: RoleKind, key: RoleKey)
    requires LastWithKey(a + b, kind, KeyOfRole(kind, role), true).None?
    ensures LastWithKey(a + b, kind, key, true).Some? ==>
            LastWithKey(a + [role] + b, kind, key, true) == LastWithKey(a + b, kind, key, true)
    ensures key != KeyOfRole(kind, role) ==>
            LastWithKey(a + [role] + b, kind, key, true) == LastWithKey(a + b, kind, key, true)
  {
    LastWithKeyConcat(a, b, kind, key);
    LastWithKeyConcat(a + [role], b, kind, key);
    InitOfConcat(a, [role]);
  }

  /** A namespaced role under a key that nothing had, put anywhere in the list, only extends the graph. */
  lemma FreshRoleExtends(g: Graph, h: Graph, a: seq<Role>, role: Role, b: seq<Role>)
    requires g.roles == a + b && h == g.(roles := a + [role] + b)
    requires LastWithKey(g.roles, NamespacedRole, KeyOfRole(NamespacedRole, role), true).None?
    ensures Extends(g, h)
  {
    forall x: Binding, r | r in RulesOf(g, x, true) ensures r in RulesOf(h, x, true) {
      LastWithKeyInserted(a, role, b, NamespacedRole, KeyOfRef(x));
    }
  }

  /** The same for a cluster role; a namespaced role never has a cluster role's key. */
  lemma FreshClusterRoleExtends(g: Graph, h: Graph, a: seq<Role>, role: Role, b: seq<Role>)
    requires g.clusterRoles == a + b && h == g.(clusterRoles := a + [role] + b)
    requires LastWithKey(g.clusterRoles, ClusterRole, KeyOfRole(ClusterRole, role), true).None?
    ensures Extends(g, h)
  {
    forall x: Binding, r | r in RulesOf(g, x, true) ensures r in RulesOf(h, x, true) {
      LastWithKeyInserted(a, role, b, ClusterRole, KeyOfRef(x));
      NamespacedKeys(g.roles, KeyOfRef(x));
      ClusterKeys(h.clusterRoles, KeyOfRef(x));
    }
  }

  lemma {:induction false} NamespacedKeys(roles: seq<Role>, key: RoleKey)
    ensures LastWithKey(roles, NamespacedRole, key, true).Some? ==> key.kind == NamespacedRole
  {
    if roles != [] { NamespacedKeys(Init(roles), key); }
  }

  lemma {:induction false} ClusterKeys(roles: seq<Role>, key: RoleKey)
    ensures LastWithKey(roles, ClusterRole, key, true).Some? ==> key.kind == ClusterRole
  {
    if roles != [] { ClusterKeys(Init(roles), key); }
  }

  /** One more rule for a role, or any replacement that keeps its name, place and rules. */
  lemma {:induction false} LastWithKeyReplaced(roles: seq<Role>, i: nat, role: Role, kind: RoleKind, key: RoleKey)
    requires i < |roles| && KeyOfRole(kind, role) == KeyOfRole(kind, roles[i])
    ensures var before, after := LastWithKey(roles, kind, key, true), LastWithKey(roles[i := role], kind, key, true);
            after == before || (before == Some(roles[i]) && after == Some(role))
  {
    if i == |roles| - 1 {
      assert Init(roles[i := role]) == Init(roles);
    } else {
      assert Init(roles[i := role]) == Init(roles)[i := role];
      LastWithKeyReplaced(Init(roles), i, role, kind, key);
    }
  }

  lemma MoreRulesExtend(g: Graph, h: Graph, i: nat, rules: seq<Rule>)
    requires i < |g.roles| && h == g.(roles := g.roles[i := g.roles[i].(rules := rules)])
    requires forall r :: r in g.roles[i].rules ==> r in rules
    ensures Extends(g, h)
  {
    forall x: Binding, r | r in RulesOf(g, x, true) ensures r in RulesOf(h, x, true) {
      LastWithKeyReplaced(g.roles, i, g.roles[i].(rules := rules), NamespacedRole, KeyOfRef(x));
    }
  }

  lemma MoreClusterRulesExtend(g: Graph, h: Graph, i: nat, rules: seq<Rule>)
    requires i < |g.clusterRoles| && h == g.(clusterRoles := g.clusterRoles[i := g.clusterRoles[i].(rules := rules)])
    requires forall r :: r in g.clusterRoles[i].rules ==> r in rules
    ensures Extends(g, h)
  {
    forall x: Binding, r | r in RulesOf(g, x, true) ensures r in RulesOf(h, x, true) {
      LastWithKeyReplaced(g.clusterRoles, i, g.clusterRoles[i].(rules := rules), ClusterRole, KeyOfRef(x));
    }
  }

  // ---------------------------------------------------------------------
  // Order and frame, stated on the reports themselves
  // ---------------------------------------------------------------------

  /** Growth never removes a pair from the report. */
  lemma ReportsGrow(g: Graph, h: Graph, ctx: Context, before: seq<ComboFinding>, after: seq<ComboFinding>)
    requires Extends(g, h)
    requires IsStableSort(ExpectedFindings(g, ctx), before, ComboScore)
    requires IsStableSort(ExpectedFindings(h, ctx), after, ComboScore)
    ensures forall key, c :: Reports(before, key, c) ==> Reports(after, key, c)
  {
    ReportedExactlyOnce(g, ctx, before);
    ReportedExactlyOnce(h, ctx, after);
    forall key, c | Reports(before, key, c) ensures Reports(after, key, c) {
      ComboMonotone(g, h, key, c);
    }
  }

  /** Reordering the bindings leaves the set of reported pairs as it is. */
  lemma BindingOrderIsIrrelevant(g: Graph, h: Graph, ctx: Context,
                                                    before: seq<ComboFinding>, after: seq<ComboFinding>)
    requires g.roles == h.roles && g.clusterRoles == h.clusterRoles
    requires multiset(g.roleBindings) == multiset(h.roleBindings)
    requires multiset(g.clusterRoleBindings) == multiset(h.clusterRoleBindings)
    requires IsStableSort(ExpectedFindings(g, ctx), before, ComboScore)
    requires IsStableSort(ExpectedFindings(h, ctx), after, ComboScore)
    ensures forall key, c :: Reports(before, key, c) <==> Reports(after, key, c)
  {
    SameMembers(g.roleBindings, h.roleBindings);
    SameMembers(g.clusterRoleBindings, h.clusterRoleBindings);
    MoreBindingsExtend(g, h);
    MoreBindingsExtend(h, g);
    ReportsGrow(g, h, ctx, before, after);
    ReportsGrow(h, g, ctx, after, before);
  }

  /** Bindings that do not name a subject change none of its own three combinations; pod creation is not one of them. */
  lemma {:induction false} OtherBindingsAreIrrelevant(g: Graph, h: Graph, key: SubjectKey, c: Combo)
    requires g.roles == h.roles && g.clusterRoles == h.clusterRoles
    requires forall b :: b in AllBindings(g) && Names(b, key) <==> b in AllBindings(h) && Names(b, key)
    requires c != PrivilegedPodCreation
    ensures ComboHolds(g, key, c) <==> ComboHolds(h, key, c)
  {
    assert forall b :: RulesOf(g, b, true) == RulesOf(h, b, true);
    forall p: Rule -> bool ensures Grants(g, key, p) <==> Grants(h, key, p) {
      if b, r :| b in AllBindings(g) && Names(b, key) && r in RulesOf(g, b, true) && p(r) {
        assert b in AllBindings(h) && r in RulesOf(h, b, true);
      }
      if b, r :| b in AllBindings(h) && Names(b, key) && r in RulesOf(h, b, true) && p(r) {
        assert b in AllBindings(g) && r in RulesOf(g, b, true);
      }
    }
  }
}
