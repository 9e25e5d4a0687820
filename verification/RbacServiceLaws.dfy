/** What the per-role engine reports, said without its checks' order, and what that does not depend on. */
module RbacServiceLaws {
  import opened Sequences
  import opened RbacGraph
  import opened Scoring
  import opened RbacService

  // ---------------------------------------------------------------------
  // Risks of a role
  // ---------------------------------------------------------------------

  ghost predicate HasType(risks: seq<Risk>, t: RuleType) {
    exists k :: k in risks && k.ruleType == t
  }

  predicate IsRoleRuleType(t: RuleType) {
    !t.ClusterAdminBinding? && !t.SegmentationViolation? && !t.TokenAutomount?
  }

  /** The place of a risk in the engine's order. */
  function Rank(t: RuleType): nat {
    match t
    case WildcardPermissions => 0
    case BroadSecretsAccess => 1
    case ExecAttachGrant => 2
    case PrivilegeEscalationVerbs => 3
    case TokenCreation => 4
    case WorkloadCreation => 5
    case IneffectiveClusterScopeGrant => 6
    case NodeProxyAccess => 7
    case CsrApproval => 8
    case WebhookConfigAccess => 9
    case PvCreation => 10
    case ClusterAdminBinding => 11
    case SegmentationViolation => 12
    case TokenAutomount => 13
  }

  ghost predicate Ordered(risks: seq<Risk>) {
    forall i, j :: 0 <= i < j < |risks| ==> Rank(risks[i].ruleType) < Rank(risks[j].ruleType)
  }

  /** risks holds, in order, the risks among the first n types that the rules carry, and nothing else. */
  ghost predicate Covers(risks: seq<Risk>, n: nat, rules: seq<Rule>, isClusterScoped: bool) {
    && Ordered(risks)
    && (forall k :: k in risks <==> Rank(k.ruleType) < n && k in Flagged(k.ruleType, rules, isClusterScoped))
  }

  lemma RankIsInjective(t: RuleType, u: RuleType)
    requires Rank(t) == Rank(u)
    ensures t == u
  {
  }

  lemma FlaggedHasType(t: RuleType, rules: seq<Rule>, isClusterScoped: bool)
    ensures var f := Flagged(t, rules, isClusterScoped); |f| <= 1 && forall k :: k in f ==> k.ruleType == t
  {
    hide RoleRiskHolds;
  }

  lemma CoversNext(risks: seq<Risk>, t: RuleType, rules: seq<Rule>, isClusterScoped: bool)
    requires Covers(risks, Rank(t), rules, isClusterScoped)
    ensures Covers(risks + Flagged(t, rules, isClusterScoped), Rank(t) + 1, rules, isClusterScoped)
  {
    hide Flagged, Rank;
    var next := Flagged(t, rules, isClusterScoped);
    FlaggedHasType(t, rules, isClusterScoped);
    assert forall i :: 0 <= i < |risks| ==> risks[i] in risks;
    assert forall i :: 0 <= i < |next| ==> next[i] in next;
    forall k ensures k in risks + next <==>
                     Rank(k.ruleType) < Rank(t) + 1 && k in Flagged(k.ruleType, rules, isClusterScoped) {
      if Rank(k.ruleType) == Rank(t) {
        RankIsInjective(k.ruleType, t);
      }
    }
  }

  lemma {:induction false} ScopeFreeCovered(rules: seq<Rule>, isClusterScoped: bool)
    ensures Covers(ScopeFreeRisks(rules, isClusterScoped), 6, rules, isClusterScoped)
  {
    hide Flagged;
    ReadAndExecCovered(rules, isClusterScoped);
    var r0 := ReadAndExecRisks(rules, isClusterScoped);
    CoversNext(r0, PrivilegeEscalationVerbs, rules, isClusterScoped);
    var r1 := r0 + Flagged(PrivilegeEscalationVerbs, rules, isClusterScoped);
    CoversNext(r1, TokenCreation, rules, isClusterScoped);
    CoversNext(r1 + Flagged(TokenCreation, rules, isClusterScoped), WorkloadCreation, rules, isClusterScoped);
  }

  lemma ReadAndExecCovered(rules: seq<Rule>, isClusterScoped: bool)
    ensures Covers(ReadAndExecRisks(rules, isClusterScoped), 3, rules, isClusterScoped)
  {
    hide Flagged;
    var r1 := Flagged(WildcardPermissions, rules, isClusterScoped);
    assert [] + r1 == r1;
    CoversNext([], WildcardPermissions, rules, isClusterScoped);
    CoversNext(r1, BroadSecretsAccess, rules, isClusterScoped);
    CoversNext(r1 + Flagged(BroadSecretsAccess, rules, isClusterScoped), ExecAttachGrant, rules, isClusterScoped);
  }

  lemma {:induction false} RoleRisksCovered(rules: seq<Rule>, isClusterScoped: bool)
    ensures Covers(RoleRisks(rules, isClusterScoped), 11, rules, isClusterScoped)
  {
    hide Flagged;
    ScopeFreeCovered(rules, isClusterScoped);
    var r0 := ScopeFreeRisks(rules, isClusterScoped);
    CoversNext(r0, IneffectiveClusterScopeGrant, rules, isClusterScoped);
    var r1 := r0 + Flagged(IneffectiveClusterScopeGrant, rules, isClusterScoped);
    CoversNext(r1, NodeProxyAccess, rules, isClusterScoped);
    var r2 := r1 + Flagged(NodeProxyAccess, rules, isClusterScoped);
    CoversNext(r2, CsrApproval, rules, isClusterScoped);
    var r3 := r2 + Flagged(CsrApproval, rules, isClusterScoped);
    CoversNext(r3, WebhookConfigAccess, rules, isClusterScoped);
    CoversNext(r3 + Flagged(WebhookConfigAccess, rules, isClusterScoped), PvCreation, rules, isClusterScoped);
  }

  /** The risks of a role are exactly those its rules carry, each once, in order, with its severity. */
  lemma {:induction false} RoleRisksAreExact(rules: seq<Rule>, isClusterScoped: bool)
    ensures Ordered(RoleRisks(rules, isClusterScoped))
    ensures forall k :: k in RoleRisks(rules, isClusterScoped) <==>
      && IsRoleRuleType(k.ruleType)
      && RoleRiskHolds(k.ruleType, rules, isClusterScoped)
      && k.severity == SeverityOf(k.ruleType, isClusterScoped)
  {
    hide RoleRisks, RoleRiskHolds;
    RoleRisksCovered(rules, isClusterScoped);
  }

  lemma {:induction false} RoleRiskTypes(rules: seq<Rule>, isClusterScoped: bool, t: RuleType)
    ensures HasType(RoleRisks(rules, isClusterScoped), t) <==>
            IsRoleRuleType(t) && RoleRiskHolds(t, rules, isClusterScoped)
  {
    hide RoleRisks, RoleRiskHolds;
    RoleRisksAreExact(rules, isClusterScoped);
    var k := Risk(t, SeverityOf(t, isClusterScoped));
    assert k in RoleRisks(rules, isClusterScoped) <==>
      IsRoleRuleType(t) && RoleRiskHolds(t, rules, isClusterScoped);
  }

  /** Two roles in one have the risks of either and no others. */
  lemma {:induction false} RiskTypesOfUnion(a: seq<Rule>, b: seq<Rule>, isClusterScoped: bool, t: RuleType)
    ensures HasType(RoleRisks(a + b, isClusterScoped), t) <==>
            HasType(RoleRisks(a, isClusterScoped), t) || HasType(RoleRisks(b, isClusterScoped), t)
  {
    hide RoleRisks, CheckOf;
    RoleRiskTypes(a + b, isClusterScoped, t);
    RoleRiskTypes(a, isClusterScoped, t);
    RoleRiskTypes(b, isClusterScoped, t);
    assert forall r :: r in a + b <==> r in a || r in b;
  }

  /** The order and repetition of rules never matter. */
  lemma RuleOrderIsIrrelevant(a: seq<Rule>, b: seq<Rule>, isClusterScoped: bool)
    requires forall r :: r in a <==> r in b
    ensures RoleRisks(a, isClusterScoped) == RoleRisks(b, isClusterScoped)
  {
    hide Flagged;
    forall t ensures Flagged(t, a, isClusterScoped) == Flagged(t, b, isClusterScoped) {
      SameRulesSameFlag(t, a, b, isClusterScoped);
    }
  }

  lemma SameRulesSameFlag(t: RuleType, a: seq<Rule>, b: seq<Rule>, isClusterScoped: bool)
    requires forall r :: r in a <==> r in b
    ensures Flagged(t, a, isClusterScoped) == Flagged(t, b, isClusterScoped)
  {
    hide CheckOf;
    assert AnyRule(a, CheckOf(t)) <==> AnyRule(b, CheckOf(t));
  }

  // ---------------------------------------------------------------------
  // Risks of a binding, and the report
  // ---------------------------------------------------------------------

  /** A binding with a known role that is not suppressed carries this risk. */
  ghost predicate RiskHolds(g: Graph, b: Binding, t: RuleType) {
    exists role :: FindRole(g, KeyOfRef(b), false) == Some(role) && !Suppressed(b)
      && match t
         case ClusterAdminBinding => NamesBroadIdentity(b.subjects) && IsClusterAdminEquivalent(b.roleRef.name, role.rules)
         case SegmentationViolation => IsSegmentationViolation(b)
         case TokenAutomount => false
         case _ => RoleRiskHolds(t, role.rules, b.roleRef.kind == ClusterRole)
  }

  function RiskOf(b: Binding, t: RuleType): Risk {
    Risk(t, SeverityOf(t, b.roleRef.kind == ClusterRole))
  }

  lemma {:induction false} BindingRisksAreExact(b: Binding, rules: seq<Rule>)
    ensures Ordered(BindingRisks(b, rules))
    ensures forall k :: k in BindingRisks(b, rules) <==>
      || k in RoleRisks(rules, b.roleRef.kind == ClusterRole)
      || (k == Risk(ClusterAdminBinding, CRITICAL)
          && NamesBroadIdentity(b.subjects) && IsClusterAdminEquivalent(b.roleRef.name, rules))
      || (k == Risk(SegmentationViolation, HIGH) && IsSegmentationViolation(b))
  {
    hide RoleRisks, RoleRiskHolds, NamesBroadIdentity, IsClusterAdminEquivalent, IsSegmentationViolation;
    RoleRisksAreExact(rules, b.roleRef.kind == ClusterRole);
    var role := RoleRisks(rules, b.roleRef.kind == ClusterRole);
    assert forall i :: 0 <= i < |role| ==> role[i] in role;
  }

  lemma {:induction false} RisksOfBinding(g: Graph, b: Binding)
    ensures Ordered(RisksOf(g, b))
    ensures forall k :: k in RisksOf(g, b) <==> RiskHolds(g, b, k.ruleType) && k == RiskOf(b, k.ruleType)
  {
    hide RoleRisks, RoleRiskHolds, NamesBroadIdentity, IsClusterAdminEquivalent, IsSegmentationViolation,
      FindRole, Suppressed, BindingRisks;
    if FindRole(g, KeyOfRef(b), false).Some? && !Suppressed(b) {
      var rules := FindRole(g, KeyOfRef(b), false).value.rules;
      BindingRisksAreExact(b, rules);
      RoleRisksAreExact(rules, b.roleRef.kind == ClusterRole);
    }
  }

  /** The binding b calls for the finding f. */
  ghost predicate CallsFor(g: Graph, b: Binding, f: Finding, ctx: Context) {
    RiskHolds(g, b, f.ruleType) && f == BindingFinding(b, RiskOf(b, f.ruleType), ctx)
  }

  /** How many of these bindings call for f. */
  ghost function Tally(g: Graph, bindings: seq<Binding>, f: Finding, ctx: Context): nat {
    if bindings == [] then 0
    else Tally(g, Init(bindings), f, ctx) + if CallsFor(g, Last(bindings), f, ctx) then 1 else 0
  }

  lemma {:induction false} FindingOfEachRisk(b: Binding, risks: seq<Risk>, f: Finding, ctx: Context)
    requires Ordered(risks)
    ensures multiset(BindingFindings(b, risks, ctx))[f] ==
            if Risk(f.ruleType, f.severity) in risks && f == BindingFinding(b, Risk(f.ruleType, f.severity), ctx)
            then 1 else 0
  {
    hide BindingFinding;
    if risks != [] {
      FindingShowsRisk(b, Last(risks), ctx);
      FindingOfEachRisk(b, Init(risks), f, ctx);
      assert forall k :: k in Init(risks) ==> k != Last(risks);
      assert forall k :: k in risks <==> k in Init(risks) || k == Last(risks);
    }
  }

  lemma FindingShowsRisk(b: Binding, k: Risk, ctx: Context)
    ensures BindingFinding(b, k, ctx).ruleType == k.ruleType && BindingFinding(b, k, ctx).severity == k.severity
    ensures BindingFinding(b, k, ctx).binding == Some(RefOf(b))
  {
    hide ContextualScore;
  }

  lemma {:induction false} CountOfBinding(g: Graph, b: Binding, f: Finding, ctx: Context)
    ensures multiset(BindingFindings(b, RisksOf(g, b), ctx))[f] == if CallsFor(g, b, f, ctx) then 1 else 0
  {
    hide BindingFinding, RisksOf, RiskHolds;
    RisksOfBinding(g, b);
    FindingOfEachRisk(b, RisksOf(g, b), f, ctx);
    FindingShowsRisk(b, RiskOf(b, f.ruleType), ctx);
  }

  lemma {:induction false} CountOfBindings(g: Graph, bindings: seq<Binding>, f: Finding, ctx: Context)
    ensures multiset(FindingsOfBindings(g, bindings, ctx))[f] == Tally(g, bindings, f, ctx)
  {
    hide BindingFindings, RisksOf, CallsFor;
    if bindings != [] {
      CountOfBindings(g, Init(bindings), f, ctx);
      CountOfBinding(g, Last(bindings), f, ctx);
    }
  }

  lemma {:induction false} AutomountHasNoBinding(risks: seq<AutomountRisk>, ctx: Context)
    ensures forall f :: f in AutomountFindings(risks, ctx) ==> f.binding == None && f.ruleType == TokenAutomount
  {
    hide ContextualScore;
    if risks != [] {
      AutomountHasNoBinding(Init(risks), ctx);
    }
  }

  lemma {:induction false} AutomountMembers(risks: seq<AutomountRisk>, ctx: Context, f: Finding)
    ensures f in AutomountFindings(risks, ctx) <==> exists k :: k in risks && f == AutomountFinding(k, ctx)
  {
    hide AutomountFinding;
    if risks != [] {
      AutomountMembers(Init(risks), ctx, f);
      assert forall k :: k in risks <==> k in Init(risks) || k == Last(risks);
    }
  }

  lemma {:induction false} FindingsHaveABinding(b: Binding, risks: seq<Risk>, ctx: Context)
    ensures forall f :: f in BindingFindings(b, risks, ctx) ==> f.binding.Some?
  {
    hide ContextualScore;
    if risks != [] {
      FindingsHaveABinding(b, Init(risks), ctx);
    }
  }

  lemma {:induction false} AllFindingsHaveABinding(g: Graph, bindings: seq<Binding>, ctx: Context)
    ensures forall f :: f in FindingsOfBindings(g, bindings, ctx) ==> f.binding.Some?
  {
    hide BindingFindings, RisksOf;
    if bindings != [] {
      AllFindingsHaveABinding(g, Init(bindings), ctx);
      FindingsHaveABinding(Last(bindings), RisksOf(g, Last(bindings)), ctx);
    }
  }

  /** A finding without a binding is in the report exactly when it is one of the token-automount risks. */
  lemma AutomountReportIsExact(g: Graph, ctx: Context, findings: seq<Finding>, f: Finding)
    requires IsStableSort(ExpectedFindings(g, ctx), findings, FindingScore) && f.binding.None?
    ensures f in findings <==>
            exists k :: (k in AccountRisks(g.accounts) || k in WorkloadRisks(g.accounts, g.workloads))
                     && f == AutomountFinding(k, ctx)
  {
    hide FindingsOfBindings, AutomountFindings, AutomountFinding, AccountRisks, WorkloadRisks, IsStableSort;
    var automount := AccountRisks(g.accounts) + WorkloadRisks(g.accounts, g.workloads);
    StableSortKeepsElements(ExpectedFindings(g, ctx), findings, FindingScore);
    SameMembers(ExpectedFindings(g, ctx), findings);
    AllFindingsHaveABinding(g, AllBindings(g), ctx);
    AutomountMembers(automount, ctx, f);
    assert forall k :: k in automount <==>
      k in AccountRisks(g.accounts) || k in WorkloadRisks(g.accounts, g.workloads);
  }

  /** A binding finding stands in the report once for every binding that calls for it: as many times as the graph says. */
  lemma ReportIsExact(g: Graph, ctx: Context, findings: seq<Finding>, f: Finding)
    requires IsStableSort(ExpectedFindings(g, ctx), findings, FindingScore) && f.binding.Some?
    ensures multiset(findings)[f] == Tally(g, AllBindings(g), f, ctx)
  {
    hide FindingsOfBindings, AutomountFindings, CallsFor, IsStableSort;
    var automount := AccountRisks(g.accounts) + WorkloadRisks(g.accounts, g.workloads);
    StableSortKeepsElements(ExpectedFindings(g, ctx), findings, FindingScore);
    CountOfBindings(g, AllBindings(g), f, ctx);
    AutomountHasNoBinding(automount, ctx);
    assert f !in AutomountFindings(automount, ctx);
    assert multiset(AutomountFindings(automount, ctx))[f] == 0;
  }

  lemma {:induction false} TallyPositive(g: Graph, bindings: seq<Binding>, f: Finding, ctx: Context)
    ensures Tally(g, bindings, f, ctx) > 0 <==> exists b :: b in bindings && CallsFor(g, b, f, ctx)
  {
    hide CallsFor;
    if bindings != [] {
      TallyPositive(g, Init(bindings), f, ctx);
      assert forall b :: b in bindings <==> b in Init(bindings) || b == Last(bindings);
    }
  }

  /** A risk that the graph says a binding carries is in the report, on that binding. */
  lemma RisksAreReported(g: Graph, ctx: Context, findings: seq<Finding>, b: Binding, t: RuleType)
    requires IsStableSort(ExpectedFindings(g, ctx), findings, FindingScore)
    requires b in AllBindings(g) && RiskHolds(g, b, t)
    ensures BindingFinding(b, RiskOf(b, t), ctx) in findings
  {
    hide BindingFinding, RiskHolds, IsStableSort, ExpectedFindings;
    var f := BindingFinding(b, RiskOf(b, t), ctx);
    FindingShowsRisk(b, RiskOf(b, t), ctx);
    assert CallsFor(g, b, f, ctx);
    TallyPositive(g, AllBindings(g), f, ctx);
    ReportIsExact(g, ctx, findings, f);
    assert f in multiset(findings);
  }

  lemma {:induction false} WorkloadRiskMembers(accounts: seq<Account>, workloads: seq<Workload>)
    ensures forall k :: k in WorkloadRisks(accounts, workloads) <==>
      exists w :: w in workloads && Overrides(accounts, w) && k == WorkloadRisk(w)
  {
    hide Overrides, WorkloadRisk;
    if workloads != [] {
      WorkloadRiskMembers(accounts, Init(workloads));
      assert forall w :: w in workloads <==> w in Init(workloads) || w == Last(workloads);
    }
  }

  function OwnRisk(a: Account): AutomountRisk {
    AutomountRisk(if a.name == Some("default") then MEDIUM else LOW, KeyOfAccount(a), None)
  }

  lemma {:induction false} AccountRiskMembers(accounts: seq<Account>)
    ensures forall k :: k in AccountRisks(accounts) <==>
      exists a :: a in accounts && EffectiveAutomount(a.automount) && k == OwnRisk(a)
  {
    if accounts != [] {
      AccountRiskMembers(Init(accounts));
      assert forall a :: a in accounts <==> a in Init(accounts) || a == Last(accounts);
    }
  }
}
