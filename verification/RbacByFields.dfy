/**
 * The per-role report said of the graph's own fields: names by prefix, rules by
 * their verbs, resources and groups, without the engine's checks, its
 * suppression helpers or its index.
 */
module RbacByFields {
  import opened Sequences
  import opened RbacGraph
  import opened GraphByFields
  import opened ClusterScope
  import opened Scoring
  import opened RbacService
  import opened RbacServiceLaws

  // ---------------------------------------------------------------------
  // Suppression
  // ---------------------------------------------------------------------

  predicate StartsWith(name: string, prefix: string) {
    |name| >= |prefix| && forall i :: 0 <= i < |prefix| ==> name[i] == prefix[i]
  }

  predicate IsControlPlaneName(name: Option<string>) {
    name.Some? && (StartsWith(name.value, "system:") || StartsWith(name.value, "kubeadm:"))
  }

  /** Part of the control plane, and not one of the groups that everybody or nobody in particular is in. */
  predicate IsControlPlane(s: Subject) {
    && (s.kind == Group || s.kind == User) && IsControlPlaneName(s.name)
    && s.name.value != "system:authenticated" && s.name.value != "system:unauthenticated"
    && s.name.value != "system:masters"
  }

  predicate IsStock(b: Binding) {
    && b.kind == ClusterRoleBinding && b.name == Some("cluster-admin") && b.roleRef.name == Some("cluster-admin")
    && b.subjects != [] && forall s :: s in b.subjects ==> s.kind == Group && s.name == Some("system:masters")
  }

  predicate IsPassedOver(b: Binding) {
    || IsControlPlaneName(b.roleRef.name)
    || (b.subjects != [] && forall s :: s in b.subjects ==> IsControlPlane(s))
    || IsStock(b)
  }

  lemma PrefixByFields(name: string, prefix: string)
    ensures prefix <= name <==> StartsWith(name, prefix)
  {
    if prefix <= name {
      assert prefix == name[..|prefix|];
    }
  }

  lemma NameByFields(name: Option<string>)
    ensures IsBuiltinRole(name) <==> IsControlPlaneName(name)
  {
    hide StartsWith;
    if name.Some? {
      PrefixByFields(name.value, "system:");
      PrefixByFields(name.value, "kubeadm:");
    }
  }

  lemma SubjectByFields(s: Subject)
    ensures IsBuiltinSubject(s) <==> IsControlPlane(s)
  {
    hide HasBuiltinPrefix, StartsWith;
    NameByFields(s.name);
  }

  lemma SuppressedByFields(b: Binding)
    ensures Suppressed(b) <==> IsPassedOver(b)
  {
    hide IsBuiltinSubject, IsControlPlane, HasBuiltinPrefix, IsControlPlaneName;
    NameByFields(b.roleRef.name);
    forall s ensures IsBuiltinSubject(s) <==> IsControlPlane(s) {
      SubjectByFields(s);
    }
  }

  // ---------------------------------------------------------------------
  // Risks
  // ---------------------------------------------------------------------

  /** A resource outside namespaces, in a group that a rule for these groups covers. */
  ghost predicate IsInert(x: Resource, groups: seq<ApiGroup>) {
    exists group :: BelongsTo(x, group) && (groups == [] || group in groups || AnyGroup in groups)
  }

  /** The rule bears the risk, in the scope where the risk means something. */
  ghost predicate RuleBears(t: RuleType, r: Rule, isClusterScoped: bool) {
    || (t == WildcardPermissions && (AnyVerb in r.verbs || AnyResource in r.resources))
    || (t == BroadSecretsAccess && Secrets in r.resources && (Get in r.verbs || List in r.verbs || Watch in r.verbs))
    || (t == ExecAttachGrant && (Create in r.verbs || Get in r.verbs)
        && (PodsExec in r.resources || PodsAttach in r.resources || PodsPortforward in r.resources))
    || (t == PrivilegeEscalationVerbs && (Escalate in r.verbs || Bind in r.verbs || Impersonate in r.verbs))
    || (t == TokenCreation && ServiceAccountsToken in r.resources && Create in r.verbs)
    || (t == WorkloadCreation && Create in r.verbs
        && (Pods in r.resources || Deployments in r.resources || DaemonSets in r.resources
            || StatefulSets in r.resources || ReplicaSets in r.resources || Jobs in r.resources
            || CronJobs in r.resources))
    || (t == IneffectiveClusterScopeGrant && !isClusterScoped
        && AnyResource !in r.resources && exists x :: x in r.resources && IsInert(x, r.apiGroups))
    || (t == NodeProxyAccess && isClusterScoped && NodesProxy in r.resources)
    || (t == CsrApproval && isClusterScoped
        && CertificateSigningRequestsApproval in r.resources && (Update in r.verbs || Patch in r.verbs))
    || (t == WebhookConfigAccess && isClusterScoped
        && (MutatingWebhookConfigurations in r.resources || ValidatingWebhookConfigurations in r.resources)
        && (Create in r.verbs || Update in r.verbs || Patch in r.verbs || Delete in r.verbs))
    || (t == PvCreation && isClusterScoped && PersistentVolumes in r.resources && Create in r.verbs)
  }

  ghost predicate SomeRuleBears(t: RuleType, rules: seq<Rule>, isClusterScoped: bool) {
    exists r :: r in rules && RuleBears(t, r, isClusterScoped)
  }

  /** A default service account, or one of the three groups. */
  predicate IsAnybody(s: Subject) {
    || (s.kind == ServiceAccount && s.name == Some("default"))
    || (s.kind == Group && (s.name == Some("system:authenticated") || s.name == Some("system:unauthenticated")
                            || s.name == Some("system:masters")))
  }

  predicate IsAllPowerful(b: Binding, rules: seq<Rule>) {
    || b.roleRef.name == Some("cluster-admin")
    || exists r :: r in rules && (AnyVerb in r.verbs || AnyResource in r.resources) && AnyGroup in r.apiGroups
  }

  /** A service account with a namespace of its own reaches all of them, or another one. */
  predicate LeavesItsNamespace(s: Subject, b: Binding) {
    && s.kind == ServiceAccount && s.namespace.Some? && s.namespace.value != ""
    && (|| b.kind == ClusterRoleBinding
        || (b.roleRef.kind == ClusterRole && b.namespace.Some? && b.namespace.value != "" && s.namespace != b.namespace))
  }

  ghost predicate BindingBears(t: RuleType, b: Binding, rules: seq<Rule>) {
    || SomeRuleBears(t, rules, b.roleRef.kind == ClusterRole)
    || (t == ClusterAdminBinding && (exists s :: s in b.subjects && IsAnybody(s)) && IsAllPowerful(b, rules))
    || (t == SegmentationViolation && exists s :: s in b.subjects && LeavesItsNamespace(s, b))
  }

  lemma InertByFields(r: Rule)
    ensures NamesClusterScoped(r) <==>
            AnyResource !in r.resources && exists x :: x in r.resources && IsInert(x, r.apiGroups)
  {
    hide ClusterScopedIn, BelongsTo, Meets;
    if x :| AnyResource !in r.resources && x in r.resources && IsInert(x, r.apiGroups) {
      var g :| BelongsTo(x, g) && (r.apiGroups == [] || g in r.apiGroups || AnyGroup in r.apiGroups);
      InertIsClusterScoped(r, x, g);
    }
    if NamesClusterScoped(r) {
      var g :| g in CLUSTER_SCOPED_GROUPS && (r.apiGroups == [] || g in r.apiGroups || AnyGroup in r.apiGroups)
            && Meets(r.resources, ClusterScopedIn(g));
      var x := Met(r.resources, ClusterScopedIn(g));
      ClusterScopedByFields(x, g);
      assert IsInert(x, r.apiGroups);
    }
  }

  lemma InertIsClusterScoped(r: Rule, x: Resource, g: ApiGroup)
    requires AnyResource !in r.resources && x in r.resources && BelongsTo(x, g)
    requires r.apiGroups == [] || g in r.apiGroups || AnyGroup in r.apiGroups
    ensures NamesClusterScoped(r)
  {
    hide ClusterScopedIn, BelongsTo;
    ClusterScopedByFields(x, g);
    GroupsAreListed(x, g);
    assert Meets(r.resources, ClusterScopedIn(g));
  }

  lemma Met(values: seq<Resource>, wanted: set<Resource>) returns (x: Resource)
    requires Meets(values, wanted)
    ensures x in values && x in wanted
  {
    x :| x in values && x in wanted;
  }

  lemma RuleByFields(t: RuleType, r: Rule, isClusterScoped: bool)
    requires IsRoleRuleType(t)
    ensures InScope(t, isClusterScoped) && CheckOf(t)(r) <==> RuleBears(t, r, isClusterScoped)
  {
    hide NamesClusterScoped, IsInert;
    InertByFields(r);
  }

  lemma RoleByFields(t: RuleType, rules: seq<Rule>, isClusterScoped: bool)
    requires IsRoleRuleType(t)
    ensures RoleRiskHolds(t, rules, isClusterScoped) <==> SomeRuleBears(t, rules, isClusterScoped)
  {
    hide InScope, CheckOf, RuleBears;
    forall r ensures InScope(t, isClusterScoped) && CheckOf(t)(r) <==> RuleBears(t, r, isClusterScoped) {
      RuleByFields(t, r, isClusterScoped);
    }
  }

  lemma OtherTypesAreNotBorne(t: RuleType, rules: seq<Rule>, isClusterScoped: bool)
    requires !IsRoleRuleType(t)
    ensures !SomeRuleBears(t, rules, isClusterScoped)
  {
  }

  lemma AdminByFields(b: Binding, rules: seq<Rule>)
    ensures NamesBroadIdentity(b.subjects) <==> exists s :: s in b.subjects && IsAnybody(s)
    ensures IsClusterAdminEquivalent(b.roleRef.name, rules) <==> IsAllPowerful(b, rules)
  {
    forall s ensures IsBroadIdentity(s) <==> IsAnybody(s) {
    }
    if r :| r in rules && (AnyVerb in r.verbs || AnyResource in r.resources) && AnyGroup in r.apiGroups {
      assert IsOpenEverywhere(r);
    }
  }

  lemma SegmentationByFields(b: Binding)
    ensures IsSegmentationViolation(b) <==> exists s :: s in b.subjects && LeavesItsNamespace(s, b)
  {
    forall s ensures HomeNamespace(s).Some? <==> s.kind == ServiceAccount && s.namespace.Some? && s.namespace.value != "" {
    }
    if s :| s in b.subjects && LeavesItsNamespace(s, b) {
      assert IsNamespacedAccount(s);
    }
  }

  /** A binding has a risk exactly when its fields and those of the role it refers to say so. */
  lemma RiskByFields(g: Graph, b: Binding, t: RuleType)
    ensures RiskHolds(g, b, t) <==>
            exists role :: RefersTo(g, b, role) && !IsPassedOver(b) && BindingBears(t, b, role.rules)
  {
    hide FindRole, RefersTo, Suppressed, IsPassedOver, NamesBroadIdentity, IsAnybody, IsClusterAdminEquivalent,
      IsAllPowerful, IsSegmentationViolation, LeavesItsNamespace, RoleRiskHolds, SomeRuleBears;
    SuppressedByFields(b);
    SegmentationByFields(b);
    forall role ensures FindRole(g, KeyOfRef(b), false) == Some(role) <==> RefersTo(g, b, role) {
      ResolvesByFields(g, b, role, false);
    }
    forall role: Role ensures BearsAlike(t, b, role.rules) {
      BorneByFields(t, b, role.rules);
    }
  }

  ghost predicate BearsAlike(t: RuleType, b: Binding, rules: seq<Rule>) {
    BindingBears(t, b, rules) <==>
      match t
      case ClusterAdminBinding => NamesBroadIdentity(b.subjects) && IsClusterAdminEquivalent(b.roleRef.name, rules)
      case SegmentationViolation => IsSegmentationViolation(b)
      case TokenAutomount => false
      case _ => RoleRiskHolds(t, rules, b.roleRef.kind == ClusterRole)
  }

  lemma BorneByFields(t: RuleType, b: Binding, rules: seq<Rule>)
    ensures BearsAlike(t, b, rules)
  {
    hide NamesBroadIdentity, IsAnybody, IsClusterAdminEquivalent, IsAllPowerful, IsSegmentationViolation,
      LeavesItsNamespace, RoleRiskHolds, SomeRuleBears;
    SegmentationByFields(b);
    AdminByFields(b, rules);
    if IsRoleRuleType(t) {
      RoleByFields(t, rules, b.roleRef.kind == ClusterRole);
    } else {
      OtherTypesAreNotBorne(t, rules, b.roleRef.kind == ClusterRole);
    }
  }

  // ---------------------------------------------------------------------
  // Findings
  // ---------------------------------------------------------------------

  function SeverityShown(t: RuleType, isClusterScoped: bool): Severity {
    if t == ClusterAdminBinding then CRITICAL
    else if t in {ExecAttachGrant, WorkloadCreation, IneffectiveClusterScopeGrant} then MEDIUM
    else if t in {WildcardPermissions, BroadSecretsAccess, PrivilegeEscalationVerbs, TokenCreation} && !isClusterScoped
    then MEDIUM
    else HIGH
  }

  /** CRITICAL 9.5, HIGH 7.5, MEDIUM 5.5, LOW 2.5, times the context's weights, to two digits. */
  function ScoreShown(severity: Severity, ctx: Context): real {
    Round2((if severity == CRITICAL then 9.5 else if severity == HIGH then 7.5
            else if severity == MEDIUM then 5.5 else if severity == LOW then 2.5 else 1.0) * Multiplier(ctx))
  }

  function FindingShown(b: Binding, t: RuleType, ctx: Context): Finding {
    var severity := SeverityShown(t, b.roleRef.kind == ClusterRole);
    Finding(t, severity, Some(RoleRef(b.roleRef.kind, b.roleRef.name)), Some(BindingRef(b.kind, b.name, b.namespace)),
            None, None, b.subjects, ScoreShown(severity, ctx))
  }

  lemma ScoreByFields(severity: Severity, ctx: Context)
    ensures ContextualScore(None, severity, ctx) == ScoreShown(severity, ctx)
  {
    hide Multiplier, Round2;
  }

  lemma FindingByFields(b: Binding, t: RuleType, ctx: Context)
    requires t != TokenAutomount
    ensures BindingFinding(b, RiskOf(b, t), ctx) == FindingShown(b, t, ctx)
  {
    hide ContextualScore, ScoreShown;
    ScoreByFields(SeverityShown(t, b.roleRef.kind == ClusterRole), ctx);
  }

  /** Some binding, read with the kind of its list, refers to a role, is not passed over, and bears the risk. */
  ghost predicate IsCalledFor(g: Graph, f: Finding, ctx: Context) {
    exists b, role :: IsBinding(g, b) && RefersTo(g, b, role) && !IsPassedOver(b)
      && BindingBears(f.ruleType, b, role.rules) && f == FindingShown(b, f.ruleType, ctx)
  }

  /** A finding on a binding is in the report exactly when the fields of the graph call for it. */
  lemma ReportByFields(g: Graph, ctx: Context, findings: seq<Finding>, f: Finding)
    requires IsStableSort(ExpectedFindings(g, ctx), findings, FindingScore) && f.binding.Some?
    ensures f in findings <==> IsCalledFor(g, f, ctx)
  {
    hide ExpectedFindings, IsStableSort, AllBindings, IsBinding, RefersTo, IsPassedOver, BindingBears, RiskHolds,
      BindingFinding, FindingShown, RiskOf;
    var t := f.ruleType;
    ReportIsExact(g, ctx, findings, f);
    TallyPositive(g, AllBindings(g), f, ctx);
    assert f in findings <==> f in multiset(findings);
    forall b ensures b in AllBindings(g) <==> IsBinding(g, b) {
      BindingsByFields(g, b);
    }
    forall b ensures RiskHolds(g, b, t) <==>
                     exists role :: RefersTo(g, b, role) && !IsPassedOver(b) && BindingBears(t, b, role.rules) {
      RiskByFields(g, b, t);
    }
    if t == TokenAutomount {
      NothingBearsAutomount();
    } else {
      forall b ensures BindingFinding(b, RiskOf(b, t), ctx) == FindingShown(b, t, ctx) {
        FindingByFields(b, t, ctx);
      }
    }
  }

  lemma NothingBearsAutomount()
    ensures forall b, rules :: !BindingBears(TokenAutomount, b, rules)
  {
  }

  /** A group that anybody is in, or the masters outside their stock binding. */
  predicate IsEverybody(s: Subject, b: Binding) {
    && s.kind == Group
    && (|| s.name == Some("system:authenticated") || s.name == Some("system:unauthenticated")
        || (s.name == Some("system:masters") && !IsStock(b)))
  }

  /** A binding that everybody is in is passed over only for its role's name, or as the stock one. */
  lemma BroadGroupsAreReported(g: Graph, ctx: Context, findings: seq<Finding>, b: Binding, role: Role, s: Subject)
    requires IsStableSort(ExpectedFindings(g, ctx), findings, FindingScore)
    requires IsBinding(g, b) && RefersTo(g, b, role)
    ensures s in b.subjects && IsEverybody(s, b) && !IsControlPlaneName(b.roleRef.name) ==>
              forall t :: SomeRuleBears(t, role.rules, b.roleRef.kind == ClusterRole) ==>
                FindingShown(b, t, ctx) in findings
  {
    hide ExpectedFindings, IsStableSort, IsBinding, RefersTo, SomeRuleBears, StartsWith, ScoreShown;
    if s in b.subjects && IsEverybody(s, b) && !IsControlPlaneName(b.roleRef.name) {
      assert !IsControlPlane(s);
      assert !IsPassedOver(b);
      forall t | SomeRuleBears(t, role.rules, b.roleRef.kind == ClusterRole) ensures FindingShown(b, t, ctx) in findings {
        assert BindingBears(t, b, role.rules);
        ReportByFields(g, ctx, findings, FindingShown(b, t, ctx));
        assert IsCalledFor(g, FindingShown(b, t, ctx), ctx);
      }
    }
  }

  /** A binding that refers to a role yields no finding exactly when it is passed over or bears no risk. */
  lemma SilentByFields(g: Graph, ctx: Context, findings: seq<Finding>, b: Binding, role: Role)
    requires IsStableSort(ExpectedFindings(g, ctx), findings, FindingScore)
    requires IsBinding(g, b) && RefersTo(g, b, role)
    ensures (forall t :: FindingShown(b, t, ctx) !in findings) <==>
            IsPassedOver(b) || forall t :: !BindingBears(t, b, role.rules)
  {
    hide ExpectedFindings, IsStableSort, IsBinding, RefersTo, IsPassedOver, BindingBears;
    forall t ensures FindingShown(b, t, ctx) in findings <==> !IsPassedOver(b) && BindingBears(t, b, role.rules) {
      var f := FindingShown(b, t, ctx);
      ReportByFields(g, ctx, findings, f);
      if IsCalledFor(g, f, ctx) {
        var other, r :| IsBinding(g, other) && RefersTo(g, other, r) && !IsPassedOver(other)
                     && BindingBears(f.ruleType, other, r.rules) && f == FindingShown(other, f.ruleType, ctx);
        OneRoleIsMeant(g, b, role, r);
      }
    }
  }

  lemma OneRoleIsMeant(g: Graph, b: Binding, role: Role, other: Role)
    requires RefersTo(g, b, role) && RefersTo(g, b, other)
    ensures role == other
  {
    hide RefersTo, FindRole;
    ResolvesByFields(g, b, role, false);
    ResolvesByFields(g, b, other, false);
  }

  // ---------------------------------------------------------------------
  // Token automount
  // ---------------------------------------------------------------------

  /** The last account with this namespace and name says an explicit false. */
  ghost predicate SwitchedOff(accounts: seq<Account>, namespace: Option<string>, name: Option<string>) {
    exists i :: 0 <= i < |accounts|
      && accounts[i].namespace == namespace && accounts[i].name == name && accounts[i].automount == Explicit(false)
      && forall j :: i < j < |accounts| ==> accounts[j].namespace != namespace || accounts[j].name != name
  }

  /** The account a workload runs as: the one it names, or "default". */
  function AccountNameOf(w: Workload): Option<string> {
    if w.accountName == None || w.accountName == Some("") then Some("default") else w.accountName
  }

  lemma {:induction false} SettingByFields(accounts: seq<Account>, key: AccountRef)
    ensures SettingOf(accounts, key) == Some(Explicit(false)) <==> SwitchedOff(accounts, key.namespace, key.name)
  {
    if accounts != [] {
      var front, l := Init(accounts), Last(accounts);
      SettingByFields(front, key);
      assert forall i :: 0 <= i < |front| ==> front[i] == accounts[i];
      if KeyOfAccount(l) == key {
        if l.automount == Explicit(false) {
          assert accounts[|front|] == l;
        }
      } else {
        assert SwitchedOff(front, key.namespace, key.name) <==> SwitchedOff(accounts, key.namespace, key.name);
      }
    }
  }

  lemma UsedByFields(w: Workload)
    ensures UsedAccount(w) == AccountRef(w.namespace, AccountNameOf(w))
  {
  }

  /** The finding that an account of its own calls for. */
  function AccountShown(a: Account, ctx: Context): Finding {
    var severity := if a.name == Some("default") then MEDIUM else LOW;
    Finding(TokenAutomount, severity, None, None, Some(AccountRef(a.namespace, a.name)), None, [],
            ScoreShown(severity, ctx))
  }

  function WorkloadShown(w: Workload, ctx: Context): Finding {
    Finding(TokenAutomount, MEDIUM, None, None, Some(AccountRef(w.namespace, AccountNameOf(w))),
            Some(WorkloadRef(w.kind, w.name, w.namespace)), [], ScoreShown(MEDIUM, ctx))
  }

  lemma AccountShownByFields(a: Account, ctx: Context)
    ensures AutomountFinding(OwnRisk(a), ctx) == AccountShown(a, ctx)
  {
    hide ContextualScore, ScoreShown;
    ScoreByFields(MEDIUM, ctx);
    ScoreByFields(LOW, ctx);
  }

  lemma WorkloadShownByFields(w: Workload, ctx: Context)
    ensures AutomountFinding(WorkloadRisk(w), ctx) == WorkloadShown(w, ctx)
  {
    hide ContextualScore, ScoreShown, UsedAccount, AccountNameOf;
    UsedByFields(w);
    ScoreByFields(MEDIUM, ctx);
  }

  lemma OverridesByFields(accounts: seq<Account>, w: Workload)
    ensures Overrides(accounts, w) <==>
            w.automount == Explicit(true) && SwitchedOff(accounts, w.namespace, AccountNameOf(w))
  {
    hide SettingOf, SwitchedOff, AccountNameOf, UsedAccount;
    UsedByFields(w);
    SettingByFields(accounts, UsedAccount(w));
  }

  ghost predicate AutomountCallsFor(g: Graph, f: Finding, ctx: Context) {
    || (exists a :: a in g.accounts && a.automount != Explicit(false) && f == AccountShown(a, ctx))
    || (exists w :: w in g.workloads && w.automount == Explicit(true)
                 && SwitchedOff(g.accounts, w.namespace, AccountNameOf(w)) && f == WorkloadShown(w, ctx))
  }

  /** A finding on no binding is in the report exactly when an account or a workload calls for it. */
  lemma AutomountByFields(g: Graph, ctx: Context, findings: seq<Finding>, f: Finding)
    requires IsStableSort(ExpectedFindings(g, ctx), findings, FindingScore) && f.binding.None?
    ensures f in findings <==> AutomountCallsFor(g, f, ctx)
  {
    hide ExpectedFindings, IsStableSort, AccountRisks, WorkloadRisks, SwitchedOff, Overrides, AutomountFinding,
      AccountShown, WorkloadShown, OwnRisk, WorkloadRisk, AccountNameOf;
    AutomountReportIsExact(g, ctx, findings, f);
    AccountRiskMembers(g.accounts);
    WorkloadRiskMembers(g.accounts, g.workloads);
    forall a ensures AutomountFinding(OwnRisk(a), ctx) == AccountShown(a, ctx) {
      AccountShownByFields(a, ctx);
    }
    forall w ensures AutomountFinding(WorkloadRisk(w), ctx) == WorkloadShown(w, ctx) {
      WorkloadShownByFields(w, ctx);
    }
    forall w ensures Overrides(g.accounts, w) <==>
                     w.automount == Explicit(true) && SwitchedOff(g.accounts, w.namespace, AccountNameOf(w)) {
      OverridesByFields(g.accounts, w);
    }
    if a :| a in g.accounts && a.automount != Explicit(false) && f == AccountShown(a, ctx) {
      assert OwnRisk(a) in AccountRisks(g.accounts) && f == AutomountFinding(OwnRisk(a), ctx);
    }
    if w :| w in g.workloads && Overrides(g.accounts, w) && f == WorkloadShown(w, ctx) {
      assert WorkloadRisk(w) in WorkloadRisks(g.accounts, g.workloads) && f == AutomountFinding(WorkloadRisk(w), ctx);
    }
  }
}
