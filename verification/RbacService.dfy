/** The per-role RBAC engine (control-plane/app/rbac_service.py). */
module RbacService {
  import opened Sequences
  import opened RbacGraph
  import opened Scoring

  // ---------------------------------------------------------------------
  // Suppression
  // ---------------------------------------------------------------------

  predicate IsBroadGroup(name: string) {
    name == "system:authenticated" || name == "system:unauthenticated" || name == "system:masters"
  }

  predicate HasBuiltinPrefix(name: string) {
    "system:" <= name || "kubeadm:" <= name
  }

  predicate IsBuiltinRole(name: Option<string>) {
    name.Some? && HasBuiltinPrefix(name.value)
  }

  predicate IsBuiltinSubject(s: Subject) {
    && (s.kind == Group || s.kind == User)
    && s.name.Some? && !IsBroadGroup(s.name.value) && HasBuiltinPrefix(s.name.value)
  }

  predicate AllSubjectsBuiltin(subjects: seq<Subject>) {
    subjects != [] && forall s :: s in subjects ==> IsBuiltinSubject(s)
  }

  /** The one binding to system:masters that every cluster ships with. */
  predicate IsStockClusterAdminBinding(b: Binding) {
    && b.kind == ClusterRoleBinding
    && b.name == Some("cluster-admin")
    && b.roleRef.name == Some("cluster-admin")
    && b.subjects != []
    && forall s :: s in b.subjects ==> s.kind == Group && s.name == Some("system:masters")
  }

  predicate Suppressed(b: Binding) {
    IsBuiltinRole(b.roleRef.name) || AllSubjectsBuiltin(b.subjects) || IsStockClusterAdminBinding(b)
  }

  // ---------------------------------------------------------------------
  // Checks on one rule
  // ---------------------------------------------------------------------

  predicate IsWildcardOpen(r: Rule) {
    AnyVerb in r.verbs || AnyResource in r.resources
  }

  predicate GrantsSecretsAccess(r: Rule) {
    Secrets in r.resources && Meets(r.verbs, {Get, List, Watch})
  }

  predicate GrantsExecAttach(r: Rule) {
    Meets(r.resources, {PodsExec, PodsAttach, PodsPortforward}) && Meets(r.verbs, {Create, Get})
  }

  predicate GrantsEscalationVerbs(r: Rule) {
    Meets(r.verbs, {Escalate, Bind, Impersonate})
  }

  predicate GrantsTokenCreation(r: Rule) {
    ServiceAccountsToken in r.resources && Create in r.verbs
  }

  predicate GrantsWorkloadCreation(r: Rule) {
    && Meets(r.resources, {Pods, Deployments, DaemonSets, StatefulSets, ReplicaSets, Jobs, CronJobs})
    && Create in r.verbs
  }

  predicate GrantsNodeProxy(r: Rule) {
    NodesProxy in r.resources
  }

  predicate GrantsCsrApproval(r: Rule) {
    CertificateSigningRequestsApproval in r.resources && Meets(r.verbs, {Update, Patch})
  }

  predicate GrantsWebhookWrite(r: Rule) {
    && Meets(r.resources, {MutatingWebhookConfigurations, ValidatingWebhookConfigurations})
    && Meets(r.verbs, {Create, Update, Patch, Delete})
  }

  predicate GrantsPvCreation(r: Rule) {
    PersistentVolumes in r.resources && Create in r.verbs
  }

  const CLUSTER_SCOPED_GROUPS := [
    CoreGroup, RbacGroup, ApiExtensionsGroup, StorageGroup, SchedulingGroup, ApiRegistrationGroup,
    CertificatesGroup, AdmissionGroup, NetworkingGroup, NodeGroup, PolicyGroup
  ]

  /** The well-known cluster-scoped resources of an API group. */
  function ClusterScopedIn(group: ApiGroup): set<Resource> {
    match group
    case CoreGroup => {Nodes, NodesProxy, NodesMetrics, PersistentVolumes, Namespaces}
    case RbacGroup => {ClusterRoles, ClusterRoleBindings}
    case ApiExtensionsGroup => {CustomResourceDefinitions}
    case StorageGroup => {StorageClasses, VolumeAttachments, CsiDrivers, CsiNodes}
    case SchedulingGroup => {PriorityClasses}
    case ApiRegistrationGroup => {ApiServices}
    case CertificatesGroup => {CertificateSigningRequests}
    case AdmissionGroup => {MutatingWebhookConfigurations, ValidatingWebhookConfigurations}
    case NetworkingGroup => {IngressClasses}
    case NodeGroup => {RuntimeClasses}
    case PolicyGroup => {PodSecurityPolicies}
    case _ => {}
  }

  /** The rule names a resource that a namespaced role cannot grant; wildcards are left to the wildcard risk. */
  predicate NamesClusterScoped(r: Rule) {
    && AnyResource !in r.resources
    && exists group :: group in CLUSTER_SCOPED_GROUPS
         && (r.apiGroups == [] || group in r.apiGroups || AnyGroup in r.apiGroups)
         && Meets(r.resources, ClusterScopedIn(group))
  }

  // ---------------------------------------------------------------------
  // Risks of one role
  // ---------------------------------------------------------------------

  datatype RuleType =
    | WildcardPermissions | BroadSecretsAccess | ExecAttachGrant | PrivilegeEscalationVerbs
    | TokenCreation | WorkloadCreation | IneffectiveClusterScopeGrant
    | NodeProxyAccess | CsrApproval | WebhookConfigAccess | PvCreation
    | ClusterAdminBinding | SegmentationViolation | TokenAutomount

  datatype Risk = Risk(ruleType: RuleType, severity: Severity)

  function SeverityOf(t: RuleType, isClusterScoped: bool): Severity {
    match t
    case WildcardPermissions => if isClusterScoped then HIGH else MEDIUM
    case BroadSecretsAccess => if isClusterScoped then HIGH else MEDIUM
    case PrivilegeEscalationVerbs => if isClusterScoped then HIGH else MEDIUM
    case TokenCreation => if isClusterScoped then HIGH else MEDIUM
    case NodeProxyAccess => HIGH
    case CsrApproval => HIGH
    case WebhookConfigAccess => HIGH
    case PvCreation => HIGH
    case ClusterAdminBinding => CRITICAL
    case SegmentationViolation => HIGH
    case _ => MEDIUM
  }

  /** The check on one rule behind a risk of a role. */
  function CheckOf(t: RuleType): Rule -> bool {
    match t
    case WildcardPermissions => IsWildcardOpen
    case BroadSecretsAccess => GrantsSecretsAccess
    case ExecAttachGrant => GrantsExecAttach
    case PrivilegeEscalationVerbs => GrantsEscalationVerbs
    case TokenCreation => GrantsTokenCreation
    case WorkloadCreation => GrantsWorkloadCreation
    case IneffectiveClusterScopeGrant => NamesClusterScoped
    case NodeProxyAccess => GrantsNodeProxy
    case CsrApproval => GrantsCsrApproval
    case WebhookConfigAccess => GrantsWebhookWrite
    case _ => GrantsPvCreation
  }

  /** Some risks mean something in one scope only. */
  predicate InScope(t: RuleType, isClusterScoped: bool) {
    match t
    case IneffectiveClusterScopeGrant => !isClusterScoped
    case NodeProxyAccess => isClusterScoped
    case CsrApproval => isClusterScoped
    case WebhookConfigAccess => isClusterScoped
    case PvCreation => isClusterScoped
    case _ => true
  }

  predicate RoleRiskHolds(t: RuleType, rules: seq<Rule>, isClusterScoped: bool) {
    InScope(t, isClusterScoped) && AnyRule(rules, CheckOf(t))
  }

  function Flagged(t: RuleType, rules: seq<Rule>, isClusterScoped: bool): seq<Risk> {
    if RoleRiskHolds(t, rules, isClusterScoped) then [Risk(t, SeverityOf(t, isClusterScoped))] else []
  }

  function ReadAndExecRisks(rules: seq<Rule>, isClusterScoped: bool): seq<Risk> {
    Flagged(WildcardPermissions, rules, isClusterScoped)
    + Flagged(BroadSecretsAccess, rules, isClusterScoped)
    + Flagged(ExecAttachGrant, rules, isClusterScoped)
  }

  function ScopeFreeRisks(rules: seq<Rule>, isClusterScoped: bool): seq<Risk> {
    ReadAndExecRisks(rules, isClusterScoped)
    + Flagged(PrivilegeEscalationVerbs, rules, isClusterScoped)
    + Flagged(TokenCreation, rules, isClusterScoped)
    + Flagged(WorkloadCreation, rules, isClusterScoped)
  }

  /** Every risk of a role, in the order the engine looks for them. */
  function RoleRisks(rules: seq<Rule>, isClusterScoped: bool): seq<Risk> {
    ScopeFreeRisks(rules, isClusterScoped)
    + Flagged(IneffectiveClusterScopeGrant, rules, isClusterScoped)
    + Flagged(NodeProxyAccess, rules, isClusterScoped)
    + Flagged(CsrApproval, rules, isClusterScoped)
    + Flagged(WebhookConfigAccess, rules, isClusterScoped)
    + Flagged(PvCreation, rules, isClusterScoped)
  }

  /** One "if any(check(r) for r in rules): risks.append(...)". */
  method Check(risks: seq<Risk>, rules: seq<Rule>, ghost isClusterScoped: bool,
               check: Rule -> bool, t: RuleType, severity: Severity) returns (r: seq<Risk>)
    requires InScope(t, isClusterScoped) && check == CheckOf(t) && severity == SeverityOf(t, isClusterScoped)
    ensures r == risks + Flagged(t, rules, isClusterScoped)
  {
    r := risks;
    if AnyRule(rules, check) {
      r := r + [Risk(t, severity)];
    }
  }

  lemma OutOfScope(risks: seq<Risk>, t: RuleType, rules: seq<Rule>, isClusterScoped: bool)
    requires !InScope(t, isClusterScoped)
    ensures risks + Flagged(t, rules, isClusterScoped) == risks
  {
  }

  method EvaluateReadAndExecRisks(rules: seq<Rule>, isClusterScoped: bool) returns (risks: seq<Risk>)
    ensures risks == ReadAndExecRisks(rules, isClusterScoped)
  {
    var scoped := if isClusterScoped then HIGH else MEDIUM;
    risks := Check([], rules, isClusterScoped, IsWildcardOpen, WildcardPermissions, scoped);
    risks := Check(risks, rules, isClusterScoped, GrantsSecretsAccess, BroadSecretsAccess, scoped);
    risks := Check(risks, rules, isClusterScoped, GrantsExecAttach, ExecAttachGrant, MEDIUM);
  }

  method EvaluateScopeFreeRisks(rules: seq<Rule>, isClusterScoped: bool) returns (risks: seq<Risk>)
    ensures risks == ScopeFreeRisks(rules, isClusterScoped)
  {
    var scoped := if isClusterScoped then HIGH else MEDIUM;
    risks := EvaluateReadAndExecRisks(rules, isClusterScoped);
    risks := Check(risks, rules, isClusterScoped, GrantsEscalationVerbs, PrivilegeEscalationVerbs, scoped);
    risks := Check(risks, rules, isClusterScoped, GrantsTokenCreation, TokenCreation, scoped);
    risks := Check(risks, rules, isClusterScoped, GrantsWorkloadCreation, WorkloadCreation, MEDIUM);
  }

  /** _evaluate_role_risks: the chain of checks, against the declarative list of risks. */
  method EvaluateRoleRisks(rules: seq<Rule>, isClusterScoped: bool) returns (risks: seq<Risk>)
    ensures risks == RoleRisks(rules, isClusterScoped)
  {
    risks := EvaluateScopeFreeRisks(rules, isClusterScoped);
    // Cluster-scoped resources are inert in a namespaced role and usable in a cluster role.
    if !isClusterScoped {
      risks := Check(risks, rules, isClusterScoped, NamesClusterScoped, IneffectiveClusterScopeGrant, MEDIUM);
      OutOfScope(risks, NodeProxyAccess, rules, isClusterScoped);
      OutOfScope(risks, CsrApproval, rules, isClusterScoped);
      OutOfScope(risks, WebhookConfigAccess, rules, isClusterScoped);
      OutOfScope(risks, PvCreation, rules, isClusterScoped);
    } else {
      OutOfScope(risks, IneffectiveClusterScopeGrant, rules, isClusterScoped);
      risks := Check(risks, rules, isClusterScoped, GrantsNodeProxy, NodeProxyAccess, HIGH);
      risks := Check(risks, rules, isClusterScoped, GrantsCsrApproval, CsrApproval, HIGH);
      risks := Check(risks, rules, isClusterScoped, GrantsWebhookWrite, WebhookConfigAccess, HIGH);
      risks := Check(risks, rules, isClusterScoped, GrantsPvCreation, PvCreation, HIGH);
    }
  }

  // ---------------------------------------------------------------------
  // Risks of one binding
  // ---------------------------------------------------------------------

  predicate IsBroadIdentity(s: Subject) {
    || (s.kind == ServiceAccount && s.name == Some("default"))
    || (s.kind == Group && s.name.Some? && IsBroadGroup(s.name.value))
  }

  predicate NamesBroadIdentity(subjects: seq<Subject>) {
    exists s :: s in subjects && IsBroadIdentity(s)
  }

  predicate IsOpenEverywhere(r: Rule) {
    IsWildcardOpen(r) && AnyGroup in r.apiGroups
  }

  predicate IsClusterAdminEquivalent(roleName: Option<string>, rules: seq<Rule>) {
    roleName == Some("cluster-admin") || AnyRule(rules, IsOpenEverywhere)
  }

  /** The home namespace of a ServiceAccount subject; other kinds, and empty namespaces, have none. */
  function HomeNamespace(s: Subject): Option<string> {
    if s.kind == ServiceAccount && Truthy(s.namespace) then s.namespace else None
  }

  predicate IsNamespacedAccount(s: Subject) {
    HomeNamespace(s).Some?
  }

  /** A namespaced account reaches cluster scope, or another namespace through a cluster role. */
  predicate IsSegmentationViolation(b: Binding) {
    match b.kind
    case ClusterRoleBinding => exists s :: s in b.subjects && IsNamespacedAccount(s)
    case RoleBinding =>
      && b.roleRef.kind == ClusterRole
      && Truthy(b.namespace)
      && exists s :: s in b.subjects && IsNamespacedAccount(s) && HomeNamespace(s) != b.namespace
  }

  function When(holds: bool, t: RuleType, severity: Severity): seq<Risk> {
    if holds then [Risk(t, severity)] else []
  }

  /** The risks of a binding whose role has these rules. */
  function BindingRisks(b: Binding, rules: seq<Rule>): seq<Risk> {
    RoleRisks(rules, b.roleRef.kind == ClusterRole)
    + When(NamesBroadIdentity(b.subjects) && IsClusterAdminEquivalent(b.roleRef.name, rules),
           ClusterAdminBinding, CRITICAL)
    + When(IsSegmentationViolation(b), SegmentationViolation, HIGH)
  }

  /** What the graph says of a binding: nothing when its role is missing or it is suppressed. */
  function RisksOf(g: Graph, b: Binding): seq<Risk> {
    match FindRole(g, KeyOfRef(b), false)
    case None => []
    case Some(role) => if Suppressed(b) then [] else BindingRisks(b, role.rules)
  }

  // ---------------------------------------------------------------------
  // Token automount
  // ---------------------------------------------------------------------

  datatype AccountRef = AccountRef(namespace: Option<string>, name: Option<string>)
  datatype WorkloadRef = WorkloadRef(kind: string, name: Option<string>, namespace: Option<string>)
  datatype AutomountRisk = AutomountRisk(severity: Severity, account: AccountRef, workload: Option<WorkloadRef>)

  /** Only an explicit false opts out. */
  predicate EffectiveAutomount(a: Automount) {
    a != Explicit(false)
  }

  function KeyOfAccount(a: Account): AccountRef {
    AccountRef(a.namespace, a.name)
  }

  function UsedAccount(w: Workload): AccountRef {
    AccountRef(w.namespace, if Truthy(w.accountName) then w.accountName else Some("default"))
  }

  /** The setting of the last listed account with this key. */
  function SettingOf(accounts: seq<Account>, key: AccountRef): Option<Automount> {
    if accounts == [] then None
    else if KeyOfAccount(Last(accounts)) == key then Some(Last(accounts).automount)
    else SettingOf(Init(accounts), key)
  }

  function AccountRisks(accounts: seq<Account>): seq<AutomountRisk> {
    if accounts == [] then []
    else
      var a := Last(accounts);
      if EffectiveAutomount(a.automount)
      then AccountRisks(Init(accounts))
           + [AutomountRisk(if a.name == Some("default") then MEDIUM else LOW, KeyOfAccount(a), None)]
      else AccountRisks(Init(accounts))
  }

  /** The workload switches tokens back on that its account switched off. */
  predicate Overrides(accounts: seq<Account>, w: Workload) {
    w.automount == Explicit(true) && SettingOf(accounts, UsedAccount(w)) == Some(Explicit(false))
  }

  function WorkloadRisk(w: Workload): AutomountRisk {
    AutomountRisk(MEDIUM, UsedAccount(w), Some(WorkloadRef(w.kind, w.name, w.namespace)))
  }

  function WorkloadRisks(accounts: seq<Account>, workloads: seq<Workload>): seq<AutomountRisk> {
    if workloads == [] then []
    else if Overrides(accounts, Last(workloads))
    then WorkloadRisks(accounts, Init(workloads)) + [WorkloadRisk(Last(workloads))]
    else WorkloadRisks(accounts, Init(workloads))
  }

  method EvaluateTokenAutomount(g: Graph) returns (risks: seq<AutomountRisk>)
    ensures risks == AccountRisks(g.accounts) + WorkloadRisks(g.accounts, g.workloads)
  {
    var settings;
    risks, settings := EvaluateAccounts(g.accounts);
    ghost var accountRisks := risks;
    for i := 0 to |g.workloads|
      invariant risks == accountRisks + WorkloadRisks(g.accounts, g.workloads[..i])
    {
      var w := g.workloads[i];
      InitOfPrefix(g.workloads, i);
      if w.automount != Explicit(true) {
        continue;
      }
      if Setting(settings, UsedAccount(w)) == Some(Explicit(false)) {
        risks := risks + [WorkloadRisk(w)];
      }
    }
    assert g.workloads[..|g.workloads|] == g.workloads;
  }

  function Setting(settings: map<AccountRef, Automount>, key: AccountRef): Option<Automount> {
    if key in settings then Some(settings[key]) else None
  }

  /** The loop over accounts: their own risks, and the sa_automount dict. */
  method EvaluateAccounts(accounts: seq<Account>)
    returns (risks: seq<AutomountRisk>, settings: map<AccountRef, Automount>)
    ensures risks == AccountRisks(accounts)
    ensures forall key :: Setting(settings, key) == SettingOf(accounts, key)
  {
    settings, risks := map[], [];
    for i := 0 to |accounts|
      invariant risks == AccountRisks(accounts[..i])
      invariant forall key :: Setting(settings, key) == SettingOf(accounts[..i], key)
    {
      var a := accounts[i];
      InitOfPrefix(accounts, i);
      settings := settings[KeyOfAccount(a) := a.automount];
      if EffectiveAutomount(a.automount) {
        risks := risks + [AutomountRisk(if a.name == Some("default") then MEDIUM else LOW, KeyOfAccount(a), None)];
      }
    }
    assert accounts[..|accounts|] == accounts;
  }

  // ---------------------------------------------------------------------
  // The report
  // ---------------------------------------------------------------------

  datatype Finding = Finding(ruleType: RuleType, severity: Severity,
                             role: Option<RoleRef>, binding: Option<BindingRef>,
                             account: Option<AccountRef>, workload: Option<WorkloadRef>,
                             subjects: seq<Subject>, score: real)

  function FindingScore(f: Finding): real {
    f.score
  }

  function BindingFinding(b: Binding, risk: Risk, ctx: Context): Finding {
    Finding(risk.ruleType, risk.severity, Some(b.roleRef), Some(RefOf(b)), None, None, b.subjects,
            ContextualScore(None, risk.severity, ctx))
  }

  function AutomountFinding(risk: AutomountRisk, ctx: Context): Finding {
    Finding(TokenAutomount, risk.severity, None, None, Some(risk.account), risk.workload, [],
            ContextualScore(None, risk.severity, ctx))
  }

  function BindingFindings(b: Binding, risks: seq<Risk>, ctx: Context): seq<Finding> {
    if risks == [] then [] else BindingFindings(b, Init(risks), ctx) + [BindingFinding(b, Last(risks), ctx)]
  }

  function FindingsOfBindings(g: Graph, bindings: seq<Binding>, ctx: Context): seq<Finding> {
    if bindings == [] then []
    else
      FindingsOfBindings(g, Init(bindings), ctx) + BindingFindings(Last(bindings), RisksOf(g, Last(bindings)), ctx)
  }

  function AutomountFindings(risks: seq<AutomountRisk>, ctx: Context): seq<Finding> {
    if risks == [] then [] else AutomountFindings(Init(risks), ctx) + [AutomountFinding(Last(risks), ctx)]
  }

  /** Before sorting: binding by binding, then the automount findings. */
  function ExpectedFindings(g: Graph, ctx: Context): seq<Finding> {
    FindingsOfBindings(g, AllBindings(g), ctx)
    + AutomountFindings(AccountRisks(g.accounts) + WorkloadRisks(g.accounts, g.workloads), ctx)
  }

  /** evaluate_rbac_findings: the report is the stable sort of what the graph calls for. */
  method EvaluateRbacFindings(g: Graph, ctx: Context) returns (findings: seq<Finding>)
    ensures IsStableSort(ExpectedFindings(g, ctx), findings, FindingScore)
  {
    var index := IndexRoles(g, false);
    var bindings := AllBindings(g);
    findings := [];
    for i := 0 to |bindings|
      invariant findings == FindingsOfBindings(g, bindings[..i], ctx)
    {
      InitOfPrefix(bindings, i);
      var found := EvaluateBinding(g, index, bindings[i], ctx);
      findings := findings + found;
    }
    assert bindings[..|bindings|] == bindings;
    var automount := EvaluateTokenAutomount(g);
    var rest := ScoreAutomount(automount, ctx);
    findings := findings + rest;
    StableSortIsStable(findings, FindingScore);
    findings := StableSort(findings, FindingScore);
  }

  /** The body of the loop over bindings. */
  method EvaluateBinding(ghost g: Graph, index: map<RoleKey, Role>, b: Binding, ctx: Context)
    returns (found: seq<Finding>)
    requires forall key :: Lookup(index, key) == FindRole(g, key, false)
    ensures found == BindingFindings(b, RisksOf(g, b), ctx)
  {
    var role := Lookup(index, KeyOfRef(b));
    if role.None? {
      return [];
    }
    if IsBuiltinRole(b.roleRef.name) || AllSubjectsBuiltin(b.subjects) || IsStockClusterAdminBinding(b) {
      return [];
    }
    var risks := EvaluateBindingRisks(b, role.value.rules);
    found := ScoreRisks(b, risks, ctx);
  }

  method EvaluateBindingRisks(b: Binding, rules: seq<Rule>) returns (risks: seq<Risk>)
    ensures risks == BindingRisks(b, rules)
  {
    risks := EvaluateRoleRisks(rules, b.roleRef.kind == ClusterRole);
    if NamesBroadIdentity(b.subjects) && IsClusterAdminEquivalent(b.roleRef.name, rules) {
      risks := risks + [Risk(ClusterAdminBinding, CRITICAL)];
    }
    if IsSegmentationViolation(b) {
      risks := risks + [Risk(SegmentationViolation, HIGH)];
    }
  }

  method ScoreRisks(b: Binding, risks: seq<Risk>, ctx: Context) returns (found: seq<Finding>)
    ensures found == BindingFindings(b, risks, ctx)
  {
    found := [];
    for i := 0 to |risks|
      invariant found == BindingFindings(b, risks[..i], ctx)
    {
      InitOfPrefix(risks, i);
      found := found + [BindingFinding(b, risks[i], ctx)];
    }
    assert risks[..|risks|] == risks;
  }

  method ScoreAutomount(risks: seq<AutomountRisk>, ctx: Context) returns (found: seq<Finding>)
    ensures found == AutomountFindings(risks, ctx)
  {
    found := [];
    for i := 0 to |risks|
      invariant found == AutomountFindings(risks[..i], ctx)
    {
      InitOfPrefix(risks, i);
      found := found + [AutomountFinding(risks[i], ctx)];
    }
    assert risks[..|risks|] == risks;
  }
}
