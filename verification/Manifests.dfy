/** Manifests to graph (control-plane/app/cli.py), and from there to token-automount findings. */
module Manifests {
  import opened Sequences
  import opened RbacGraph
  import opened Scoring
  import Rbac = RbacService
  import RbacLaws = RbacServiceLaws

  datatype Kind =
    | ListKind | RoleKind | ClusterRoleKind | RoleBindingKind | ClusterRoleBindingKind | ServiceAccountKind | PodKind
    | Deployment | StatefulSet | DaemonSet | ReplicaSet | Job | CronJob
    | OtherKind(text: string)

  datatype PodSpec = PodSpec(accountName: Option<string>, automount: Automount)

  /** The three places of a spec that may hold a pod spec; PodSpec(None, Unset) where a level is absent. */
  datatype Spec = Spec(itself: PodSpec, template: PodSpec, jobTemplate: PodSpec)

  /** A parsed YAML document, with what any kind of it may carry. */
  datatype Doc =
    | NotAMapping
    | Doc(kind: Kind, items: seq<Doc>, name: Option<string>, namespace: Option<string>, rules: seq<Rule>,
          roleRef: RoleRef, subjects: seq<Subject>, automount: Automount, spec: Spec)

  // ---------------------------------------------------------------------
  // Unwrapping lists
  // ---------------------------------------------------------------------

  function Mappings(docs: seq<Doc>): seq<Doc> {
    if docs == [] then []
    else if Last(docs).Doc? then Mappings(Init(docs)) + [Last(docs)] else Mappings(Init(docs))
  }

  /** A List stands for its items, one level deep; what is no mapping is dropped. */
  function Unwrapped(docs: seq<Doc>): seq<Doc> {
    if docs == [] then []
    else
      var d := Last(docs);
      Unwrapped(Init(docs)) + if d.NotAMapping? then [] else if d.kind.ListKind? then Mappings(d.items) else [d]
  }

  method IterManifestDocs(docs: seq<Doc>) returns (unwrapped: seq<Doc>)
    ensures unwrapped == Unwrapped(docs)
  {
    unwrapped := [];
    for i := 0 to |docs|
      invariant unwrapped == Unwrapped(docs[..i])
    {
      var d := docs[i];
      InitOfPrefix(docs, i);
      if d.NotAMapping? {
        continue;
      }
      if d.kind.ListKind? {
        unwrapped := unwrapped + Mappings(d.items);
      } else {
        unwrapped := unwrapped + [d];
      }
    }
    assert docs[..|docs|] == docs;
  }

  // ---------------------------------------------------------------------
  // What each document becomes
  // ---------------------------------------------------------------------

  function AsRole(d: Doc): Option<Role> {
    if d.Doc? && d.kind.RoleKind? then Some(Role(d.name, d.namespace, d.rules)) else None
  }

  function AsClusterRole(d: Doc): Option<Role> {
    if d.Doc? && d.kind.ClusterRoleKind? then Some(Role(d.name, None, d.rules)) else None
  }

  function AsRoleBinding(d: Doc): Option<Binding> {
    if d.Doc? && d.kind.RoleBindingKind?
    then Some(Binding(RoleBinding, d.name, d.namespace, d.roleRef, d.subjects)) else None
  }

  function AsClusterRoleBinding(d: Doc): Option<Binding> {
    if d.Doc? && d.kind.ClusterRoleBindingKind?
    then Some(Binding(ClusterRoleBinding, d.name, None, d.roleRef, d.subjects)) else None
  }

  function AsAccount(d: Doc): Option<Account> {
    if d.Doc? && d.kind.ServiceAccountKind? then Some(Account(d.name, d.namespace, d.automount)) else None
  }

  /** The name of a kind that carries a pod spec. */
  function WorkloadKindName(kind: Kind): Option<string> {
    match kind
    case PodKind => Some("Pod")
    case Deployment => Some("Deployment")
    case StatefulSet => Some("StatefulSet")
    case DaemonSet => Some("DaemonSet")
    case ReplicaSet => Some("ReplicaSet")
    case Job => Some("Job")
    case CronJob => Some("CronJob")
    case _ => None
  }

  /** Where a kind keeps its pod spec. */
  function PodSpecOf(kind: Kind, spec: Spec): PodSpec {
    match kind
    case PodKind => spec.itself
    case CronJob => spec.jobTemplate
    case _ => spec.template
  }

  function AsWorkload(d: Doc): Option<Workload> {
    if d.Doc? && WorkloadKindName(d.kind).Some?
    then
      var pod := PodSpecOf(d.kind, d.spec);
      Some(Workload(WorkloadKindName(d.kind).value, d.name, d.namespace, pod.accountName, pod.automount))
    else None
  }

  /** The results that a selection gives, in document order. */
  function Collect<T>(docs: seq<Doc>, pick: Doc -> Option<T>): seq<T> {
    if docs == [] then []
    else
      var front, picked := Collect(Init(docs), pick), pick(Last(docs));
      if picked.Some? then front + [picked.value] else front
  }

  function GraphOf(docs: seq<Doc>): Graph {
    Graph(Collect(docs, AsRole), Collect(docs, AsClusterRole), Collect(docs, AsRoleBinding),
          Collect(docs, AsClusterRoleBinding), Collect(docs, AsAccount), Collect(docs, AsWorkload))
  }

  predicate IsObjectKind(kind: Kind) {
    || kind.RoleKind? || kind.ClusterRoleKind? || kind.RoleBindingKind? || kind.ClusterRoleBindingKind?
    || kind.ServiceAccountKind?
  }

  predicate IsSupported(d: Doc) {
    d.Doc? && (IsObjectKind(d.kind) || WorkloadKindName(d.kind).Some?)
  }

  lemma CollectSnoc<T>(docs: seq<Doc>, i: nat, pick: Doc -> Option<T>)
    requires i < |docs|
    ensures Collect(docs[..i + 1], pick) ==
            if pick(docs[i]).Some? then Collect(docs[..i], pick) + [pick(docs[i]).value] else Collect(docs[..i], pick)
  {
    InitOfPrefix(docs, i);
  }

  lemma GraphSnoc(docs: seq<Doc>, i: nat)
    requires i < |docs|
    ensures GraphOf(docs[..i + 1]) == AddDoc(GraphOf(docs[..i]), docs[i])
  {
    hide Collect, AsRole, AsClusterRole, AsRoleBinding, AsClusterRoleBinding, AsAccount, AsWorkload;
    CollectSnoc(docs, i, AsRole);
    CollectSnoc(docs, i, AsClusterRole);
    CollectSnoc(docs, i, AsRoleBinding);
    CollectSnoc(docs, i, AsClusterRoleBinding);
    CollectSnoc(docs, i, AsAccount);
    CollectSnoc(docs, i, AsWorkload);
  }

  function Appended<T>(s: seq<T>, x: Option<T>): seq<T> {
    if x.Some? then s + [x.value] else s
  }

  function AddDoc(g: Graph, d: Doc): Graph {
    Graph(Appended(g.roles, AsRole(d)), Appended(g.clusterRoles, AsClusterRole(d)),
          Appended(g.roleBindings, AsRoleBinding(d)), Appended(g.clusterRoleBindings, AsClusterRoleBinding(d)),
          Appended(g.accounts, AsAccount(d)), Appended(g.workloads, AsWorkload(d)))
  }

  /** The branches of the translation loop. */
  method Translate(g: Graph, d: Doc) returns (h: Graph)
    requires d.Doc?
    ensures h == AddDoc(g, d)
  {
    hide WorkloadKindName;
    h := g;
    OtherKindsAreNoWorkloads(d.kind);
    if d.kind.RoleKind? {
      h := h.(roles := h.roles + [Role(d.name, d.namespace, d.rules)]);
    } else if d.kind.ClusterRoleKind? {
      h := h.(clusterRoles := h.clusterRoles + [Role(d.name, None, d.rules)]);
    } else if d.kind.RoleBindingKind? {
      h := h.(roleBindings := h.roleBindings + [Binding(RoleBinding, d.name, d.namespace, d.roleRef, d.subjects)]);
    } else if d.kind.ClusterRoleBindingKind? {
      h := h.(clusterRoleBindings := h.clusterRoleBindings
                                     + [Binding(ClusterRoleBinding, d.name, None, d.roleRef, d.subjects)]);
    } else if d.kind.ServiceAccountKind? {
      h := h.(accounts := h.accounts + [Account(d.name, d.namespace, d.automount)]);
    } else {
      var kind := WorkloadKindName(d.kind);
      if kind.Some? {
        var pod := if d.kind.PodKind? then d.spec.itself
                   else if d.kind.CronJob? then d.spec.jobTemplate else d.spec.template;
        h := h.(workloads := h.workloads + [Workload(kind.value, d.name, d.namespace, pod.accountName, pod.automount)]);
      }
    }
  }

  method BuildGraphFromManifests(docs: seq<Doc>) returns (g: Graph)
    ensures g == GraphOf(Unwrapped(docs))
  {
    hide AddDoc;
    var unwrapped := IterManifestDocs(docs);
    UnwrappedAreMappings(docs);
    g := EMPTY_GRAPH;
    for i := 0 to |unwrapped|
      invariant g == GraphOf(unwrapped[..i])
    {
      GraphSnoc(unwrapped, i);
      g := Translate(g, unwrapped[i]);
    }
    assert unwrapped[..|unwrapped|] == unwrapped;
  }

  lemma {:induction false} MappingsAreMappings(docs: seq<Doc>)
    ensures forall i :: 0 <= i < |Mappings(docs)| ==> Mappings(docs)[i].Doc?
  {
    if docs != [] { MappingsAreMappings(Init(docs)); }
  }

  lemma {:induction false} UnwrappedAreMappings(docs: seq<Doc>)
    ensures forall i :: 0 <= i < |Unwrapped(docs)| ==> Unwrapped(docs)[i].Doc?
  {
    if docs != [] {
      UnwrappedAreMappings(Init(docs));
      if Last(docs).Doc? {
        MappingsAreMappings(Last(docs).items);
      }
    }
  }

  // ---------------------------------------------------------------------
  // Every supported document lands in exactly one list
  // ---------------------------------------------------------------------

  function CountSupported(docs: seq<Doc>): nat {
    if docs == [] then 0 else CountSupported(Init(docs)) + if IsSupported(Last(docs)) then 1 else 0
  }

  function Size(g: Graph): nat {
    |g.roles| + |g.clusterRoles| + |g.roleBindings| + |g.clusterRoleBindings| + |g.accounts| + |g.workloads|
  }

  lemma DocLandsOnce(g: Graph, d: Doc)
    ensures Size(AddDoc(g, d)) == Size(g) + if IsSupported(d) then 1 else 0
  {
    hide WorkloadKindName;
    if d.Doc? {
      OtherKindsAreNoWorkloads(d.kind);
    }
  }

  lemma OtherKindsAreNoWorkloads(kind: Kind)
    ensures IsObjectKind(kind) ==> WorkloadKindName(kind) == None
  {
  }

  /** Nothing supported is lost or duplicated, List items and workload templates included. */
  lemma {:induction false} GraphConservesDocs(docs: seq<Doc>)
    ensures Size(GraphOf(docs)) == CountSupported(docs)
  {
    hide AddDoc, GraphOf, IsSupported;
    if docs == [] {
      EmptyGraph();
    } else {
      var n := |docs| - 1;
      GraphConservesDocs(Init(docs));
      assert docs[..n + 1] == docs;
      GraphSnoc(docs, n);
      DocLandsOnce(GraphOf(Init(docs)), Last(docs));
    }
  }

  lemma EmptyGraph()
    ensures Size(GraphOf([])) == 0
  {
  }

  // ---------------------------------------------------------------------
  // End to end: token automount
  // ---------------------------------------------------------------------

  lemma {:induction false} CollectMembers<T(!new)>(docs: seq<Doc>, pick: Doc -> Option<T>)
    ensures forall x :: x in Collect(docs, pick) <==> exists d :: d in docs && pick(d) == Some(x)
  {
    if docs != [] {
      CollectMembers(Init(docs), pick);
      assert forall d :: d in docs <==> d in Init(docs) || d == Last(docs);
    }
  }

  /** With one account per name and namespace, the setting looked up is the setting of that account. */
  lemma {:induction false} UniqueSetting(accounts: seq<Account>, key: Rbac.AccountRef, value: Automount)
    requires DistinctTags(accounts, Rbac.KeyOfAccount)
    ensures Rbac.SettingOf(accounts, key) == Some(value) <==>
            exists a :: a in accounts && Rbac.KeyOfAccount(a) == key && a.automount == value
  {
    if accounts != [] {
      var front, l := Init(accounts), Last(accounts);
      UniqueSetting(front, key, value);
      assert forall a :: a in accounts <==> a in front || a == l;
      if Rbac.KeyOfAccount(l) == key {
        forall a | a in front ensures Rbac.KeyOfAccount(a) != key {
          var i :| 0 <= i < |front| && front[i] == a;
          assert Rbac.KeyOfAccount(accounts[i]) != Rbac.KeyOfAccount(accounts[|front|]);
        }
      }
    }
  }

  /** The documents say true for the workload, and an explicit false for the account it runs as. */
  ghost predicate DocsOverride(docs: seq<Doc>, workload: Doc, account: Doc) {
    && workload in docs && account in docs
    && AsWorkload(workload).Some? && AsAccount(account).Some?
    && PodSpecOf(workload.kind, workload.spec).automount == Explicit(true)
    && account.automount == Explicit(false)
    && Rbac.AccountRef(account.namespace, account.name) == Rbac.UsedAccount(AsWorkload(workload).value)
  }

  /** The documents call for the risk k on a workload. */
  ghost predicate DocsShowOverride(docs: seq<Doc>, k: Rbac.AutomountRisk) {
    exists w, a :: DocsOverride(docs, w, a) && k == Rbac.WorkloadRisk(AsWorkload(w).value)
  }

  /** An account document that leaves tokens on, and its risk. */
  predicate LeavesTokensOn(d: Doc, k: Rbac.AutomountRisk) {
    AsAccount(d).Some? && d.automount != Explicit(false) && k == RbacLaws.OwnRisk(AsAccount(d).value)
  }

  lemma WorkloadRisksOfDocs(docs: seq<Doc>, k: Rbac.AutomountRisk)
    requires DistinctTags(GraphOf(docs).accounts, Rbac.KeyOfAccount)
    ensures k in Rbac.WorkloadRisks(GraphOf(docs).accounts, GraphOf(docs).workloads) <==> DocsShowOverride(docs, k)
  {
    hide Collect, Rbac.WorkloadRisks, Rbac.WorkloadRisk, Rbac.UsedAccount, Rbac.Overrides, OverriddenIn;
    var accounts, workloads := GraphOf(docs).accounts, GraphOf(docs).workloads;
    RbacLaws.WorkloadRiskMembers(accounts, workloads);
    CollectMembers(docs, AsWorkload);
    if k in Rbac.WorkloadRisks(accounts, workloads) {
      var w :| w in workloads && Rbac.Overrides(accounts, w) && k == Rbac.WorkloadRisk(w);
      var d :| d in docs && AsWorkload(d) == Some(w);
      OverriddenByDocs(docs, w);
      var a := OverridingAccount(docs, d, w);
      assert DocsOverride(docs, d, a);
    }
    if d, a :| DocsOverride(docs, d, a) && k == Rbac.WorkloadRisk(AsWorkload(d).value) {
      OverridingDocs(docs, d, a);
      OverriddenByDocs(docs, AsWorkload(d).value);
    }
  }

  ghost predicate OverriddenIn(docs: seq<Doc>, w: Workload) {
    && w.automount == Explicit(true)
    && exists a :: a in docs && SwitchesOff(a, Rbac.UsedAccount(w))
  }

  ghost predicate SwitchesOff(account: Doc, key: Rbac.AccountRef) {
    && AsAccount(account).Some? && account.automount == Explicit(false)
    && Rbac.KeyOfAccount(AsAccount(account).value) == key
  }

  lemma OverriddenByDocs(docs: seq<Doc>, w: Workload)
    requires DistinctTags(GraphOf(docs).accounts, Rbac.KeyOfAccount)
    ensures Rbac.Overrides(GraphOf(docs).accounts, w) <==> OverriddenIn(docs, w)
  {
    hide Collect, Rbac.UsedAccount, Rbac.SettingOf;
    CollectMembers(docs, AsAccount);
    UniqueSetting(GraphOf(docs).accounts, Rbac.UsedAccount(w), Explicit(false));
    var accounts, key := GraphOf(docs).accounts, Rbac.UsedAccount(w);
    if a :| a in accounts && Rbac.KeyOfAccount(a) == key && a.automount == Explicit(false) {
      var d :| d in docs && AsAccount(d) == Some(a);
      assert SwitchesOff(d, key);
    }
    if d :| d in docs && SwitchesOff(d, key) {
      assert AsAccount(d).value in accounts;
    }
  }

  lemma OverridingAccount(docs: seq<Doc>, d: Doc, w: Workload) returns (a: Doc)
    requires d in docs && AsWorkload(d) == Some(w) && OverriddenIn(docs, w)
    ensures DocsOverride(docs, d, a)
  {
    hide WorkloadKindName, Rbac.UsedAccount;
    a :| a in docs && SwitchesOff(a, Rbac.UsedAccount(w));
  }

  lemma OverridingDocs(docs: seq<Doc>, d: Doc, a: Doc)
    requires DocsOverride(docs, d, a)
    ensures d in docs && AsWorkload(d).Some? && OverriddenIn(docs, AsWorkload(d).value)
  {
    hide WorkloadKindName, Rbac.UsedAccount;
    assert SwitchesOff(a, Rbac.UsedAccount(AsWorkload(d).value));
  }

  /**
   * From the documents as read to the report: with unique accounts, a workload
   * finding is there exactly for a workload whose template says true while its
   * account says an explicit false.
   */
  lemma WorkloadFindingsEndToEnd(
    read: seq<Doc>, ctx: Context, findings: seq<Rbac.Finding>, f: Rbac.Finding)
    requires DistinctTags(GraphOf(Unwrapped(read)).accounts, Rbac.KeyOfAccount)
    requires IsStableSort(Rbac.ExpectedFindings(GraphOf(Unwrapped(read)), ctx), findings, Rbac.FindingScore)
    requires f.binding.None? && f.workload.Some?
    ensures f in findings <==>
      exists k :: DocsShowOverride(Unwrapped(read), k) && f == Rbac.AutomountFinding(k, ctx)
  {
    hide Rbac.WorkloadRisks, Rbac.AccountRisks, Rbac.ExpectedFindings, IsStableSort, GraphOf, DocsOverride,
      ContextualScore, Rbac.UsedAccount;
    var g := GraphOf(Unwrapped(read));
    RbacLaws.AutomountReportIsExact(g, ctx, findings, f);
    RbacLaws.AccountRiskMembers(g.accounts);
    forall k ensures k in Rbac.WorkloadRisks(g.accounts, g.workloads) <==> DocsShowOverride(Unwrapped(read), k) {
      WorkloadRisksOfDocs(Unwrapped(read), k);
    }
  }

  /** And an account finding exactly for a listed account that does not say an explicit false. */
  lemma {:induction false} AccountFindingsEndToEnd(
    read: seq<Doc>, ctx: Context, findings: seq<Rbac.Finding>, f: Rbac.Finding)
    requires IsStableSort(Rbac.ExpectedFindings(GraphOf(Unwrapped(read)), ctx), findings, Rbac.FindingScore)
    requires f.binding.None? && f.workload.None?
    ensures f in findings <==>
      exists d, k :: d in Unwrapped(read) && LeavesTokensOn(d, k) && f == Rbac.AutomountFinding(k, ctx)
  {
    hide Rbac.WorkloadRisks, Rbac.AccountRisks, Rbac.ExpectedFindings, IsStableSort, Collect, Rbac.Overrides,
      ContextualScore, Rbac.UsedAccount;
    var docs := Unwrapped(read);
    var g := GraphOf(docs);
    RbacLaws.AutomountReportIsExact(g, ctx, findings, f);
    RbacLaws.AccountRiskMembers(g.accounts);
    RbacLaws.WorkloadRiskMembers(g.accounts, g.workloads);
    CollectMembers(docs, AsAccount);
    if d, k :| d in docs && LeavesTokensOn(d, k) && f == Rbac.AutomountFinding(k, ctx) {
      assert AsAccount(d).value in g.accounts;
      assert k in Rbac.AccountRisks(g.accounts);
    }
    if k :| k in Rbac.AccountRisks(g.accounts) && f == Rbac.AutomountFinding(k, ctx) {
      var a :| a in g.accounts && Rbac.EffectiveAutomount(a.automount) && k == RbacLaws.OwnRisk(a);
      var d :| d in docs && AsAccount(d) == Some(a);
      assert LeavesTokensOn(d, k);
    }
  }

  // ---------------------------------------------------------------------
  // Accounts reported twice
  // ---------------------------------------------------------------------

  /** The account has a finding of its own and one for being overridden. */
  ghost predicate ReportedTwice(accounts: seq<Account>, workloads: seq<Workload>, key: Rbac.AccountRef) {
    && (exists own :: own in Rbac.AccountRisks(accounts) && own.account == key)
    && (exists override :: override in Rbac.WorkloadRisks(accounts, workloads) && override.account == key)
  }

  /**
   * An account is reported twice exactly when some listing of it leaves tokens
   * on, the last one switches them off, and some workload switches them on.
   */
  lemma ReportedTwiceExactly(
    accounts: seq<Account>, workloads: seq<Workload>, key: Rbac.AccountRef)
    ensures ReportedTwice(accounts, workloads, key) <==>
      && (exists a :: a in accounts && Rbac.KeyOfAccount(a) == key && a.automount != Explicit(false))
      && Rbac.SettingOf(accounts, key) == Some(Explicit(false))
      && (exists w :: w in workloads && w.automount == Explicit(true) && Rbac.UsedAccount(w) == key)
  {
    hide Rbac.AccountRisks, Rbac.WorkloadRisks, Rbac.SettingOf, Rbac.UsedAccount;
    RbacLaws.AccountRiskMembers(accounts);
    RbacLaws.WorkloadRiskMembers(accounts, workloads);
    if && (exists a :: a in accounts && Rbac.KeyOfAccount(a) == key && a.automount != Explicit(false))
       && Rbac.SettingOf(accounts, key) == Some(Explicit(false))
       && (exists w :: w in workloads && w.automount == Explicit(true) && Rbac.UsedAccount(w) == key)
    {
      var a :| a in accounts && Rbac.KeyOfAccount(a) == key && a.automount != Explicit(false);
      var w :| w in workloads && w.automount == Explicit(true) && Rbac.UsedAccount(w) == key;
      assert RbacLaws.OwnRisk(a) in Rbac.AccountRisks(accounts);
      assert Rbac.WorkloadRisk(w) in Rbac.WorkloadRisks(accounts, workloads);
    }
  }

  /** So with unique accounts none is. */
  lemma NoAccountIsReportedTwice(
    accounts: seq<Account>, workloads: seq<Workload>, key: Rbac.AccountRef)
    requires DistinctTags(accounts, Rbac.KeyOfAccount)
    ensures !ReportedTwice(accounts, workloads, key)
  {
    hide Rbac.SettingOf, Rbac.UsedAccount, ReportedTwice;
    ReportedTwiceExactly(accounts, workloads, key);
    if a :| a in accounts && Rbac.KeyOfAccount(a) == key && a.automount != Explicit(false) {
      UniqueSetting(accounts, key, a.automount);
    }
  }

  /** And an account listed twice can be. */
  lemma RepeatedAccountsCanBeReportedTwice(namespace: Option<string>)
    ensures var accounts := [Account(Some("sa"), namespace, Unset), Account(Some("sa"), namespace, Explicit(false))];
            var workloads := [Workload("Pod", Some("p"), namespace, Some("sa"), Explicit(true))];
            ReportedTwice(accounts, workloads, Rbac.AccountRef(namespace, Some("sa")))
  {
    var first, second := Account(Some("sa"), namespace, Unset), Account(Some("sa"), namespace, Explicit(false));
    var w := Workload("Pod", Some("p"), namespace, Some("sa"), Explicit(true));
    ReportedTwiceExactly([first, second], [w], Rbac.AccountRef(namespace, Some("sa")));
    assert first in [first, second] && w in [w];
  }
}
