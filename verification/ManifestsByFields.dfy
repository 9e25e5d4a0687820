/** From documents to the token-automount report, said of the documents' own fields. */
module ManifestsByFields {
  import opened Sequences
  import opened RbacGraph
  import opened Scoring
  import opened Manifests
  import Rbac = RbacService
  import RbacByFields

  // ---------------------------------------------------------------------
  // Documents and the graph
  // ---------------------------------------------------------------------

  /** A document of its own, or an item of a List; Lists inside Lists stay unread. */
  ghost predicate IsRead(read: seq<Doc>, d: Doc) {
    && d.Doc?
    && (|| (d in read && !d.kind.ListKind?)
        || exists l :: l in read && l.Doc? && l.kind.ListKind? && d in l.items)
  }

  lemma {:induction false} MappingsByFields(docs: seq<Doc>, d: Doc)
    ensures d in Mappings(docs) <==> d in docs && d.Doc?
  {
    if docs != [] {
      MappingsByFields(Init(docs), d);
      assert d in docs <==> d in Init(docs) || d == Last(docs);
    }
  }

  lemma {:induction false} UnwrappedByFields(read: seq<Doc>, d: Doc)
    ensures d in Unwrapped(read) <==> IsRead(read, d)
  {
    hide Mappings;
    if read != [] {
      var l := Last(read);
      UnwrappedByFields(Init(read), d);
      assert forall x :: x in read <==> x in Init(read) || x == l;
      if l.Doc? {
        MappingsByFields(l.items, d);
      }
    }
  }

  /** Where a document of this kind keeps its pod spec, and the name of the kind. */
  ghost predicate HasPod(d: Doc, kind: string, pod: PodSpec) {
    && d.Doc?
    && (|| (d.kind == PodKind && kind == "Pod" && pod == d.spec.itself)
        || (d.kind == CronJob && kind == "CronJob" && pod == d.spec.jobTemplate)
        || (pod == d.spec.template
            && (|| (d.kind == Deployment && kind == "Deployment") || (d.kind == StatefulSet && kind == "StatefulSet")
                || (d.kind == DaemonSet && kind == "DaemonSet") || (d.kind == ReplicaSet && kind == "ReplicaSet")
                || (d.kind == Job && kind == "Job"))))
  }

  lemma WorkloadOfDoc(d: Doc, w: Workload)
    ensures AsWorkload(d) == Some(w) <==>
            HasPod(d, w.kind, PodSpec(w.accountName, w.automount)) && w.name == d.name && w.namespace == d.namespace
  {
    if d.Doc? && WorkloadKindName(d.kind).Some? {
      var pod := PodSpecOf(d.kind, d.spec);
      assert pod == PodSpec(pod.accountName, pod.automount);
    }
  }

  ghost predicate SomeDoc<T(!new)>(docs: seq<Doc>, x: T, makes: (Doc, T) -> bool) {
    exists d :: d in docs && makes(d, x)
  }

  predicate IsRole(d: Doc, r: Role) {
    d.Doc? && d.kind == RoleKind && r.name == d.name && r.namespace == d.namespace && r.rules == d.rules
  }

  predicate IsClusterRole(d: Doc, r: Role) {
    d.Doc? && d.kind == ClusterRoleKind && r.name == d.name && r.namespace == None && r.rules == d.rules
  }

  predicate IsRoleBinding(d: Doc, b: Binding) {
    && d.Doc? && d.kind == RoleBindingKind && b.kind == RoleBinding && b.name == d.name && b.namespace == d.namespace
    && b.roleRef == d.roleRef && b.subjects == d.subjects
  }

  predicate IsClusterRoleBinding(d: Doc, b: Binding) {
    && d.Doc? && d.kind == ClusterRoleBindingKind && b.kind == ClusterRoleBinding && b.name == d.name
    && b.namespace == None && b.roleRef == d.roleRef && b.subjects == d.subjects
  }

  predicate IsAccount(d: Doc, a: Account) {
    && d.Doc? && d.kind == ServiceAccountKind && a.name == d.name && a.namespace == d.namespace
    && a.automount == d.automount
  }

  lemma ObjectsOfDocs()
    ensures forall d, r :: AsRole(d) == Some(r) <==> IsRole(d, r)
    ensures forall d, r :: AsClusterRole(d) == Some(r) <==> IsClusterRole(d, r)
    ensures forall d, b :: AsRoleBinding(d) == Some(b) <==> IsRoleBinding(d, b)
    ensures forall d, b :: AsClusterRoleBinding(d) == Some(b) <==> IsClusterRoleBinding(d, b)
    ensures forall d, a :: AsAccount(d) == Some(a) <==> IsAccount(d, a)
  {
  }

  /** The graph's lists hold what the documents of each kind say, and nothing else. */
  lemma GraphByFields(docs: seq<Doc>)
    ensures forall r :: r in GraphOf(docs).roles <==> SomeDoc(docs, r, IsRole)
    ensures forall r :: r in GraphOf(docs).clusterRoles <==> SomeDoc(docs, r, IsClusterRole)
    ensures forall b :: b in GraphOf(docs).roleBindings <==> SomeDoc(docs, b, IsRoleBinding)
    ensures forall b :: b in GraphOf(docs).clusterRoleBindings <==> SomeDoc(docs, b, IsClusterRoleBinding)
    ensures forall a :: a in GraphOf(docs).accounts <==> SomeDoc(docs, a, IsAccount)
  {
    hide Collect, AsRole, AsClusterRole, AsRoleBinding, AsClusterRoleBinding, AsAccount, IsRole, IsClusterRole,
      IsRoleBinding, IsClusterRoleBinding, IsAccount;
    ObjectsOfDocs();
    CollectByPick(docs, AsRole, IsRole);
    CollectByPick(docs, AsClusterRole, IsClusterRole);
    CollectByPick(docs, AsRoleBinding, IsRoleBinding);
    CollectByPick(docs, AsClusterRoleBinding, IsClusterRoleBinding);
    CollectByPick(docs, AsAccount, IsAccount);
  }

  lemma CollectByPick<T(!new)>(docs: seq<Doc>, pick: Doc -> Option<T>, makes: (Doc, T) -> bool)
    requires forall d, x :: pick(d) == Some(x) <==> makes(d, x)
    ensures forall x :: x in Collect(docs, pick) <==> SomeDoc(docs, x, makes)
  {
    CollectMembers(docs, pick);
  }

  /** Each list keeps the order of the documents. */
  lemma {:induction false} ListsKeepOrder<T>(docs: seq<Doc>, pick: Doc -> Option<T>, i: nat, j: nat) returns (p: nat, q: nat)
    requires i < j < |Collect(docs, pick)|
    ensures p < q < |docs|
    ensures pick(docs[p]) == Some(Collect(docs, pick)[i]) && pick(docs[q]) == Some(Collect(docs, pick)[j])
  {
    if j < |Collect(Init(docs), pick)| {
      p, q := ListsKeepOrder(Init(docs), pick, i, j);
    } else {
      p := PickedFrom(Init(docs), pick, i);
      q := |docs| - 1;
    }
  }

  lemma {:induction false} PickedFrom<T>(docs: seq<Doc>, pick: Doc -> Option<T>, i: nat) returns (p: nat)
    requires i < |Collect(docs, pick)|
    ensures p < |docs| && pick(docs[p]) == Some(Collect(docs, pick)[i])
  {
    if i < |Collect(Init(docs), pick)| {
      p := PickedFrom(Init(docs), pick, i);
    } else {
      p := |docs| - 1;
    }
  }

  // ---------------------------------------------------------------------
  // End to end
  // ---------------------------------------------------------------------

  /** The account that a pod of this spec runs as. */
  function AccountOf(pod: PodSpec): Option<string> {
    if pod.accountName == None || pod.accountName == Some("") then Some("default") else pod.accountName
  }

  /** d mounts tokens by an explicit true, and a, an account document of its own namespace and account, says false. */
  ghost predicate MountsAgainst(d: Doc, kind: string, pod: PodSpec, a: Doc) {
    && HasPod(d, kind, pod) && pod.automount == Explicit(true)
    && a.Doc? && a.kind == ServiceAccountKind && a.automount == Explicit(false)
    && a.namespace == d.namespace && a.name == AccountOf(pod)
  }

  function OverrideShown(d: Doc, kind: string, pod: PodSpec, ctx: Context): Rbac.Finding
    requires d.Doc?
  {
    Rbac.Finding(Rbac.TokenAutomount, MEDIUM, None, None, Some(Rbac.AccountRef(d.namespace, AccountOf(pod))),
                 Some(Rbac.WorkloadRef(kind, d.name, d.namespace)), [], RbacByFields.ScoreShown(MEDIUM, ctx))
  }

  ghost predicate DocsCallFor(read: seq<Doc>, f: Rbac.Finding, ctx: Context) {
    exists d: Doc, kind, pod, a :: d.Doc? && IsRead(read, d) && IsRead(read, a) && MountsAgainst(d, kind, pod, a)
                           && f == OverrideShown(d, kind, pod, ctx)
  }

  lemma OverrideByFields(docs: seq<Doc>, d: Doc, a: Doc)
    ensures DocsOverride(docs, d, a) <==>
            d in docs && a in docs && exists kind, pod :: MountsAgainst(d, kind, pod, a)
  {
    hide WorkloadKindName, PodSpecOf, HasPod;
    ObjectsOfDocs();
    if DocsOverride(docs, d, a) {
      var w := AsWorkload(d).value;
      WorkloadOfDoc(d, w);
      assert MountsAgainst(d, w.kind, PodSpec(w.accountName, w.automount), a);
    }
    if kind, pod :| d in docs && a in docs && MountsAgainst(d, kind, pod, a) {
      PodMakesWorkload(d, kind, pod);
    }
  }

  lemma PodMakesWorkload(d: Doc, kind: string, pod: PodSpec)
    requires HasPod(d, kind, pod)
    ensures AsWorkload(d) == Some(Workload(kind, d.name, d.namespace, pod.accountName, pod.automount))
    ensures d.Doc? && PodSpecOf(d.kind, d.spec) == pod
  {
    assert pod == PodSpec(pod.accountName, pod.automount);
    WorkloadOfDoc(d, Workload(kind, d.name, d.namespace, pod.accountName, pod.automount));
  }

  lemma ShownOfDoc(d: Doc, kind: string, pod: PodSpec, ctx: Context)
    requires HasPod(d, kind, pod)
    ensures AsWorkload(d).Some?
    ensures Rbac.AutomountFinding(Rbac.WorkloadRisk(AsWorkload(d).value), ctx) == OverrideShown(d, kind, pod, ctx)
  {
    hide RbacByFields.ScoreShown, HasPod, ContextualScore;
    PodMakesWorkload(d, kind, pod);
    RbacByFields.WorkloadShownByFields(AsWorkload(d).value, ctx);
  }

  /** A workload finding is in the report exactly when the documents as read call for it, accounts being unique. */
  lemma WorkloadReportByFields(read: seq<Doc>, ctx: Context, findings: seq<Rbac.Finding>, f: Rbac.Finding)
    requires DistinctTags(GraphOf(Unwrapped(read)).accounts, Rbac.KeyOfAccount)
    requires IsStableSort(Rbac.ExpectedFindings(GraphOf(Unwrapped(read)), ctx), findings, Rbac.FindingScore)
    requires f.binding.None? && f.workload.Some?
    ensures f in findings <==> DocsCallFor(read, f, ctx)
  {
    hide Rbac.ExpectedFindings, IsStableSort, GraphOf, Unwrapped, IsRead, DocsOverride, MountsAgainst, OverrideShown,
      Rbac.AutomountFinding, Rbac.WorkloadRisk, AsWorkload, HasPod;
    WorkloadFindingsEndToEnd(read, ctx, findings, f);
    var docs := Unwrapped(read);
    forall d ensures d in docs <==> IsRead(read, d) {
      UnwrappedByFields(read, d);
    }
    if k :| DocsShowOverride(docs, k) && f == Rbac.AutomountFinding(k, ctx) {
      var d, a := ShownByDocs(docs, k);
      OverrideByFields(docs, d, a);
      var kind, pod :| MountsAgainst(d, kind, pod, a);
      MountsHasPod(d, kind, pod, a);
      ShownOfDoc(d, kind, pod, ctx);
      assert IsRead(read, d) && IsRead(read, a);
    }
    if DocsCallFor(read, f, ctx) {
      var d: Doc, kind, pod, a :| d.Doc? && IsRead(read, d) && IsRead(read, a) && MountsAgainst(d, kind, pod, a)
                          && f == OverrideShown(d, kind, pod, ctx);
      OverrideByFields(docs, d, a);
      MountsHasPod(d, kind, pod, a);
      ShownOfDoc(d, kind, pod, ctx);
      assert DocsOverride(docs, d, a);
      assert DocsShowOverride(docs, Rbac.WorkloadRisk(AsWorkload(d).value));
    }
  }

  lemma ShownByDocs(docs: seq<Doc>, k: Rbac.AutomountRisk) returns (d: Doc, a: Doc)
    requires DocsShowOverride(docs, k)
    ensures DocsOverride(docs, d, a) && AsWorkload(d).Some? && k == Rbac.WorkloadRisk(AsWorkload(d).value)
  {
    d, a :| DocsOverride(docs, d, a) && k == Rbac.WorkloadRisk(AsWorkload(d).value);
  }

  lemma MountsHasPod(d: Doc, kind: string, pod: PodSpec, a: Doc)
    requires MountsAgainst(d, kind, pod, a)
    ensures HasPod(d, kind, pod) && d.Doc?
  {
  }
}
