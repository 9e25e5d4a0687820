/**
 * The RBAC graph that both engines read, and the role index each of them
 * builds first. An absent key and a null value are one thing to dict.get, so
 * both are None here.
 */
module RbacGraph {
  import opened Sequences

  // The names that the engines look for, one constructor each; Other... carries
  // any other text. "*" is AnyVerb, AnyResource and AnyGroup.

  datatype Verb =
    | AnyVerb | Get | List | Watch | Create | Update | Patch | Delete
    | Escalate | Bind | Impersonate | OtherVerb(text: string)

  datatype ApiGroup =
    | AnyGroup
    | CoreGroup                // ""
    | RbacGroup                // "rbac.authorization.k8s.io"
    | ApiExtensionsGroup       // "apiextensions.k8s.io"
    | StorageGroup             // "storage.k8s.io"
    | SchedulingGroup          // "scheduling.k8s.io"
    | ApiRegistrationGroup     // "apiregistration.k8s.io"
    | CertificatesGroup        // "certificates.k8s.io"
    | AdmissionGroup           // "admissionregistration.k8s.io"
    | NetworkingGroup          // "networking.k8s.io"
    | NodeGroup                // "node.k8s.io"
    | PolicyGroup              // "policy"
    | OtherGroup(text: string)

  /** A slash in the Kubernetes name is left out: PodsExec is "pods/exec". */
  datatype Resource =
    | AnyResource
    | Roles | ClusterRoles | RoleBindings | ClusterRoleBindings
    | Users | Groups | ServiceAccounts | UserExtras | ServiceAccountsToken
    | Pods | PodsExec | PodsAttach | PodsPortforward | Secrets
    | Deployments | DaemonSets | StatefulSets | ReplicaSets | Jobs | CronJobs
    | Nodes | NodesProxy | NodesMetrics | PersistentVolumes | Namespaces
    | CustomResourceDefinitions
    | StorageClasses | VolumeAttachments | CsiDrivers | CsiNodes
    | PriorityClasses | ApiServices
    | CertificateSigningRequests | CertificateSigningRequestsApproval
    | MutatingWebhookConfigurations | ValidatingWebhookConfigurations
    | IngressClasses | RuntimeClasses | PodSecurityPolicies
    | OtherResource(text: string)

  /** A missing or empty apiGroups is "unspecified" to every reader of it. */
  datatype Rule = Rule(verbs: seq<Verb>, resources: seq<Resource>, apiGroups: seq<ApiGroup>)

  predicate Meets<T(==)>(values: seq<T>, wanted: set<T>) {
    exists v :: v in values && v in wanted
  }

  /** any(p(r) for r in rules) */
  predicate AnyRule(rules: seq<Rule>, p: Rule -> bool) {
    exists r :: r in rules && p(r)
  }

  datatype RoleKind = NamespacedRole | ClusterRole | OtherRoleKind(text: Option<string>)
  datatype Role = Role(name: Option<string>, namespace: Option<string>, rules: seq<Rule>)
  datatype RoleRef = RoleRef(kind: RoleKind, name: Option<string>)

  datatype SubjectKind = ServiceAccount | Group | User | OtherSubjectKind(text: Option<string>)
  datatype Subject = Subject(kind: SubjectKind, name: Option<string>, namespace: Option<string>,
                             apiGroup: Option<string>)

  datatype BindingKind = RoleBinding | ClusterRoleBinding
  datatype Binding = Binding(kind: BindingKind, name: Option<string>, namespace: Option<string>,
                             roleRef: RoleRef, subjects: seq<Subject>)

  /** How a finding names a binding. */
  datatype BindingRef = BindingRef(kind: BindingKind, name: Option<string>, namespace: Option<string>)

  function RefOf(b: Binding): BindingRef {
    BindingRef(b.kind, b.name, b.namespace)
  }

  /** automountServiceAccountToken as YAML may give it; Unset is an absent or null value. */
  datatype Automount = Unset | Explicit(value: bool) | NotABoolean(text: string)
  datatype Account = Account(name: Option<string>, namespace: Option<string>, automount: Automount)
  datatype Workload = Workload(kind: string, name: Option<string>, namespace: Option<string>,
                               accountName: Option<string>, automount: Automount)

  datatype Graph = Graph(roles: seq<Role>, clusterRoles: seq<Role>,
                         roleBindings: seq<Binding>, clusterRoleBindings: seq<Binding>,
                         accounts: seq<Account>, workloads: seq<Workload>)

  const EMPTY_GRAPH := Graph([], [], [], [], [], [])

  /** {**b, "binding_kind": kind} for every b. */
  function Tagged(bindings: seq<Binding>, kind: BindingKind): (r: seq<Binding>)
    ensures |r| == |bindings|
    ensures forall i :: 0 <= i < |r| ==> r[i] == bindings[i].(kind := kind)
  {
    if bindings == [] then [] else Tagged(Init(bindings), kind) + [Last(bindings).(kind := kind)]
  }

  function AllBindings(g: Graph): seq<Binding> {
    Tagged(g.roleBindings, RoleBinding) + Tagged(g.clusterRoleBindings, ClusterRoleBinding)
  }

  // ---------------------------------------------------------------------
  // Role lookup
  // ---------------------------------------------------------------------

  datatype RoleKey = RoleKey(kind: RoleKind, namespace: Option<string>, name: Option<string>)

  function KeyOfRole(kind: RoleKind, role: Role): RoleKey {
    RoleKey(kind, if kind == NamespacedRole then role.namespace else None, role.name)
  }

  /** The key a binding's roleRef looks up. */
  function KeyOfRef(b: Binding): RoleKey {
    RoleKey(b.roleRef.kind, if b.roleRef.kind == NamespacedRole then b.namespace else None, b.roleRef.name)
  }

  /** Python truthiness of a name. */
  predicate Truthy(name: Option<string>) {
    name.Some? && name.value != ""
  }

  predicate Indexable(role: Role, namedOnly: bool) {
    namedOnly ==> Truthy(role.name)
  }

  predicate Matches(role: Role, kind: RoleKind, key: RoleKey, namedOnly: bool) {
    KeyOfRole(kind, role) == key && Indexable(role, namedOnly)
  }

  function Lookup(index: map<RoleKey, Role>, key: RoleKey): Option<Role> {
    if key in index then Some(index[key]) else None
  }

  /** A scan of the list: the last role in it that has this key. */
  function LastWithKey(roles: seq<Role>, kind: RoleKind, key: RoleKey, namedOnly: bool): Option<Role> {
    if roles == [] then None
    else if Matches(Last(roles), kind, key, namedOnly) then Some(Last(roles))
    else LastWithKey(Init(roles), kind, key, namedOnly)
  }

  /** The role a reference means, found without any index. */
  function FindRole(g: Graph, key: RoleKey, namedOnly: bool): Option<Role> {
    OrElse(LastWithKey(g.clusterRoles, ClusterRole, key, namedOnly),
           LastWithKey(g.roles, NamespacedRole, key, namedOnly))
  }

  function RulesOf(g: Graph, b: Binding, namedOnly: bool): seq<Rule> {
    match FindRole(g, KeyOfRef(b), namedOnly)
    case Some(role) => role.rules
    case None => []
  }

  /** Whoever comes last under a key hides everybody before it; -1 when nobody has the key. */
  lemma {:induction false} LastWithKeyIsLast(roles: seq<Role>, kind: RoleKind, key: RoleKey, namedOnly: bool)
    returns (i: int)
    ensures -1 <= i < |roles|
    ensures LastWithKey(roles, kind, key, namedOnly) == if i == -1 then None else Some(roles[i])
    ensures i >= 0 ==> Matches(roles[i], kind, key, namedOnly)
    ensures forall j :: i < j < |roles| ==> !Matches(roles[j], kind, key, namedOnly)
  {
    if roles == [] {
      i := -1;
    } else if Matches(Last(roles), kind, key, namedOnly) {
      i := |roles| - 1;
    } else {
      i := LastWithKeyIsLast(Init(roles), kind, key, namedOnly);
    }
  }

  /** The index loops that open both engines; the combo engine leaves unnamed roles out. */
  method IndexRoles(g: Graph, namedOnly: bool) returns (index: map<RoleKey, Role>)
    ensures forall key :: Lookup(index, key) == FindRole(g, key, namedOnly)
  {
    index := AddRoles(map[], g.roles, NamespacedRole, namedOnly);
    index := AddRoles(index, g.clusterRoles, ClusterRole, namedOnly);
  }

  method AddRoles(index0: map<RoleKey, Role>, roles: seq<Role>, kind: RoleKind, namedOnly: bool)
    returns (index: map<RoleKey, Role>)
    ensures forall key :: Lookup(index, key) == OrElse(LastWithKey(roles, kind, key, namedOnly), Lookup(index0, key))
  {
    index := index0;
    for i := 0 to |roles|
      invariant forall key ::
        Lookup(index, key) == OrElse(LastWithKey(roles[..i], kind, key, namedOnly), Lookup(index0, key))
    {
      InitOfPrefix(roles, i);
      if Indexable(roles[i], namedOnly) {
        index := index[KeyOfRole(kind, roles[i]) := roles[i]];
      }
    }
    assert roles[..|roles|] == roles;
  }
}
