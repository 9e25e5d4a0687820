/** What a binding's role reference means, said of the graph's own fields. */
module GraphByFields {
  import opened Sequences
  import opened RbacGraph

  /** The last of the roles with this name and namespace. */
  ghost predicate LastOfName(roles: seq<Role>, name: Option<string>, namespace: Option<string>, role: Role) {
    exists i :: 0 <= i < |roles| && roles[i] == role && role.name == name && role.namespace == namespace
      && forall j :: i < j < |roles| ==> roles[j].name != name || roles[j].namespace != namespace
  }

  /** The last of the cluster roles with this name, whatever namespace they carry. */
  ghost predicate LastClusterRole(roles: seq<Role>, name: Option<string>, role: Role) {
    exists i :: 0 <= i < |roles| && roles[i] == role && role.name == name
      && forall j :: i < j < |roles| ==> roles[j].name != name
  }

  ghost predicate RefersTo(g: Graph, b: Binding, role: Role) {
    || (b.roleRef.kind == NamespacedRole && LastOfName(g.roles, b.roleRef.name, b.namespace, role))
    || (b.roleRef.kind == ClusterRole && LastClusterRole(g.clusterRoles, b.roleRef.name, role))
  }

  /** Roles without a name, or with an empty one, may be left out. */
  predicate CountsAs(role: Role, namedOnly: bool) {
    namedOnly ==> role.name.Some? && role.name.value != ""
  }

  lemma NamespacedByFields(roles: seq<Role>, name: Option<string>, namespace: Option<string>, role: Role, namedOnly: bool)
    ensures LastWithKey(roles, NamespacedRole, RoleKey(NamespacedRole, namespace, name), namedOnly) == Some(role)
       <==> LastOfName(roles, name, namespace, role) && CountsAs(role, namedOnly)
  {
    var key := RoleKey(NamespacedRole, namespace, name);
    var i := LastWithKeyIsLast(roles, NamespacedRole, key, namedOnly);
    assert forall j :: 0 <= j < |roles| ==>
      (Matches(roles[j], NamespacedRole, key, namedOnly) <==>
       roles[j].name == name && roles[j].namespace == namespace && CountsAs(roles[j], namedOnly));
    if i >= 0 {
      assert LastOfName(roles, name, namespace, roles[i]);
    }
  }

  lemma ClusterByFields(roles: seq<Role>, name: Option<string>, role: Role, namedOnly: bool)
    ensures LastWithKey(roles, ClusterRole, RoleKey(ClusterRole, None, name), namedOnly) == Some(role)
       <==> LastClusterRole(roles, name, role) && CountsAs(role, namedOnly)
  {
    var key := RoleKey(ClusterRole, None, name);
    var i := LastWithKeyIsLast(roles, ClusterRole, key, namedOnly);
    assert forall j :: 0 <= j < |roles| ==>
      (Matches(roles[j], ClusterRole, key, namedOnly) <==> roles[j].name == name && CountsAs(roles[j], namedOnly));
    if i >= 0 {
      assert LastClusterRole(roles, name, roles[i]);
    }
  }

  lemma {:induction false} KindOfKey(roles: seq<Role>, kind: RoleKind, key: RoleKey, namedOnly: bool)
    ensures LastWithKey(roles, kind, key, namedOnly).Some? ==> key.kind == kind
  {
    if roles != [] {
      KindOfKey(Init(roles), kind, key, namedOnly);
    }
  }

  /** The role index of either engine finds the role that the fields say. */
  lemma ResolvesByFields(g: Graph, b: Binding, role: Role, namedOnly: bool)
    ensures FindRole(g, KeyOfRef(b), namedOnly) == Some(role) <==> RefersTo(g, b, role) && CountsAs(role, namedOnly)
  {
    hide LastWithKey, LastOfName, LastClusterRole;
    var key := KeyOfRef(b);
    KindOfKey(g.roles, NamespacedRole, key, namedOnly);
    KindOfKey(g.clusterRoles, ClusterRole, key, namedOnly);
    NamespacedByFields(g.roles, b.roleRef.name, b.namespace, role, namedOnly);
    ClusterByFields(g.clusterRoles, b.roleRef.name, role, namedOnly);
  }

  /** A binding is read with the kind of the list that holds it. */
  ghost predicate IsBinding(g: Graph, b: Binding) {
    || (b.kind == RoleBinding && exists d :: d in g.roleBindings && SameButKind(b, d))
    || (b.kind == ClusterRoleBinding && exists d :: d in g.clusterRoleBindings && SameButKind(b, d))
  }

  predicate SameButKind(b: Binding, d: Binding) {
    && b.name == d.name && b.namespace == d.namespace
    && b.roleRef == d.roleRef && b.subjects == d.subjects
  }

  lemma {:induction false} TaggedByFields(bindings: seq<Binding>, kind: BindingKind, b: Binding)
    ensures b in Tagged(bindings, kind) <==> b.kind == kind && exists d :: d in bindings && SameButKind(b, d)
  {
    if bindings != [] {
      var l := Last(bindings);
      TaggedByFields(Init(bindings), kind, b);
      assert b == l.(kind := kind) <==> b.kind == kind && SameButKind(b, l);
      assert Tagged(bindings, kind) == Tagged(Init(bindings), kind) + [l.(kind := kind)];
      assert forall d :: d in bindings <==> d in Init(bindings) || d == Last(bindings);
    }
  }

  lemma BindingsByFields(g: Graph, b: Binding)
    ensures b in AllBindings(g) <==> IsBinding(g, b)
  {
    TaggedByFields(g.roleBindings, RoleBinding, b);
    TaggedByFields(g.clusterRoleBindings, ClusterRoleBinding, b);
  }

  lemma {:induction false} TaggedInOrder(bindings: seq<Binding>, kind: BindingKind)
    ensures |Tagged(bindings, kind)| == |bindings|
    ensures forall i :: 0 <= i < |bindings| ==>
              Tagged(bindings, kind)[i].kind == kind && SameButKind(Tagged(bindings, kind)[i], bindings[i])
  {
    if bindings != [] {
      TaggedInOrder(Init(bindings), kind);
    }
  }

  /** Bindings are read in order, those of roles before those of cluster roles. */
  lemma BindingsInOrder(g: Graph, i: nat)
    requires i < |g.roleBindings| + |g.clusterRoleBindings|
    ensures |AllBindings(g)| == |g.roleBindings| + |g.clusterRoleBindings|
    ensures AllBindings(g)[i].kind == if i < |g.roleBindings| then RoleBinding else ClusterRoleBinding
    ensures SameButKind(AllBindings(g)[i],
                        if i < |g.roleBindings| then g.roleBindings[i] else g.clusterRoleBindings[i - |g.roleBindings|])
  {
    hide Tagged, SameButKind;
    TaggedInOrder(g.roleBindings, RoleBinding);
    TaggedInOrder(g.clusterRoleBindings, ClusterRoleBinding);
  }
}
