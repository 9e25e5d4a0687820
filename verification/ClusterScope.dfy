/** Cluster-scoped resources and the groups they belong to, against the table of the per-role engine. */
module ClusterScope {
  import opened Sequences
  import opened RbacGraph
  import opened RbacService

  /** The resource exists outside namespaces, in this group. */
  predicate BelongsTo(x: Resource, group: ApiGroup) {
    || (group == CoreGroup
        && (x == Nodes || x == NodesProxy || x == NodesMetrics || x == PersistentVolumes || x == Namespaces))
    || (group == RbacGroup && (x == ClusterRoles || x == ClusterRoleBindings))
    || (group == ApiExtensionsGroup && x == CustomResourceDefinitions)
    || (group == StorageGroup && (x == StorageClasses || x == VolumeAttachments || x == CsiDrivers || x == CsiNodes))
    || (group == SchedulingGroup && x == PriorityClasses)
    || (group == ApiRegistrationGroup && x == ApiServices)
    || (group == CertificatesGroup && x == CertificateSigningRequests)
    || (group == AdmissionGroup && (x == MutatingWebhookConfigurations || x == ValidatingWebhookConfigurations))
    || (group == NetworkingGroup && x == IngressClasses)
    || (group == NodeGroup && x == RuntimeClasses)
    || (group == PolicyGroup && x == PodSecurityPolicies)
  }

  lemma InCoreGroup(x: Resource)
    ensures x in ClusterScopedIn(CoreGroup) <==> BelongsTo(x, CoreGroup)
  {
  }

  lemma InRbacGroup(x: Resource)
    ensures x in ClusterScopedIn(RbacGroup) <==> BelongsTo(x, RbacGroup)
  {
  }

  lemma InStorageGroup(x: Resource)
    ensures x in ClusterScopedIn(StorageGroup) <==> BelongsTo(x, StorageGroup)
  {
  }

  lemma InAdmissionGroup(x: Resource)
    ensures x in ClusterScopedIn(AdmissionGroup) <==> BelongsTo(x, AdmissionGroup)
  {
  }

  lemma InSmallGroup(x: Resource, group: ApiGroup)
    requires group != CoreGroup && group != RbacGroup && group != StorageGroup && group != AdmissionGroup
    ensures x in ClusterScopedIn(group) <==> BelongsTo(x, group)
  {
  }

  lemma ClusterScopedByFields(x: Resource, group: ApiGroup)
    ensures x in ClusterScopedIn(group) <==> BelongsTo(x, group)
  {
    hide ClusterScopedIn, BelongsTo;
    if group == CoreGroup {
      InCoreGroup(x);
    } else if group == RbacGroup {
      InRbacGroup(x);
    } else if group == StorageGroup {
      InStorageGroup(x);
    } else if group == AdmissionGroup {
      InAdmissionGroup(x);
    } else {
      InSmallGroup(x, group);
    }
  }

  lemma GroupsAreListed(x: Resource, group: ApiGroup)
    requires BelongsTo(x, group)
    ensures group in CLUSTER_SCOPED_GROUPS
  {
    var k := match group
      case CoreGroup => 0
      case RbacGroup => 1
      case ApiExtensionsGroup => 2
      case StorageGroup => 3
      case SchedulingGroup => 4
      case ApiRegistrationGroup => 5
      case CertificatesGroup => 6
      case AdmissionGroup => 7
      case NetworkingGroup => 8
      case NodeGroup => 9
      case _ => 10;
    assert CLUSTER_SCOPED_GROUPS[k] == group;
  }
}
