/** The two RBAC engines read one graph; this is where their verdicts must agree. */
module CrossEngine {
  import opened Sequences
  import opened RbacGraph
  import opened Scoring
  import EA = EffectiveAccess
  import EALaws = EffectiveAccessLaws
  import Rbac = RbacService
  import RbacLaws = RbacServiceLaws

  /** A rule that makes a role "privileged" for the combination engine is a risk for the per-role engine. */
  lemma PrivilegedRuleIsRisky(r: Rule)
    requires EA.PrivilegedRule(r)
    ensures Rbac.IsWildcardOpen(r) || Rbac.GrantsSecretsAccess(r) || Rbac.GrantsEscalationVerbs(r)
         || Rbac.GrantsExecAttach(r)
  {
    if !Rbac.IsWildcardOpen(r) && !Rbac.GrantsEscalationVerbs(r) {
      if Meets(r.verbs, {Get, List, Watch}) && EA.HasResource(r, CoreGroup, {Secrets}) {
        assert Meets(r.resources, {Secrets});
      }
    }
  }

  lemma OneRuleIsEnough(rules: seq<Rule>, isClusterScoped: bool, r: Rule, t: Rbac.RuleType)
    requires r in rules && RbacLaws.IsRoleRuleType(t) && Rbac.InScope(t, isClusterScoped) && Rbac.CheckOf(t)(r)
    ensures RbacLaws.HasType(Rbac.RoleRisks(rules, isClusterScoped), t)
  {
    hide Rbac.CheckOf, Rbac.RoleRisks;
    RbacLaws.RoleRiskTypes(rules, isClusterScoped, t);
    assert AnyRule(rules, Rbac.CheckOf(t));
  }

  /** _role_is_privileged implies a wildcard, secrets, escalation-verb or exec risk on the same rules, in either scope. */
  lemma {:induction false} PrivilegedRoleIsRisky(rules: seq<Rule>, isClusterScoped: bool)
    requires AnyRule(rules, EA.PrivilegedRule)
    ensures var risks := Rbac.RoleRisks(rules, isClusterScoped);
            || RbacLaws.HasType(risks, Rbac.WildcardPermissions)
            || RbacLaws.HasType(risks, Rbac.BroadSecretsAccess)
            || RbacLaws.HasType(risks, Rbac.PrivilegeEscalationVerbs)
            || RbacLaws.HasType(risks, Rbac.ExecAttachGrant)
  {
    hide Rbac.RoleRisks, Rbac.IsWildcardOpen, Rbac.GrantsSecretsAccess, Rbac.GrantsEscalationVerbs,
      Rbac.GrantsExecAttach, EA.PrivilegedRule;
    var r :| r in rules && EA.PrivilegedRule(r);
    PrivilegedRuleIsRisky(r);
    if Rbac.IsWildcardOpen(r) {
      OneRuleIsEnough(rules, isClusterScoped, r, Rbac.WildcardPermissions);
    } else if Rbac.GrantsSecretsAccess(r) {
      OneRuleIsEnough(rules, isClusterScoped, r, Rbac.BroadSecretsAccess);
    } else if Rbac.GrantsEscalationVerbs(r) {
      OneRuleIsEnough(rules, isClusterScoped, r, Rbac.PrivilegeEscalationVerbs);
    } else {
      OneRuleIsEnough(rules, isClusterScoped, r, Rbac.ExecAttachGrant);
    }
  }

  // ---------------------------------------------------------------------
  // Every combination shows up, in part, in the per-role report
  // ---------------------------------------------------------------------

  /** Under a key with a name, leaving unnamed roles out of the index changes nothing. */
  lemma {:induction false} NamedKeysAgree(roles: seq<Role>, kind: RoleKind, key: RoleKey)
    requires Truthy(key.name)
    ensures LastWithKey(roles, kind, key, true) == LastWithKey(roles, kind, key, false)
  {
    if roles != [] {
      NamedKeysAgree(Init(roles), kind, key);
    }
  }

  lemma {:induction false} FoundKeysAreNamed(roles: seq<Role>, kind: RoleKind, key: RoleKey)
    ensures LastWithKey(roles, kind, key, true).Some? ==> Truthy(key.name)
  {
    if roles != [] {
      FoundKeysAreNamed(Init(roles), kind, key);
    }
  }

  /** What the combination engine resolves, the per-role engine resolves to the same role. */
  lemma SameResolution(g: Graph, key: RoleKey)
    requires FindRole(g, key, true).Some?
    ensures FindRole(g, key, false) == FindRole(g, key, true)
  {
    FoundKeysAreNamed(g.clusterRoles, ClusterRole, key);
    FoundKeysAreNamed(g.roles, NamespacedRole, key);
    NamedKeysAgree(g.clusterRoles, ClusterRole, key);
    NamedKeysAgree(g.roles, NamespacedRole, key);
  }

  /** A rule that takes part in a combination: each combination needs one of these. */
  predicate TakesPart(r: Rule) {
    EA.Escalates(r) || EA.Binds(r) || EA.Impersonates(r) || EA.CreatesPods(r)
  }

  lemma TakingPartIsRisky(r: Rule)
    requires TakesPart(r)
    ensures Rbac.IsWildcardOpen(r) || Rbac.GrantsEscalationVerbs(r) || Rbac.GrantsWorkloadCreation(r)
  {
    if EA.CreatesPods(r) && !Rbac.IsWildcardOpen(r) {
      assert Meets(r.resources, {Pods});
    }
  }

  lemma GrantedTakesPart(g: Graph, key: EA.SubjectKey, p: Rule -> bool)
    requires EA.Grants(g, key, p) && forall r :: p(r) ==> TakesPart(r)
    ensures EA.Grants(g, key, TakesPart)
  {
    hide TakesPart;
    var b, r :| b in AllBindings(g) && EA.Names(b, key) && r in RulesOf(g, b, true) && p(r);
    assert TakesPart(r);
  }

  lemma CombosNeedATakingPart(g: Graph, key: EA.SubjectKey, c: EA.Combo)
    requires EA.ComboHolds(g, key, c)
    ensures EA.Grants(g, key, TakesPart)
  {
    hide EA.Grants, EA.Escalates, EA.Binds, EA.Impersonates, EA.CreatesPods;
    match c
    case RoleEscalation => GrantedTakesPart(g, key, EA.Escalates);
    case BindEscalation => GrantedTakesPart(g, key, EA.Binds);
    case ImpersonationGrant => GrantedTakesPart(g, key, EA.Impersonates);
    case PrivilegedPodCreation => GrantedTakesPart(g, key, EA.CreatesPods);
  }

  lemma TakingPartIsARisk(g: Graph, b: Binding, r: Rule) returns (t: Rbac.RuleType)
    requires r in RulesOf(g, b, true) && TakesPart(r) && !Rbac.Suppressed(b)
    ensures RbacLaws.RiskHolds(g, b, t)
  {
    hide Rbac.IsWildcardOpen, Rbac.GrantsEscalationVerbs, Rbac.GrantsWorkloadCreation, TakesPart, Rbac.Suppressed;
    SameResolution(g, KeyOfRef(b));
    TakingPartIsRisky(r);
    t := if Rbac.IsWildcardOpen(r) then Rbac.WildcardPermissions
         else if Rbac.GrantsEscalationVerbs(r) then Rbac.PrivilegeEscalationVerbs
         else Rbac.WorkloadCreation;
    assert AnyRule(FindRole(g, KeyOfRef(b), false).value.rules, Rbac.CheckOf(t));
  }

  /** A binding that names a service account is never suppressed for its subjects, only for its role. */
  lemma AccountsAreNotSuppressed(b: Binding, key: EA.SubjectKey)
    requires EA.Names(b, key) && key.kind == ServiceAccount && !Rbac.IsBuiltinRole(b.roleRef.name)
    ensures !Rbac.Suppressed(b)
  {
    hide Rbac.IsBuiltinRole;
    var s :| s in b.subjects && EA.KeyOf(s) == key;
    assert !Rbac.IsBuiltinSubject(s);
  }

  /**
   * A combination on a service account that no built-in role is bound to is
   * never news: the per-role report has a finding on a binding naming it.
   */
  lemma CombosAreBackedByRoleFindings(
    g: Graph, ctx: Context, combos: seq<EA.ComboFinding>, findings: seq<Rbac.Finding>, f: EA.ComboFinding)
    requires IsStableSort(EA.ExpectedFindings(g, ctx), combos, EA.ComboScore)
    requires IsStableSort(Rbac.ExpectedFindings(g, ctx), findings, Rbac.FindingScore)
    requires f in combos && f.subject.kind == ServiceAccount
    requires forall b :: b in AllBindings(g) && EA.Names(b, EA.KeyOf(f.subject)) ==>
               !Rbac.IsBuiltinRole(b.roleRef.name)
    ensures exists b, t :: b in AllBindings(g) && EA.Names(b, EA.KeyOf(f.subject))
              && Rbac.BindingFinding(b, RbacLaws.RiskOf(b, t), ctx) in findings
  {
    hide Rbac.BindingFinding, Rbac.IsBuiltinRole, Rbac.Suppressed, EA.ComboHolds, TakesPart, RbacLaws.RiskHolds,
      IsStableSort;
    var key := EA.KeyOf(f.subject);
    EALaws.ReportedExactlyOnce(g, ctx, combos);
    assert EALaws.Reports(combos, key, f.combo);
    CombosNeedATakingPart(g, key, f.combo);
    var b, r :| b in AllBindings(g) && EA.Names(b, key) && r in RulesOf(g, b, true) && TakesPart(r);
    AccountsAreNotSuppressed(b, key);
    var t := TakingPartIsARisk(g, b, r);
    RbacLaws.RisksAreReported(g, ctx, findings, b, t);
  }
}
