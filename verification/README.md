# Verified model of the control plane's decision core

A Dafny model of the parts of `control-plane/app` that turn RBAC graphs, CVE
feeds, scanner reports, manifests and audit logs into findings, with proofs of
what those findings mean. Code that loops over lists and dicts is a method with
loops, proved against a declarative specification; the feed store is a class
with `modifies` clauses and, beside it, a transition system over interleaved
sessions; `score_report` works on an array in place. `dafny verify
dfyconfig.toml` checks all of it.

Each main operation is specified twice: by the declarative functions that its
method refines, and, in the modules and lemmas named "by fields" or "by text",
by its inputs' own fields, naming none of the helpers that the method and its
specification share.

How the files hang together:

- `Sequences`: the dict key order and the stable descending sort that every
  engine ends with. `IsStableSort` has exactly one result, so a contract that
  says "a stable sort of what the graph calls for" fixes the whole report.
- `Scoring`: the Contextual Risk Score over exact rationals.
- `RbacGraph`, `GraphByFields`, `EffectiveAccess`, `EffectiveAccessLaws`,
  `EffectiveAccessByFields`: the combination engine (role index, inverted
  subject index, flattening, privileged namespaces) against a naive scan over
  all bindings, subjects, roles and rules, and the growth, order and frame laws
  of its reports.
- `RbacService`, `RbacServiceLaws`, `RbacByFields`, `ClusterScope`,
  `CrossEngine`, `ScanDiff`: the per-role engine, its exactness, its agreement
  with the combination engine, and the scan diff as a patch.
- `Semver`, `OsvRanges`, `OsvEvaluation`, `OsvExactness`, `OsvItems`,
  `OsvToReport`, `CveMatching`, `CveByFields`: version text, the translation of
  OSV events to ranges, the evaluation algorithm of the OSV schema on sorted
  events, when the two agree, set-based matching in any iteration order, and the
  way from an OSV document to the report.
- `FeedStore`, `FeedRuns`: the feed tables, and every run of interleaved
  sessions on them.
- `SchemaInline`, `AuditIngest`, `ImageReports`, `ImageByFields`, `Manifests`,
  `ManifestsByFields`, `Exporters`, `RequestLimits`: reference inlining, audit
  usage, Trivy and Grype reports, manifests to graph to automount findings,
  PolicyReport and SARIF output, and the bounded body reader.

Places where the code is not what its comments or intended use suggest; the
model follows the code and says exactly when it matters:

- `_parse_osv_affected` keeps one range per `fixed` event and reads the loop
  variable `introduced` after its loops. It raises exactly when the first
  `affected` item has no ranges, and a later item without ranges inherits what
  an earlier item left behind (`OsvRanges.RangelessItemsInherit`). An open range
  beside anything fixed is dropped (`OsvItems.OpenRangeIsLost`). For ranges that
  fix each introduced event at once or never, `OsvItems.NeverMissesExactly` and
  `OsvItems.ItemIsExactWhen` give the exact condition; for any other item
  `OsvItems.DecidedByNamedVersions` reduces the question to finitely many
  versions.
- Pre-releases are read as their release; `Semver.OrdersAgreeExactly` and
  `Semver.PrereleaseRangesExactly` say where that differs from Semantic
  Versioning.
- `_finding_key` ignores namespaces, so findings can share a key
  (`ScanDiff.KeysCollapseFindings`) and one that moves to another namespace is
  "unchanged" (`ScanDiff.MovesAreInvisible`); `ScanDiff.ShowsNothingExactly`
  says when a diff is silent.
- `MAX_CONTEXTUAL_SCORE` caps severity-band scores only;
  `Scoring.CvssCanExceedTheCap` says from which CVSS score on it does not hold.
- The `batch/v1` branch of `_finding_target` is never taken
  (`Exporters.NothingIsBatch`).
- An account can have a finding of its own and one for being overridden;
  `Manifests.ReportedTwiceExactly` says which accounts do.
- An inventory version with a dash or a leading "v" never equals a listed one
  (`CveByFields.OthersAreNotListed`).
- Resources that contain a slash can fold onto others
  (`AuditIngest.FoldsAlikeExactly`).
- Sessions do not flush by themselves (`control-plane/app/database.py:10`), so
  the seeding transaction does not see its own inserts
  (`FeedStore.FeedTables.SeedDefaults`).

## Model

| member | source | states |
|---|---|---|
| Sequences.StableSortUnique | control-plane/app/effective_access.py:412 | a stable descending sort has exactly one result, so every report below is fixed by its contract |
| Sequences.StableSortIsStable | control-plane/app/rbac_service.py:528 | an insertion sort by descending score is descending and keeps the order of equal scores |
| Sequences.StableSortKeepsElements | control-plane/app/cve_service.py:567 | whatever sorts stably by score loses and invents nothing |
| Scoring.ScoreBounds | control-plane/app/scoring.py:44-56 | every context scales a base by a factor from 0.4 to 4.095, and a severity-band score stays under the cap |
| Scoring.BoundsAreTight | control-plane/app/scoring.py:14-24 | both ends of that interval are reached |
| Scoring.CvssCanExceedTheCap | control-plane/app/scoring.py:18-24 | some context takes a rounded score past the cap exactly when the base is above 3890.5/409.5; never for a severity band |
| Scoring.ScoreMonotoneInBase | control-plane/app/scoring.py:44-65 | for one context, rounded scores are monotone in the base |
| Scoring.ContextsNeverReverseARanking | control-plane/app/scoring.py:34-65 | no two contexts rank two findings in strictly opposite order |
| Scoring.NormalisingKeepsScores | control-plane/app/scoring.py:44 | an unlisted severity scores like UNKNOWN |
| Scoring.FactorsAreInTheTables | control-plane/app/scoring.py:13-54 | every factor is its table's entry, with the defaults for missing keys and 1.0 for unlisted ones |
| Scoring.CapIsTheGreatestProduct | control-plane/app/scoring.py:18-24 | the cap is the product of the greatest entries |
| Scoring.ScoreIsTheRoundedProduct | control-plane/app/scoring.py:56-65 | a score is the number of two digits nearest to base times weights, even on a tie |
| RbacGraph.IndexRoles | control-plane/app/effective_access.py:337-343 | looking a key up in the index finds the role that a scan of both lists finds |
| RbacGraph.LastWithKeyIsLast | control-plane/app/rbac_service.py:440-444 | under a repeated key the last role hides all before it |
| GraphByFields.ResolvesByFields | control-plane/app/rbac_service.py:440-456 | in both engines a reference means the last role of its name, and of the binding's namespace when it names a namespaced role; the combination engine wants the name non-empty |
| GraphByFields.BindingsByFields | control-plane/app/effective_access.py:345-348 | the bindings read are those of the two lists, each with the kind of its list |
| GraphByFields.BindingsInOrder | control-plane/app/rbac_service.py:446-449 | in order, those of roles before those of cluster roles |
| EffectiveAccess.FlattenRules | control-plane/app/effective_access.py:202-222 | a rule is in the flattened list exactly when some given binding resolves to a role holding it |
| EffectiveAccess.FlattenedMeansGranted | control-plane/app/effective_access.py:202-222 | a check on a subject's flattened rules says what a scan over bindings, subjects, roles and rules says |
| EffectiveAccess.BuildPrivilegedNamespaces | control-plane/app/effective_access.py:271-317 | a namespace is recorded exactly when some binding gives a privileged role to a non-default ServiceAccount with that concrete namespace |
| EffectiveAccess.GroupBySubject | control-plane/app/effective_access.py:353-358 | the inverted index has one key per mentioned subject, in order of first mention, holding the bindings naming it, once per mention |
| EffectiveAccess.FirstMentionIsInFirstBinding | control-plane/app/effective_access.py:362-368 | the first binding of a group names the subject, so the search for a representative always succeeds and finds the first mention |
| EffectiveAccess.FiresIffHolds | control-plane/app/effective_access.py:370-384 | each of the four predicates on the indexed data holds exactly when the quantified combination holds of the graph |
| EffectiveAccess.EvaluateCombos | control-plane/app/effective_access.py:379-410 | the findings of one subject are its holding combinations, in order, none when it has no rules |
| EffectiveAccess.EvaluateSubject | control-plane/app/effective_access.py:360-410 | one round of the loop appends exactly the findings the naive scan calls for under that key |
| EffectiveAccess.EvaluateComboFindings | control-plane/app/effective_access.py:322-413 | the report is the stable sort by score of what the naive scan calls for |
| EffectiveAccessLaws.ReportedExactlyOnce | control-plane/app/effective_access.py:322-413 | each (subject, combination) is reported when the quantified specification holds and only then, and never twice |
| EffectiveAccessLaws.RepresentativeHasTheKey | control-plane/app/effective_access.py:360-407 | a finding shows the first mention of its subject under that subject's key, and all bindings naming it, in order |
| EffectiveAccessLaws.ComboMonotone | control-plane/app/effective_access.py:66-195 | a graph that extends another keeps every combination of every subject |
| EffectiveAccessLaws.MoreBindingsExtend | control-plane/app/effective_access.py:345-348 | adding bindings of either kind, anywhere, extends the graph |
| EffectiveAccessLaws.FreshRoleExtends | control-plane/app/effective_access.py:337-340 | so does a namespaced role under a key nobody had, at any place |
| EffectiveAccessLaws.FreshClusterRoleExtends | control-plane/app/effective_access.py:341-343 | so does a cluster role under a key nobody had |
| EffectiveAccessLaws.MoreRulesExtend | control-plane/app/effective_access.py:202-222 | so do further rules in a role |
| EffectiveAccessLaws.MoreClusterRulesExtend | control-plane/app/effective_access.py:202-222 | so do further rules in a cluster role |
| EffectiveAccessLaws.ReportsGrow | control-plane/app/effective_access.py:322-413 | a graph that grows never loses a reported (subject, combination) pair |
| EffectiveAccessLaws.BindingOrderIsIrrelevant | control-plane/app/effective_access.py:345-358 | permuting the bindings leaves the reported pairs as they are |
| EffectiveAccessLaws.OtherBindingsAreIrrelevant | control-plane/app/effective_access.py:353-384 | bindings that do not name a subject change none of its three combinations other than pod creation |
| EffectiveAccessByFields.ReportedByFields | control-plane/app/effective_access.py:36-195 | a (subject, combination) pair is in the report exactly when bindings, references, verbs, resources and groups of the graph say so, wildcards and unspecified groups included; no check of the engine is named |
| EffectiveAccessByFields.FindingByFields | control-plane/app/effective_access.py:390-409 | a finding's severity, score and bindings, by fields |
| EffectiveAccessByFields.HoldsByFields | control-plane/app/effective_access.py:246-317 | the four combinations and privileged namespaces, spelled out over fields |
| EffectiveAccessByFields.SubjectInOrder | control-plane/app/effective_access.py:379-384 | the combinations of one subject come in the engine's order |
| EffectiveAccessByFields.WiderRulesKeepReports | control-plane/app/effective_access.py:36-53 | widening rules never removes a reported pair |
| EffectiveAccessByFields.WiderRuleWidens | control-plane/app/effective_access.py:36-53 | a wider rule in any role or cluster role widens the graph |
| EffectiveAccessByFields.WildcardsWiden | control-plane/app/effective_access.py:36-53 | a wildcard put into verbs, resources, or a non-empty group list widens a rule |
| RbacService.EvaluateRoleRisks | control-plane/app/rbac_service.py:247-356 | the chain of checks yields the declarative list of risks, in order, with the severity each has in its scope |
| RbacServiceLaws.RoleRisksAreExact | control-plane/app/rbac_service.py:247-356 | a role's risks are exactly those some rule carries in that scope, each once, in the engine's order |
| RbacServiceLaws.RiskTypesOfUnion | control-plane/app/rbac_service.py:247-356 | the risk types of two rule lists together are the union of those of each |
| RbacServiceLaws.RuleOrderIsIrrelevant | control-plane/app/rbac_service.py:247-356 | order and repetition of rules never change the risks |
| RbacService.EvaluateBindingRisks | control-plane/app/rbac_service.py:468-487 | the role's risks, then cluster-admin, broad-subject and segmentation risks as the binding and its role give rise to them |
| RbacServiceLaws.RisksOfBinding | control-plane/app/rbac_service.py:451-487 | a binding has a risk exactly when it resolves, is not suppressed and the risk's condition holds, each at most once |
| RbacService.EvaluateBinding | control-plane/app/rbac_service.py:451-506 | one round of the loop appends the scored findings of that binding and nothing when it is unresolvable or suppressed |
| RbacService.EvaluateTokenAutomount | control-plane/app/rbac_service.py:378-429 | one risk per account whose tokens mount, then one per workload that switches tokens back on |
| RbacService.EvaluateAccounts | control-plane/app/rbac_service.py:389-409 | account risks in order, and the setting of the last account under each key |
| RbacService.EvaluateRbacFindings | control-plane/app/rbac_service.py:432-529 | the report is the stable sort by score of what the graph calls for |
| RbacServiceLaws.ReportIsExact | control-plane/app/rbac_service.py:432-529 | a binding finding stands in the report once for each listed binding that calls for it, and not at all otherwise |
| RbacServiceLaws.RisksAreReported | control-plane/app/rbac_service.py:451-506 | every risk the graph gives a binding is in the report, on that binding |
| RbacServiceLaws.AutomountReportIsExact | control-plane/app/rbac_service.py:508-529 | a finding without a binding is in the report exactly when it is one of the token-automount risks |
| RbacByFields.ReportByFields | control-plane/app/rbac_service.py:70-529 | a finding on a binding is in the report exactly when a listed binding refers to a role, is not passed over by names, kinds and prefixes, and bears the risk by its fields, with severity, score, role, binding and subjects by fields; no helper of the engine is named |
| RbacByFields.SuppressedByFields | control-plane/app/rbac_service.py:70-108 | which bindings are passed over, by prefixes of names, kinds, and the literal stock binding |
| RbacByFields.RiskByFields | control-plane/app/rbac_service.py:111-244 | which bindings bear which risk, by verbs, resources, groups, kinds and namespaces |
| RbacByFields.BroadGroupsAreReported | control-plane/app/rbac_service.py:74-108 | a binding that names system:authenticated or system:unauthenticated, or system:masters unless it is the stock one, has every risk of its role in the report, unless the role's own name is built in |
| RbacByFields.SilentByFields | control-plane/app/rbac_service.py:451-487 | a binding that refers to a role yields no finding exactly when it is passed over or bears no risk |
| RbacByFields.AutomountByFields | control-plane/app/rbac_service.py:371-429 | a finding on no binding is in the report exactly when an account or a workload calls for it, by fields |
| ClusterScope.ClusterScopedByFields | control-plane/app/rbac_service.py:55-67 | the table of cluster-scoped resources, resource by resource |
| CrossEngine.PrivilegedRoleIsRisky | control-plane/app/effective_access.py:246-268 | a privileged role has a wildcard, secrets, escalation-verb or exec risk in the per-role engine, in either scope |
| CrossEngine.SameResolution | control-plane/app/effective_access.py:337-343 | what the combination engine resolves, the per-role engine resolves to the same role, although it also indexes unnamed roles |
| CrossEngine.CombosAreBackedByRoleFindings | control-plane/app/rbac_service.py:432-529 | a combination on a ServiceAccount bound to no built-in-prefixed role comes with a per-role finding on a binding naming it; roles need not all be named |
| ScanDiff.OrderIsIndexed | control-plane/app/rbac_service.py:619-624 | the key order lists exactly the collapsed scan's keys, once each |
| ScanDiff.DiffIsAPatch | control-plane/app/rbac_service.py:600-652 | applying resolved, added and severity_changed to the previous key-to-severity map gives the latest |
| ScanDiff.DiffIsReversible | control-plane/app/rbac_service.py:600-652 | the diff also leads back |
| ScanDiff.SwappingScansSwapsTheDiff | control-plane/app/rbac_service.py:600-652 | swapping the scans swaps added with resolved and keeps both counts |
| ScanDiff.DiffConserves | control-plane/app/rbac_service.py:600-652 | the keys of either scan are added or resolved, changed, or unchanged, with no key left over |
| ScanDiff.SelfDiffIsUnchanged | control-plane/app/rbac_service.py:600-652 | a scan against itself is all unchanged |
| ScanDiff.KeysCollapseFindings | control-plane/app/rbac_service.py:591-597 | the diff sees every finding of a scan exactly when no two share a key |
| ScanDiff.ShowsNothingExactly | control-plane/app/rbac_service.py:600-652 | nothing added, resolved or changed if and only if both scans give every key the same severity |
| ScanDiff.MovesAreInvisible | control-plane/app/rbac_service.py:591-597 | in a scan of any length, moving a finding's binding to another namespace, or to none, gives an all-unchanged diff |
| ScanDiff.NewestScansAreCompared | control-plane/app/rbac_service.py:600-624 | with two scans or more the two newest are compared, a stored value that is no list counting as none; with fewer the diff is empty |
| ScanDiff.AddedByFields | control-plane/app/rbac_service.py:591-645 | added are the last findings of their look with no like in the previous scan, a look being rule type, role or account name, and binding or workload name; resolved likewise |
| ScanDiff.ChangedByFields | control-plane/app/rbac_service.py:591-636 | changed are the last of their look in both scans, with different severities |
| Semver.PrintThenParse | control-plane/app/cve_service.py:41-51 | printing a triple with any leading "v" and any "-" or "+" suffix and parsing it gives it back |
| Semver.TupleOrderIsPrecedence | control-plane/app/cve_service.py:54-64 | the tuple order is the release precedence of section 11.2 of Semantic Versioning 2.0.0, and total |
| Semver.OrdersAgreeExactly | control-plane/app/cve_service.py:41-51 | with pre-releases, the code's order is that of section 11 of Semantic Versioning 2.0.0 exactly between versions of different triples |
| Semver.PrereleaseRangesExactly | control-plane/app/cve_service.py:54-64 | whether a pre-release is in a range of releases is decided as Semantic Versioning would exactly when its own release is neither end of the range |
| Semver.RangeIsAnInterval | control-plane/app/cve_service.py:54-64 | the check on text is membership in one half-open interval |
| Semver.RangesAreConvex | control-plane/app/cve_service.py:54-64 | what lies between two versions in a range is in it |
| Semver.AdjacentRangesJoin | control-plane/app/cve_service.py:54-64 | adjacent ranges join without gap or overlap |
| Semver.EmptyAndZeroAreLeast | control-plane/app/cve_service.py:41-57 | "" and "0" both read as 0.0.0, the least version |
| Semver.RangeByText | control-plane/app/cve_service.py:54-64 | a version is in a range when it is not before introduced and, unless fixed is missing or empty, before fixed |
| Semver.ShortVersions | control-plane/app/cve_service.py:41-51 | missing parts are zero |
| Semver.UnreadableIsZero | control-plane/app/cve_service.py:41-51 | a part that is no number makes the version 0.0.0 |
| OsvRanges.ParseOsvAffected | control-plane/app/cve_service.py:113-157 | the nested loops yield the components and fixed versions that OsvToReport pins field by field, and raise exactly when the first item has no ranges |
| OsvRanges.ParseRanges | control-plane/app/cve_service.py:127-142 | closed ranges and fixed versions of one item, and what its last range leaves in the loop variable |
| OsvRanges.ParseEvents | control-plane/app/cve_service.py:128-141 | one closed range per fixed event, opening at the last introduced event before it |
| OsvRanges.RangelessItemsInherit | control-plane/app/cve_service.py:127-148 | a later item without ranges contains exactly the versions from the leftover introduced version on, or none |
| OsvEvaluation.SortEventsSorts | control-plane/app/cve_service.py:113-157 | the reference: the OSV algorithm evaluates its events sorted by version, none lost |
| OsvEvaluation.SortedStaysSorted | control-plane/app/cve_service.py:113-157 | events already sorted are evaluated as they stand |
| OsvEvaluation.VulnerableByIndex | control-plane/app/cve_service.py:113-157 | the verdict of the algorithm on unsorted events: some introduced event at or before the version that no fixed one at or before it comes after |
| OsvExactness.NothingMissed | control-plane/app/cve_service.py:127-141 | when every introduced event is fixed at once by a version not below it, each version the OSV algorithm calls vulnerable is in a range; the events may come in any order, as in chained feeds |
| OsvExactness.NothingAdded | control-plane/app/cve_service.py:127-141 | for sorted events, each fixed one introduced at once before, nothing else is in a range |
| OsvExactness.ItemMissesNothing | control-plane/app/cve_service.py:113-157 | the same as NothingMissed over all ranges of an item, extra consecutive fixed events included: only over-approximation |
| OsvExactness.ItemIsExact | control-plane/app/cve_service.py:113-157 | for sorted alternating lists, "some produced range contains v" is the OSV evaluation |
| OsvExactness.OneRangeNeverMisses | control-plane/app/cve_service.py:127-148 | one strictly sorted range of any shape: nothing vulnerable is missed if and only if every introduced event is fixed at once or the list is one event |
| OsvExactness.OneRangeNeverAdds | control-plane/app/cve_service.py:127-148 | one strictly sorted range of any shape: nothing unaffected is reported if and only if every fixed event was introduced at once before it |
| OsvExactness.OneRangeIsExact | control-plane/app/cve_service.py:127-148 | both together, for one range of any shape; OsvItems has the items of several ranges |
| OsvExactness.ItemsWithRangesAreIndependent | control-plane/app/cve_service.py:120-155 | an item that has ranges is translated as if it were alone |
| OsvItems.DecidedByNamedVersions | control-plane/app/cve_service.py:113-157 | any number of ranges, any shape, any order: an item misses nothing, or adds nothing, for all versions exactly when it does so for 0.0.0 and the versions its events name |
| OsvItems.OpenRangeIsLost | control-plane/app/cve_service.py:142-148 | when a range stays open for ever and anything in the item is fixed, some vulnerable version is always missed, in any event order |
| OsvItems.NothingFixedExactly | control-plane/app/cve_service.py:142-148 | with nothing fixed, no version is missed if and only if the last range opens no later than any event of the item |
| OsvItems.SortedIsClosedOrOpen | control-plane/app/cve_service.py:127-141 | sorted ranges whose introduced events are fixed at once or come last meet the assumption of the next three rows |
| OsvItems.NeverMissesExactly | control-plane/app/cve_service.py:113-157 | for items of any number of such ranges: nothing vulnerable is missed if and only if no range ends open, or nothing is fixed and the last range opens first |
| OsvItems.AlternatingAddsNothing | control-plane/app/cve_service.py:113-157 | sorted ranges whose fixed events were introduced at once before report nothing unaffected |
| OsvItems.ItemIsExactWhen | control-plane/app/cve_service.py:113-157 | for sorted, alternating ranges, open or not, the item says what the OSV algorithm says about every version under that condition and no other |
| OsvToReport.ComponentsByFields | control-plane/app/cve_service.py:150-155 | one component per item, with the item's name, ecosystem and versions, and its ranges if it has any |
| OsvToReport.RangesByFields | control-plane/app/cve_service.py:127-148 | every range has the type and a fixed text of its event range, or is the one open SEMVER range |
| OsvToReport.FixedVersionsByFields | control-plane/app/cve_service.py:134-135 | the second result lists the fixed texts of the components' ranges, in order |
| OsvToReport.VulnerableIsReported | control-plane/app/cve_service.py:113-568 | from document to report: an entry of the parsed components is reported for every inventory version under the package's name that the OSV algorithm calls vulnerable, when the item's translation misses nothing, as the results of OsvItems decide |
| OsvToReport.ReportedIsVulnerable | control-plane/app/cve_service.py:113-568 | and only for versions that are listed or that the OSV algorithm calls vulnerable, when no item adds anything |
| CveMatching.BuildVersionsMap | control-plane/app/cve_service.py:497-509 | the map holds, per lower-cased name, exactly the versions the inventory gives it |
| CveMatching.CollectCandidates | control-plane/app/cve_service.py:519-523 | candidates are the versions under any name that equals, contains or is contained in the component's |
| CveMatching.FindFirstRange | control-plane/app/cve_service.py:538-545 | the first range in order that holds the version |
| CveMatching.MatchComponent | control-plane/app/cve_service.py:525-545 | one match for each candidate that is listed or in a range, in whatever order the set is iterated |
| CveMatching.MatchEntry | control-plane/app/cve_service.py:511-545 | the matches of an entry are those of its components, component by component |
| CveMatching.MatchCves | control-plane/app/cve_service.py:483-568 | the report is the stable sort of the affected entries with their scores, and each finding's matches are right |
| CveMatching.ReportedExactlyWhenAffected | control-plane/app/cve_service.py:483-568 | an entry is reported exactly when some overlapping name has a version that is listed or in a range |
| CveMatching.IterationOrderIsIrrelevant | control-plane/app/cve_service.py:525-545 | two runs agree on entries, scores, the multiset of matches and the first affected component |
| CveMatching.LargerInventoryKeepsFindings | control-plane/app/cve_service.py:497-568 | a larger inventory never loses a CVE |
| CveByFields.OccursByText | control-plane/app/cve_service.py:522 | containment of names: one stands at some index of the other |
| CveByFields.ReportByFields | control-plane/app/cve_service.py:497-568 | an entry is reported exactly when a component's lower-cased name contains or is contained in an inventory name whose version it lists or has in a half-open range, by texts |
| CveByFields.LongerNamesAreReported | control-plane/app/cve_service.py:522 | a component whose name has an inventory name anywhere inside is matched to it |
| CveByFields.HitsByFields | control-plane/app/cve_service.py:527-539 | a listed text stands for a version after any leading "v" and before a dash; versions that have either themselves are never listed |
| CveByFields.AffectedByFields | control-plane/app/cve_service.py:525-545 | the affected triples of a finding: the fix is the component's for a listed version, else that of the first range with the version |
| CveByFields.ScoreByFields | control-plane/app/cve_service.py:548-550 | a finding's score is that of the entry's CVSS, or else its severity |
| FeedStore.InsertKeepsInv | control-plane/app/routers/cve.py:57-79 | an insert commits exactly when the name is free, keeps the invariant and touches no other feed |
| FeedStore.InsertAllKeepsInv | control-plane/app/main.py:169-172 | a transaction of several inserts keeps it too, and adds exactly its own ids |
| FeedStore.InsertAllExactly | control-plane/app/models.py:142-152 | such a transaction commits if and only if all its names are free and no two are the same |
| FeedStore.DeleteKeepsInv | control-plane/app/models.py:142-170 | a cascading delete takes the feed and all its entries, and nothing else |
| FeedStore.ToggleKeepsInv | control-plane/app/routers/cve.py:97-109 | toggling twice is no change, and other feeds stay |
| FeedStore.ReplaceKeepsInv | control-plane/app/cve_service.py:626-632 | a refresh leaves exactly the fetched entries on its feed, with the right count, and every other feed as it was |
| FeedStore.RowsOfByFields | control-plane/app/models.py:156-170 | the entries of a feed are the rows with its id, as often as stored |
| FeedStore.WithoutByFields | control-plane/app/cve_service.py:626 | deleting them leaves all others |
| FeedStore.ReplacedByFields | control-plane/app/cve_service.py:626-628 | replacing them leaves all others and then one row per fetched entry, in order |
| FeedStore.FeedTables.AddFeed | control-plane/app/routers/cve.py:57-79 | adds the feed, enabled, never fetched and empty, exactly when no feed has the name, and otherwise leaves all as it was |
| FeedStore.FeedTables.EnsureK8sFeed | control-plane/app/cve_service.py:593-613 | returns the one feed with the official name, created when missing |
| FeedStore.FeedTables.SeedDefaults | control-plane/app/main.py:169-172 | the missing defaults go in as one transaction, which commits exactly when no two of them share a name; then every default name exists, old feeds are unchanged and new ones are missing defaults, and otherwise nothing changed |
| FeedStore.FeedTables.DeleteFeed | control-plane/app/routers/cve.py:82-94 | deletes with its entries, or reports that there is no such feed |
| FeedStore.FeedTables.ToggleFeed | control-plane/app/routers/cve.py:97-109 | flips and returns the setting, or reports that there is no such feed |
| FeedStore.FeedTables.RefreshFeed | control-plane/app/cve_service.py:615-635 | replaces the entries and the count together; a failed fetch or an unknown feed changes nothing |
| FeedStore.FeedTables.RefreshAll | control-plane/app/cve_service.py:637-647 | every enabled feed that could be fetched is replaced, every other feed is as before |
| FeedRuns.StepKeepsInv | control-plane/app/cve_service.py:593-647 | every step of any session keeps the invariant and leaves feeds it does not touch alone |
| FeedRuns.EveryReachableStateIsConsistent | control-plane/app/models.py:142-170 | in every state of every interleaving names are unique, entries have their feed and each count is its number of entries |
| FeedRuns.RunsKeepInv | control-plane/app/cve_service.py:593-647 | the same from any consistent state |
| FeedRuns.UntouchedFeedsStay | control-plane/app/cve_service.py:615-635 | a run that never writes a feed leaves its row and entries |
| FeedRuns.DeletedFeedsStayDeleted | control-plane/app/cve_service.py:615-635 | a refresh under way when its feed is deleted brings nothing back, in any continuation |
| FeedRuns.FeedsKeepTheirIdentity | control-plane/app/models.py:142-152 | a feed present at both ends of a run has the same name and address |
| FeedRuns.RefreshIsAllOrNothing | control-plane/app/cve_service.py:615-635 | a failing refresh has written nothing; one that commits has replaced its own feed if that still exists |
| FeedRuns.FailedRefreshLeavesNoTrace | control-plane/app/cve_service.py:615-624 | a run in which a refresh begins and fails ends exactly as the run of the other sessions alone |
| FeedRuns.RefreshAmidOthers | control-plane/app/cve_service.py:637-647 | a refresh that commits amid anything done to other feeds leaves, at the end of the run, the fetched entries and their number on its feed, which is otherwise as it was |
| SchemaInline.ReturnsExactlyWhenAcyclic | control-plane/app/request_limits.py:83-90 | inlining returns if and only if the references it meets resolve and can be ranked downwards, that is, form no cycle |
| SchemaInline.ResultHasNoRef | control-plane/app/request_limits.py:83-90 | the result holds no reference |
| SchemaInline.InliningIsIdempotent | control-plane/app/request_limits.py:83-90 | inlining the result again, with any definitions, gives it back |
| SchemaInline.InliningIsUnfolding | control-plane/app/request_limits.py:76-97 | along every path the result shows what the schema shows when references are followed on the way |
| SchemaInline.ReadingDeterminesTheValue | control-plane/app/request_limits.py:76-97 | only the inlined value does: equal readings along all paths mean equal values |
| SchemaInline.MoreFuel | control-plane/app/request_limits.py:83-90 | the result does not depend on how deep references may be followed |
| SchemaInline.LastSlashByText | control-plane/app/request_limits.py:88 | a reference names what stands after its last slash |
| SchemaInline.NoSlashByText | control-plane/app/request_limits.py:88 | and nothing exactly when it has no slash |
| SchemaInline.ReferenceByText | control-plane/app/request_limits.py:87-88 | an object with "$ref" inlines to the definition so named, at one reference less, and raises if there is none |
| SchemaInline.ShapeByFields | control-plane/app/request_limits.py:83-90 | anything else keeps its shape: lists length and order, objects their keys |
| AuditIngest.Classify | control-plane/app/audit_ingest.py:113-174 | the chain of branches records, skips or ignores a line exactly as the declarative reading of its event says |
| AuditIngest.ParseAuditUsage | control-plane/app/audit_ingest.py:93-181 | per subject exactly the recorded (verb, resource, namespace) triples, no empty sets, and the number of skipped lines |
| AuditIngest.EveryLineIsAccountedFor | control-plane/app/audit_ingest.py:60-181 | lines = recorded + skipped + ignored, each of the three described by itself |
| AuditIngest.UsageDependsOnTheSetOfLines | control-plane/app/audit_ingest.py:93-181 | order and repetition of lines never matter |
| AuditIngest.ConcatenationIsUnion | control-plane/app/audit_ingest.py:93-181 | parsing a concatenation is the pointwise union |
| AuditIngest.FoldingIsInjective | control-plane/app/audit_ingest.py:165-174 | resources without "/" fold apart |
| AuditIngest.FoldsAlikeExactly | control-plane/app/audit_ingest.py:165-174 | two different resources can fold alike, under some subresources, if and only if one is the other followed by a slash and any text |
| AuditIngest.SlashesCollide | control-plane/app/audit_ingest.py:165-174 | a family of pairs that fold together |
| AuditIngest.UsageByFields | control-plane/app/audit_ingest.py:117-175 | a use is in a subject's set exactly when the JSON fields of some line say it, subresource after a slash and falsy namespace as none included |
| AuditIngest.IgnoredByFields | control-plane/app/audit_ingest.py:69-91 | ignored are missing and blank lines, and requests without a resource |
| AuditIngest.SkippedByFields | control-plane/app/audit_ingest.py:113-173 | skipped are the lines that say no use and are not ignored |
| ImageReports.BestScoreIsBest | control-plane/app/grype_adapter.py:40-64 | the kept CVSS is the largest admissible v3 score, and there is none exactly when none is admissible |
| ImageReports.CollectScores | control-plane/app/trivy_adapter.py:32-45 | the loop collects and maximises over the entries that count |
| ImageReports.MergeTrivy | control-plane/app/trivy_adapter.py:84-135 | one result block adds to the dict the first finding under each new key |
| ImageReports.ParseTrivy | control-plane/app/trivy_adapter.py:60-138 | the stable sort by score of the first finding per key, each with the score of its own CVSS and severity |
| ImageReports.ParseGrype | control-plane/app/grype_adapter.py:89-162 | the same for Grype, with the image named by its target |
| ImageReports.FirstPerKeyIsExact | control-plane/app/trivy_adapter.py:84-135 | keys are distinct, each kept finding is the first under its key, no key is lost |
| ImageReports.ParsedReportIsExact | control-plane/app/grype_adapter.py:109-162 | the same of the sorted report |
| ImageReports.SummariseSeverities | control-plane/app/image_ingest.py:96-112 | severities are normalised in place and the breakdown counts the normalised ones |
| ImageReports.BreakdownSumsToCount | control-plane/app/image_ingest.py:96-112 | the five counters sum to the number of findings |
| ImageReports.LateNormalisationKeepsScores | control-plane/app/image_ingest.py:96-112 | after normalisation each finding has the score its new severity would have been given |
| ImageReports.ReportIsScored | control-plane/app/trivy_adapter.py:84-138 | dropping repeated keys and sorting keep every score that of its finding |
| ImageReports.ScoreReport | control-plane/app/image_ingest.py:96-112 | of either scanner: the parsed report, normalised in place; every score is the one its shown severity would be given, the counters are right and sum to the number of findings |
| ImageReports.TrivyIsScored | control-plane/app/trivy_adapter.py:100-131 | each finding of one result block is scored from its own CVSS and severity |
| ImageReports.AllTrivyIsScored | control-plane/app/trivy_adapter.py:87-131 | and so are those of all blocks |
| ImageReports.GrypeIsScored | control-plane/app/grype_adapter.py:125-156 | each Grype finding is scored from its own CVSS and severity |
| ImageByFields.TrivyReportByFields | control-plane/app/trivy_adapter.py:25-138 | a Trivy report has exactly the findings that the first record of each id and lower-cased package shows, with severity by spelling, greatest v3 score, versions and score by fields |
| ImageByFields.GrypeReportByFields | control-plane/app/grype_adapter.py:28-162 | the same for Grype, with its image name and its v3 entries |
| ImageByFields.SeverityByText | control-plane/app/trivy_adapter.py:25-29 | severities are read in any case, missing or empty ones as UNKNOWN, others kept upper-cased |
| ImageByFields.BestOfEntriesByFields | control-plane/app/grype_adapter.py:40-64 | the greatest score of entries without a version or with one starting with 3 |
| ImageByFields.NormalisedByFields | control-plane/app/image_ingest.py:102-104 | normalising changes unlisted severities to UNKNOWN and nothing else |
| ImageByFields.CountByFields | control-plane/app/image_ingest.py:105 | a counter is the number of findings of its severity |
| Manifests.IterManifestDocs | control-plane/app/cli.py:160-177 | List documents stand for their mapping items, other mappings for themselves, in order |
| Manifests.Translate | control-plane/app/cli.py:206-258 | one document extends one list, or none when its kind is unsupported |
| Manifests.BuildGraphFromManifests | control-plane/app/cli.py:180-259 | the graph lists are the selections of the unwrapped documents, in document order |
| Manifests.DocLandsOnce | control-plane/app/cli.py:206-258 | a supported document adds one object to the graph, any other none |
| Manifests.GraphConservesDocs | control-plane/app/cli.py:202-259 | the graph has as many objects as there are supported documents |
| Manifests.UniqueSetting | control-plane/app/rbac_service.py:390-393 | with unique accounts, the looked-up setting is the setting of that account |
| Manifests.WorkloadFindingsEndToEnd | control-plane/app/rbac_service.py:371-529 | from the documents read to the report: with unique accounts, a workload finding is in it exactly when a template says true and its account, "default" when unset, says an explicit false |
| Manifests.AccountFindingsEndToEnd | control-plane/app/rbac_service.py:371-529 | from the documents read to the report: an account finding is in it exactly when some account document does not say an explicit false |
| Manifests.ReportedTwiceExactly | control-plane/app/rbac_service.py:378-429 | an account has both a finding of its own and an override finding if and only if some listing of it leaves tokens on, the last one switches them off, and a workload using it switches them on |
| Manifests.NoAccountIsReportedTwice | control-plane/app/rbac_service.py:378-429 | with unique accounts no account has both |
| Manifests.RepeatedAccountsCanBeReportedTwice | control-plane/app/rbac_service.py:378-429 | an account listed twice can be reported twice |
| ManifestsByFields.UnwrappedByFields | control-plane/app/cli.py:169-175 | read are mappings that stand alone or in a List |
| ManifestsByFields.GraphByFields | control-plane/app/cli.py:212-240 | the graph's lists hold what the documents of each kind say, and nothing else |
| ManifestsByFields.WorkloadOfDoc | control-plane/app/cli.py:240-258 | a workload takes its account and setting from the pod spec: of the document for a Pod, of the job template for a CronJob, of the template for the other kinds |
| ManifestsByFields.ListsKeepOrder | control-plane/app/cli.py:206-258 | each list keeps the order of the documents |
| ManifestsByFields.WorkloadReportByFields | control-plane/app/rbac_service.py:371-529 | documents to report without any helper: with unique accounts, a workload finding is there exactly when a document mounts against an account document of its namespace |
| Exporters.NothingIsBatch | control-plane/app/cli.py:72-85 | the batch/v1 branch is never taken: Jobs and CronJobs are reported under apps/v1 |
| Exporters.SortNamesIncreasing | control-plane/app/cli.py:540 | sorting distinct names gives them strictly increasing, none lost |
| Exporters.GroupByNamespace | control-plane/app/cli.py:529-536 | the dict lists per namespace exactly the findings filed there, in order, and the cluster list the rest |
| Exporters.BuildPolicyReports | control-plane/app/cli.py:526-564 | one report per namespace in sorted order, then one cluster report, with the findings filed under each |
| Exporters.ReportsPartitionFindings | control-plane/app/cli.py:526-564 | together the reports hold every finding exactly as often as the scan, and the fail counts add up to their number |
| Exporters.MaxScoreIsMax | control-plane/app/cli.py:358-361 | the collected score bounds every finding of a rule and, when positive, is the score of one |
| Exporters.SecuritySeverityIsMonotone | control-plane/app/cli.py:343-351 | scaling is monotone, stays from 0.0 to 10.0 and is 10.0 from the cap on |
| Exporters.BuildSarif | control-plane/app/cli.py:353-405 | one rule per rule id in order of first appearance, one result per finding |
| Exporters.EveryResultHasItsRule | control-plane/app/cli.py:353-405 | each result's id has exactly one rule, carrying the scaled maximum over that rule's findings |
| Exporters.ReportByFields | control-plane/app/cli.py:526-551 | a report's results are the findings whose binding, else workload, else account has that namespace, images and empty names counting as none |
| Exporters.ResultByFields | control-plane/app/cli.py:380-400 | a result shows the rule type or the CVE id, and the score |
| Exporters.SecuritySeverityByFields | control-plane/app/cli.py:343-351 | up to the cap, security-severity is the nearest tenth to ten times the share of the cap |
| RequestLimits.ReadBodyWithLimit | control-plane/app/request_limits.py:39-57 | the answer depends on the joined body only; what is buffered never exceeds the limit, and a refusal comes at the first chunk that does not fit |
| RequestLimits.AcceptedExactlyWithinLimit | control-plane/app/request_limits.py:39-57 | the whole body is returned if and only if the declared length, if any, is valid and within the limit and so is the true total |
| RequestLimits.ChunkingIsIrrelevant | control-plane/app/request_limits.py:51-57 | cutting a chunk anywhere changes neither acceptance nor result |

## Left out

- Clients of Kubernetes, HTTP and TLS, kubeconfig and file reading: the graph, the inventory, the fetched entries and the parsed documents are inputs.
- Authentication, API keys, routing and the scheduler.
- Database sessions below the commit: a refresh is a look-up, a fetch during which anything may happen, and one commit that is atomic; toggling and deleting are atomic; a commit for a vanished feed is rejected as a whole, by the foreign key or, without entries, because the feed's row is not there to update. Random UUIDs are ids that never repeat. Descriptions of feeds, dates of entries and the other entry columns are not carried.
- FeedStore.FeedTables.RefreshAll: this method runs without interleaving; FeedRuns.RefreshAmidOthers and FeedRuns.FailedRefreshLeavesNoTrace cover each of its refreshes amid other sessions.
- Text: titles, descriptions, score factors, remediation, table, PDF, JUnit and YAML printing.
- The regular-expression parsing of feeds and add-on images, the NVD format and dates.
- Decoding of JSON, YAML and UTF-8, and pydantic validation: the model starts from parsed values, with a constructor for lines that did not parse. Unicode: lower- and upper-casing, digits and white space are those of ASCII.
- Floating point: scores are exact rationals rounded half to even, so a score a rounding error away from a tie can differ in its last digit.
- Finite vocabularies: verbs, resources, API groups, kinds and severities are enumerations with a constructor carrying any other text; a missing key and a null are one value wherever the code reads them with `dict.get`.
- RbacService.EvaluateRbacFindings: lists are lists, and a role has its name and namespace keys even where the values are null; a null `rules` or `subjects`, or a role without those keys, would raise in that engine.
- SchemaInline.ReturnsExactlyWhenAcyclic: Python's recursion limit is not modelled.
- OsvRanges.ParseOsvAffected: events other than `introduced` and `fixed` are not read by the code, so `last_affected` and `limit` have no place in the comparison with the OSV algorithm; versions in it compare as the code reads them, a pre-release like its release. Events of one version are sorted in their listed order.
- OsvItems.NeverMissesExactly: ranges in which an introduced event is followed by another introduced one are left to DecidedByNamedVersions, since whether another range makes up for what they lose depends on all of their versions.
- Exporters.BuildSarif: locations, levels and messages of results are prose.
- The exit-code gate, the doctor command, context files and health checks: case analysis over finitely many checks.
- `agent/`, `cloud-scanner/`, `dashboard/`, `deploy/`, `plugins/` and `policies/`.
