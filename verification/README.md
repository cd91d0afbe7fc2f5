# Verified model of the repository's governance tooling

This project models the graph reducers, worklist validators and event-driven protocols of the repository's
governance tooling and proves what they promise. Imperative code stays imperative: searches with
visiting and visited sets, explicit stacks, event handlers over mutable tables and in-place lists are
classes and methods with loops, each proved against a declarative description. What the system relies on is
then proved about those descriptions, for every input, every interleaving or every history.

| part | files |
|---|---|
| Capability checkpoint reducer | `CheckpointRules`, `CheckpointCycles`, `CheckpointGraph`, `CheckpointReducer`, `CheckpointReport`, `CheckpointFindings` |
| Coverage of test suites by public profiles | `ProfileReachability`, `ProfileCache` |
| Lock file inventory and CycloneDX 1.5 bill of materials | `ModuleResolution`, `SupplyChain`, `SupplyChainInventory`, `BillOfMaterials` |
| Plugin console host bridge and session token | `ConsoleBridge`, `ConsoleHistory`, `ConsoleToken` |
| Background process supervisor | `BackgroundSupervisor`, `SupervisorHistory` |
| Offline bundle paths, trees and exact copy | `BundlePaths`, `BundleTree`, `BundleCollector`, `BundleCopier` |
| Authoritative OCI image layout | `OciLayout`, `OciInspection`, `OciAcceptance` |
| Branch promotion, producer order, resumable deployment | `BranchFlow`, `ProducerOrder`, `DeploymentStages` |
| Shared vocabulary | `Wrappers`, `Text`, `Sorting`, `Graphs` |

Methods are proved against step-by-step specifications, and those against a second description, said of the raw input
or of the events alone: the report read off the raw checkpoints (`CheckpointReport`, `CheckpointFindings`), an accepted
layout as a set of stored documents (`OciAcceptance`), and what the events of a whole run amount to (`ConsoleHistory`,
`SupervisorHistory`).

What a program cannot decide by itself is an arbitrary parameter, so every result holds whatever it is: which
characters trimming removes, Unicode normal forms, case folding, hashing and document parsing, which licence or
registry address is acceptable, package URL encoding, revalidation answers, the order of events, which commits are
ancestors, and which effects fail.

`dafny verify dfyconfig.toml` verifies the whole project.

Some results are worth knowing when reading the code. Each states exactly when the code does what one would expect,
and names an input for which it does not:

* Resolving profiles with one shared cache can store a set that lacks suites of its own chain, as two profiles that
  extend each other show (`ProfileCache.TwoProfileCycle`); `ProfileCache.StoredExactly` says which stored sets are
  whole. The union over all public profiles is exact nevertheless (`ProfileReachability.ReachablePublicSuites`).
* `packageNameFromLockPath` gives back the name that was resolved exactly if the name is a valid package name that does
  not itself hold `node_modules/` (`ModuleResolution.NameRoundTrip`); a name such as `@node_modules/x` loses its scope
  (`ModuleResolution.ScopeIsLost`).
* `packageCoordinates` can be undone exactly if the name is unscoped or holds a slash
  (`BillOfMaterials.CoordinatesRoundTrip`); `@x` is the other case (`BillOfMaterials.BareScope`).
* The dependency records of a bill of materials name every package once exactly if the root's own package URL is not
  also a component (`BillOfMaterials.DependencyRefsDistinct`). A root that installs its own name and version has an
  accepted lock file whose bill names it twice (`BillOfMaterials.RootNamedTwice`, `BillOfMaterials.ItselfExists`).
* A settled tool call has its reply exactly if its result can be posted before revocation
  (`ConsoleBridge.RepliedExactly`); a result that cannot be cloned gets none (`ConsoleBridge.UncloneableGetsNoReply`).
* The deployment's state file goes on listing `verify` after a later attempt failed exactly if no stage was built again
  in between (`DeploymentStages.VerifyIsRemembered`, `DeploymentStages.VerifyOutlivesFailure`).
* Promotions to stable and release keep the promotion chain whatever tip the push says it started from. A nightly push
  keeps it exactly if its commit holds the stable tip, and moves nightly forward exactly if it holds the nightly tip
  (`BranchFlow.PushKeepsChainExactly`, `BranchFlow.PushAdvancesExactly`). The push check compares only the two ends of the
  push, so a nightly push from an older tip can pass and break the chain (`BranchFlow.StaleNightlyBreaksChain`).

## Model

| member | source | states |
|---|---|---|
| CheckpointRules.UniqueStrings | tools/server-scripts/capability-acceptance-checkpoint-reducer.ts:45-47 | the distinct non-empty strings of a list, and nothing else |
| CheckpointRules.UniqueKeepsOrder | tools/server-scripts/capability-acceptance-checkpoint-reducer.ts:45-47 | they stand in the order in which they first occur |
| CheckpointRules.ValidateEvidenceEntries | tools/server-scripts/capability-acceptance-checkpoint-reducer.ts:62-133 | the loop over evidence entries leaves exactly the notes that `EvidenceAccepted` and `CheckpointReport.EvidenceAccounts` characterize |
| CheckpointRules.EvidenceAccepted | tools/server-scripts/capability-acceptance-checkpoint-reducer.ts:62-133 | evidence leaves no finding if and only if there is some and every entry cites a known command without inlining one, and any report it cites is a valid path owned by that command; it never adds blockers or open checkpoints |
| CheckpointRules.CriterionAccepted | tools/server-scripts/capability-acceptance-checkpoint-reducer.ts:335-408 | a criterion leaves no finding if and only if it is satisfied, or is unchecked with a valid external blocker in a checkpoint that is not completed; the second adds exactly one blocker and one unchecked entry |
| CheckpointRules.ReviewCheckpoint | tools/server-scripts/capability-acceptance-checkpoint-reducer.ts:252-438 | reviewing one checkpoint, in the order of its branches, leaves exactly the notes that `CheckpointAccepted` and `CheckpointReport.CheckpointAccounts` characterize |
| CheckpointRules.ReviewPrerequisites | tools/server-scripts/capability-acceptance-checkpoint-reducer.ts:297-313 | the loop over prerequisites leaves exactly the notes that `PrerequisitesAccepted` characterizes |
| CheckpointRules.ReviewCriteria | tools/server-scripts/capability-acceptance-checkpoint-reducer.ts:335-408 | the loop over criteria leaves exactly the notes that `CriteriaAccepted` and `CheckpointReport.CriterionAccounts` characterize |
| CheckpointRules.PrerequisitesAccepted | tools/server-scripts/capability-acceptance-checkpoint-reducer.ts:297-313 | prerequisites leave no finding if and only if they are a list of well-formed ids |
| CheckpointRules.CriteriaAccepted | tools/server-scripts/capability-acceptance-checkpoint-reducer.ts:335-408 | criteria leave no finding if and only if each is satisfied or properly blocked; then unchecked criteria match blockers one for one, and there is no blocker if and only if all are satisfied |
| CheckpointRules.CheckpointAccepted | tools/server-scripts/capability-acceptance-checkpoint-reducer.ts:252-438 | a checkpoint leaves no finding if and only if it is completed or properly blocked; only the second leaves blockers and an open entry |
| CheckpointCycles.CycleSearch.Visit | tools/server-scripts/capability-acceptance-checkpoint-reducer.ts:182-209 | the recursive visit keeps the visiting set equal to the ancestry, never loses a finding, and terminates |
| CheckpointCycles.CycleSearch.Report | tools/server-scripts/capability-acceptance-checkpoint-reducer.ts:184-196 | an id met while it is being visited is on the ancestry, so its index is found and the reported vertices are a closed walk of the graph |
| CheckpointCycles.CycleSearch.Run | tools/server-scripts/capability-acceptance-checkpoint-reducer.ts:176-215 | there is no finding if and only if the graph of declared ids is acyclic, and every finding is a real closed walk |
| CheckpointCycles.IndexOf | tools/server-scripts/capability-acceptance-checkpoint-reducer.ts:185-185 | the position in the ancestry exists and is the first one |
| CheckpointCycles.DependsOn | tools/server-scripts/capability-acceptance-checkpoint-reducer.ts:531-545 | the search with an explicit stack answers true if and only if the target is transitively reachable, and terminates |
| CheckpointGraph.CompareCheckpoints | tools/server-scripts/capability-acceptance-checkpoint-reducer.ts:441-558 | all passes between checkpoints together leave exactly the findings that `GraphAccepted` and `CheckpointFindings.GraphFindingsExactly` characterize |
| CheckpointGraph.IndexById | tools/server-scripts/capability-acceptance-checkpoint-reducer.ts:456-461 | the index keeps the first checkpoint that declares each id |
| CheckpointGraph.CheckDuplicates | tools/server-scripts/capability-acceptance-checkpoint-reducer.ts:441-454 | exactly the ids declared more than once are reported, once each, in order of declaration |
| CheckpointGraph.CheckLinks | tools/server-scripts/capability-acceptance-checkpoint-reducer.ts:463-504 | missing and self-referring prerequisites and premature completion are reported, in order |
| CheckpointGraph.CheckRoles | tools/server-scripts/capability-acceptance-checkpoint-reducer.ts:507-526 | required roles that occur not once are reported, in order |
| CheckpointGraph.CheckFinalValidation | tools/server-scripts/capability-acceptance-checkpoint-reducer.ts:528-558 | final validation is reported if and only if both roles are held once and it does not reach implementation |
| CheckpointGraph.LinksAccepted | tools/server-scripts/capability-acceptance-checkpoint-reducer.ts:463-504 | links leave no finding if and only if every prerequisite resolves, none is the checkpoint itself, and no checkpoint is completed before a prerequisite |
| CheckpointGraph.RolesAccepted | tools/server-scripts/capability-acceptance-checkpoint-reducer.ts:507-526 | roles leave no finding if and only if each required role is held exactly once |
| CheckpointGraph.DuplicatesAccepted | tools/server-scripts/capability-acceptance-checkpoint-reducer.ts:441-454 | counting leaves no finding if and only if no id repeats |
| CheckpointGraph.FinalAccepted | tools/server-scripts/capability-acceptance-checkpoint-reducer.ts:528-558 | with unique ids, the final pass is silent if and only if a single final validation reaches a single implementation transitively |
| CheckpointGraph.CyclesAccepted | tools/server-scripts/capability-acceptance-checkpoint-reducer.ts:176-215 | with unique ids, the cycle pass is silent if and only if the prerequisite graph is acyclic |
| CheckpointGraph.GraphAccepted | tools/server-scripts/capability-acceptance-checkpoint-reducer.ts:441-558 | comparing checkpoints reports nothing if and only if the graph is sound and completion respects it |
| CheckpointGraph.CompletionIsClosed | tools/server-scripts/capability-acceptance-checkpoint-reducer.ts:463-504 | in a sound graph everything transitively reachable from a completed checkpoint is completed |
| CheckpointReducer.ReduceCapabilityCheckpoints | tools/server-scripts/capability-acceptance-checkpoint-reducer.ts:225-594 | readiness for release reduction if and only if: a non-empty list of well-formed checkpoints, unique ids, prerequisites that resolve, no cycle, all completed with checked criteria and no blocker, valid evidence where required, each required role once, and final validation reaching implementation |
| CheckpointReducer.ReviewsAccepted | tools/server-scripts/capability-acceptance-checkpoint-reducer.ts:240-438 | the reviews are silent if and only if the list is non-empty and each checkpoint is completed or blocked, and then blockers, open and unchecked entries tell which |
| CheckpointReducer.NoFindingsExactly | tools/server-scripts/capability-acceptance-checkpoint-reducer.ts:240-558 | no pass finds anything if and only if the input is sound as declared without any loop |
| CheckpointReducer.ReadyIsSound | tools/server-scripts/capability-acceptance-checkpoint-reducer.ts:560-562 | ready means sound with every checkpoint completed |
| CheckpointReducer.VerdictExactly | tools/server-scripts/capability-acceptance-checkpoint-reducer.ts:560-574 | failed if and only if something was found; verified if and only if ready; without findings, nothing is open if and only if nothing blocks, and unchecked criteria match blockers one for one |
| CheckpointReducer.CompletedIsClosed | tools/server-scripts/capability-acceptance-checkpoint-reducer.ts:463-574 | without findings, whatever a completed checkpoint depends on, however indirectly, is a completed checkpoint of the input |
| CheckpointReport.EvidenceAccounts | tools/server-scripts/capability-acceptance-checkpoint-reducer.ts:62-133 | the entries of one criterion's evidence note exactly what each of them owes, in order: findings by code, and one binding for each entry with a command id |
| CheckpointReport.CriterionAccounts | tools/server-scripts/capability-acceptance-checkpoint-reducer.ts:335-408 | a criterion notes exactly what it owes: each finding under its own condition, its unchecked reason, its blocker and the bindings of its evidence |
| CheckpointReport.CheckpointAccounts | tools/server-scripts/capability-acceptance-checkpoint-reducer.ts:252-438 | so does a checkpoint: fields, prerequisites, criteria and status, in this order |
| CheckpointReport.ReviewsAccount | tools/server-scripts/capability-acceptance-checkpoint-reducer.ts:240-438 | and so do all checkpoints of a list: every place of the input that owes an item has it once, no other item is noted, and items stand in the order of their places |
| CheckpointFindings.ReportExactly | tools/server-scripts/capability-acceptance-checkpoint-reducer.ts:225-594 | for any input, the unchecked criteria, blockers, bindings and open checkpoints of the report are exactly those due, in order; the findings are that about the input, then those due for single checkpoints in order, then those of the comparison |
| CheckpointFindings.BindingsExactly | tools/server-scripts/capability-acceptance-checkpoint-reducer.ts:123-130 | the report binds exactly the entries with a command id of checked criteria of required roles, once each, with command, report, checkpoint, role, criterion and entry, in order of checkpoint, criterion and entry |
| CheckpointFindings.GraphFindingsExactly | tools/server-scripts/capability-acceptance-checkpoint-reducer.ts:441-558 | for any input, the comparison finds exactly the repeated ids, unresolved, self-referring and premature links, missing and repeated roles and the unlinked final validation, and cycles exactly if there are any |
| CheckpointFindings.RepeatPass | tools/server-scripts/capability-acceptance-checkpoint-reducer.ts:441-454 | an id is reported as repeated if and only if two checkpoints declare it |
| CheckpointFindings.LinkPass | tools/server-scripts/capability-acceptance-checkpoint-reducer.ts:463-504 | a link is reported as unresolved, as self-referring or as premature if and only if it is, the first checkpoint that declares an id standing for it |
| CheckpointFindings.RolePass | tools/server-scripts/capability-acceptance-checkpoint-reducer.ts:507-526 | a required role is reported as missing or as repeated if and only if no checkpoint or several hold it |
| CheckpointFindings.FinalPass | tools/server-scripts/capability-acceptance-checkpoint-reducer.ts:528-558 | the final validation is reported if and only if both roles have one holder and the one does not reach the other |
| CheckpointFindings.CyclePass | tools/server-scripts/capability-acceptance-checkpoint-reducer.ts:176-215 | each reported cycle is a closed walk of the declared graph that names each id once, and one is reported if and only if there is one |
| CheckpointFindings.ConclusionExactly | tools/server-scripts/capability-acceptance-checkpoint-reducer.ts:560-580 | state and kind of failure for any input: verified if ready, blocked if sound but waiting, else failed, for structural reasons if some finding has one of the structural codes |
| CheckpointFindings.CountsExactly | tools/server-scripts/capability-acceptance-checkpoint-reducer.ts:580-586 | the counts are those of the checkpoints and of the completed ones |
| CheckpointFindings.GeneratedIdsApart | tools/server-scripts/capability-acceptance-checkpoint-reducer.ts:254-255 | checkpoints that declare no id get different ones |
| Graphs.ReachableSetIsLeast | tools/generators/generate-supply-chain-artifacts.ts:244-257 | what the reference queue collects, by `InventoryRootRefs`, is the least set with the roots that is closed under edges |
| Graphs.ReachesStep | tools/registry/test-suite-reachability.ts:21-29 | what a profile's chain holds is the profile itself and what its base's chain holds: reaching from a vertex is being it or reaching from a successor |
| Graphs.PointingBackIsAcyclic | tools/server-scripts/capability-acceptance-checkpoint-reducer.ts:199-208 | a finishing order in which all edges point back proves acyclicity |
| Graphs.NoSinkMeansCycle | tools/server-scripts/enterprise-operations-closure.ts:278-280 | a finite set in which every vertex has a successor holds a cycle |
| ProfileReachability.Resolver.Resolve | tools/registry/test-suite-reachability.ts:5-33 | the recursive resolution with memo table and visiting set refines the pure resolution, and restores the visiting set |
| ProfileReachability.Resolver.Expand | tools/registry/test-suite-reachability.ts:19-32 | expanding one profile refines it too |
| ProfileReachability.ResolvedIsSound | tools/registry/test-suite-reachability.ts:5-33 | from tables that are sound, resolution gives a part of the chain's suites whose missing rest belongs to profiles still being resolved or already covered, exact when no cycle is reached; every cycle or missing base on the chain is reported and every report is true; the tables stay sound |
| ProfileReachability.AllResolved | tools/registry/test-suite-reachability.ts:42-49 | resolving any names in turn with one cache gives exactly the union of their chains, whatever the cache lacks |
| ProfileCache.TrailExists | tools/registry/test-suite-reachability.ts:19-32 | each resolution that expands follows a trail: distinct uncached profiles, each extending the next, up to an end, a stored set, a missing profile or one met before |
| ProfileCache.TrailResolved | tools/registry/test-suite-reachability.ts:5-33 | it stores exactly the profiles of the trail, each with what the trail holds from there on and the set it runs into, and reports exactly the name met twice or missing |
| ProfileCache.StoredExactly | tools/registry/test-suite-reachability.ts:27-32 | a stored set is the whole of its chain if and only if the part of the trail kept for it holds again all that it skips: what the set run into lacks, or what lies between where a cycle closes and here |
| ProfileCache.TwoProfileCycle | tools/registry/test-suite-reachability.ts:9-12 | two profiles that extend each other: the second one's stored set lacks a suite of its chain, the public one's answer does not |
| ProfileReachability.ReachablePublicSuites | tools/registry/test-suite-reachability.ts:42-49 | the reachable suites are exactly the union of the suites on the extends chains of all public profiles, also when cached sets are incomplete; each reported issue is true |
| ProfileReachability.PublicProfileNames | tools/registry/test-suite-reachability.ts:38-41 | exactly the names ending in -public of profiles that are not dynamic |
| ProfileReachability.PublicExactly | tools/registry/test-suite-reachability.ts:38-41 | a profile is public if and only if it is declared, its name ends in -public and it is not dynamic |
| ProfileReachability.TestSuiteReachabilityIssues | tools/registry/test-suite-reachability.ts:35-66 | returns exactly the issues, in order: what resolving the sorted public profiles reports, then the unreachable suites by id, each once; and they meet the declarative report |
| ProfileReachability.UnreachableIssues | tools/registry/test-suite-reachability.ts:60-64 | exactly the coverage suites that no public profile reaches |
| ProfileReachability.WithoutRepeats | tools/registry/test-suite-reachability.ts:65-65 | the same issues, each once |
| ProfileReachability.CoverageIds | tools/registry/test-suite-reachability.ts:51-55 | exactly the non-empty ids of suites that contribute to coverage |
| ProfileReachability.ChainStep | tools/registry/test-suite-reachability.ts:21-29 | a chain's suites are the profile's own and those of its base's chain |
| ProfileReachability.CleanExactly | tools/registry/test-suite-reachability.ts:35-66 | no issue if and only if every public chain ends without a cycle or missing profile and together they hold every coverage suite |
| ModuleResolution.Parent | tools/generators/generate-supply-chain-artifacts.ts:126-137 | the next scope is strictly shorter |
| ModuleResolution.ResolveDependencyPath | tools/generators/generate-supply-chain-artifacts.ts:116-139 | the walk ends and finds the first usable candidate among the scopes |
| ModuleResolution.ScopesAreEnclosingPlaces | tools/generators/generate-supply-chain-artifacts.ts:126-137 | cutting the cursor at markers and slashes visits exactly the enclosing packages and directories, innermost first |
| ModuleResolution.ResolvesToNearest | tools/generators/generate-supply-chain-artifacts.ts:116-139 | the result is the candidate at the nearest enclosing place with a usable entry, and none if and only if no enclosing place has one |
| ModuleResolution.NameRoundTrip | tools/generators/generate-supply-chain-artifacts.ts:38-55 | the package name read from a resolved path is the requested name if and only if that is a valid name not holding node_modules/ |
| ModuleResolution.ScopeIsLost | tools/generators/generate-supply-chain-artifacts.ts:38-55 | the other case occurs: a valid scoped name whose scope ends in node_modules is read back without its scope |
| SupplyChainInventory.NormalizeLockfile | tools/generators/generate-supply-chain-artifacts.ts:141-242 | succeeds if and only if the lock file is acceptable, and then gives the inventory described without any order: one component per package URL with the conjunction of optional flags, all its lock paths, and the union of resolved dependencies minus itself |
| SupplyChainInventory.CheckSources | tools/generators/generate-supply-chain-artifacts.ts:147-166 | accepts if and only if every external entry comes from the registry or is the authorized vendored package |
| SupplyChainInventory.ExternalPaths | tools/generators/generate-supply-chain-artifacts.ts:168-174 | the sorted list of exactly the external, non-dev, non-link paths |
| SupplyChainInventory.MergeComponents | tools/generators/generate-supply-chain-artifacts.ts:176-212 | succeeds if and only if every entry is well formed and no two of one package URL conflict; components then stand for all their paths |
| SupplyChainInventory.LinkComponents | tools/generators/generate-supply-chain-artifacts.ts:214-223 | each component's dependencies become the union over its lock paths, without itself |
| SupplyChainInventory.RootDependencies | tools/generators/generate-supply-chain-artifacts.ts:225-235 | exactly the package URLs that internal packages resolve to |
| SupplyChainInventory.InventoryRootRefs | tools/generators/generate-supply-chain-artifacts.ts:244-257 | the queue ends with exactly the references reachable from the roots |
| SupplyChainInventory.ReachableComponents | tools/generators/generate-supply-chain-artifacts.ts:237-241 | the reachable components, strictly increasing by package URL |
| SupplyChain.AcceptedExactly | tools/generators/generate-supply-chain-artifacts.ts:141-212 | acceptable, entry by entry: version 3 with a root, every installed entry a link or from the registry or the vendored archive, every shipped one with a name, plain version and licence and a digest, and no two of one package URL that differ |
| SupplyChain.ComponentExactly | tools/generators/generate-supply-chain-artifacts.ts:176-223 | a component tells of all shipped entries with its URL: it is optional if and only if all of them are, and depends on what any of them leads to except itself |
| SupplyChain.LockPathsExactly | tools/generators/generate-supply-chain-artifacts.ts:176-212 | its lock paths are exactly those entries, and its name, version, licence and digest are theirs |
| SupplyChain.InventoryUnique | tools/generators/generate-supply-chain-artifacts.ts:237-242 | the description of an inventory has at most one solution |
| SupplyChain.OrderIndependent | tools/generators/generate-supply-chain-artifacts.ts:168-242 | any order of the package entries succeeds or fails alike and gives the same inventory |
| SupplyChain.ReferencesResolve | tools/generators/generate-supply-chain-artifacts.ts:214-257 | every root and component dependency is listed, and the listed URLs are the least set with the root dependencies closed under dependencies |
| BillOfMaterials.CoordinatesRoundTrip | tools/generators/generate-supply-chain-artifacts.ts:73-82 | group and name put together give the package name back if and only if it is unscoped or holds a slash |
| BillOfMaterials.BareScope | tools/generators/generate-supply-chain-artifacts.ts:73-82 | a scoped name without a slash does not come back |
| BillOfMaterials.BuildSbom | tools/generators/generate-supply-chain-artifacts.ts:274-309 | succeeds if and only if the root's metadata, read from the lock file, is usable, and gives the bill described for the inventory |
| BillOfMaterials.RootExactly | tools/generators/generate-supply-chain-artifacts.ts:275-279 | the root is told by its own name and version or else the file's, and by its own licence, all plain text |
| BillOfMaterials.ComponentDescribed | tools/generators/generate-supply-chain-artifacts.ts:259-272 | each component is described by its own URL, version, licence, digest and scope, and by group and name as its package name has them |
| BillOfMaterials.DependenciesExactly | tools/generators/generate-supply-chain-artifacts.ts:280-289 | the dependency records are that of the root and one for each component, each with exactly its references in order |
| BillOfMaterials.GenerateBill | tools/generators/generate-supply-chain-artifacts.ts:359-362 | from the lock file alone: there is a bill if and only if the lock file is acceptable and the root's metadata usable, and it is the bill of the inventory of that lock file |
| BillOfMaterials.SbomReferencesResolve | tools/generators/generate-supply-chain-artifacts.ts:280-307 | every dependsOn entry is the bom-ref of a listed component, and bom-refs strictly increase |
| BillOfMaterials.SbomOrderIndependent | tools/generators/generate-supply-chain-artifacts.ts:274-309 | lock files with the same entries in any order give the same bill or none alike |
| BillOfMaterials.DependencyRefsDistinct | tools/generators/generate-supply-chain-artifacts.ts:280-289 | dependency records name each package once if and only if the root is not also a component |
| BillOfMaterials.RootNamedTwice | tools/generators/generate-supply-chain-artifacts.ts:141-309 | every lock file whose root installs its own name and version is accepted and its bill names the root twice |
| BillOfMaterials.ItselfExists | tools/generators/generate-supply-chain-artifacts.ts:141-309 | such a lock file exists for every valid name, and wherever its one dependency can be read |
| ConsoleBridge.StepKeepsInv | apps/console/plugin-console-isolation.ts:226-329 | each arrival, completion, timeout and revocation keeps calls, timers, controllers and replies accounted for |
| ConsoleBridge.RunKeepsInv | apps/console/plugin-console-isolation.ts:207-335 | under every interleaving inFlight is the number of unsettled calls and at most four; before revocation timers and controllers are those of the unsettled calls, afterwards both are empty; every invoked call was allowed |
| ConsoleBridge.ClampIsIdle | apps/console/plugin-console-isolation.ts:327-327 | the clamp at zero never takes effect |
| ConsoleBridge.SilentAfterRevocation | apps/console/plugin-console-isolation.ts:226-274 | after the revocation nothing is posted and no call starts, while inFlight drains by exactly the calls that settle |
| ConsoleBridge.RepliedExactly | apps/console/plugin-console-isolation.ts:260-328 | each message has at most one reply, and has one if and only if it is rejected, or its call settles deliverably, before revocation |
| ConsoleBridge.UncloneableGetsNoReply | apps/console/plugin-console-isolation.ts:271-314 | an allowed call whose result cannot be cloned settles before revocation and gets no reply |
| ConsoleBridge.AdmittedExactly | apps/console/plugin-console-isolation.ts:275-301 | a tool call starts if and only if the message is current, listed and within the limit and fewer than four calls are unsettled; a further one is told the concurrency limit |
| ConsoleBridge.SettledReply | apps/console/plugin-console-isolation.ts:302-322 | a settled call's reply says success, payload too large, timeout if its own timer had fired, or denied |
| ConsoleBridge.RunContinues | apps/console/plugin-console-isolation.ts:260-329 | a run can be cut at any event |
| ConsoleHistory.RevokedExactly | apps/console/plugin-console-isolation.ts:226-280 | over every run the bridge is revoked if and only if some event is an outside revocation, a failed guest, or an invoke message with a valid id from a stale view |
| ConsoleHistory.RevokerHasLastWord | apps/console/plugin-console-isolation.ts:226-280 | the first such event ends the posts: for a stale message its own result comes first, then the reason, then nothing more |
| ConsoleHistory.MessageAnswered | apps/console/plugin-console-isolation.ts:260-300 | each check is told by its own code, the first that fails; a message that passes all starts a call and is told nothing yet; what is not heard is not answered |
| ConsoleHistory.SettlementTold | apps/console/plugin-console-isolation.ts:302-328 | a settling call leaves the unsettled ones and is told success, excess size, timeout or failure, unless the bridge is revoked or its result cannot be cloned |
| ConsoleHistory.CallsExactly | apps/console/plugin-console-isolation.ts:296-328 | over every run a call has started, is unsettled, has timed out and still has its timer if and only if the events say so |
| ConsoleBridge.HostBridge.Revoke | apps/console/plugin-console-isolation.ts:226-243 | the first revocation clears timers and controllers, posts once and closes; later ones do nothing |
| ConsoleBridge.HostBridge.OnMessage | apps/console/plugin-console-isolation.ts:260-300 | the handler refines the arrival step, in the order of its checks, which `MessageAnswered` and `RevokedExactly` characterize |
| ConsoleBridge.HostBridge.OnSettled | apps/console/plugin-console-isolation.ts:302-328 | the completion, with its finally block, refines the settle step |
| ConsoleBridge.HostBridge.OnTimeout | apps/console/plugin-console-isolation.ts:300-300 | the timer refines the timeout step |
| ConsoleToken.RunKeepsInv | apps/console/plugin-console-isolation.ts:156-205 | under every interleaving of calls, session answers, continuations and results, each call is waiting, failed or posted once, and token, promise and fetches fit together |
| ConsoleToken.OneFetchAtATime | apps/console/plugin-console-isolation.ts:163-179 | at most one session fetch is in flight, and all but the last brought no token |
| ConsoleToken.NoEmptyToken | apps/console/plugin-console-isolation.ts:173-187 | no invoke request is posted with an empty token, and no call is posted twice |
| ConsoleToken.TokenLasts | apps/console/plugin-console-isolation.ts:163-203 | once there is a token there is one for good and no further session fetch starts |
| ConsoleToken.SharedFate | apps/console/plugin-console-isolation.ts:174-179 | all calls that wait on one fetch share its fate, whatever happens in between |
| ConsoleToken.StepTells | apps/console/plugin-console-isolation.ts:163-203 | each event changes the token only if it provides one, posts only if it posts a call, and starts a fetch only if a new call finds neither token nor fetch |
| ConsoleToken.TokenIsLastProvided | apps/console/plugin-console-isolation.ts:169-203 | over every run the token is the one last provided by a session answer or by a result |
| ConsoleToken.PostedExactly | apps/console/plugin-console-isolation.ts:163-199 | over every run the posted requests are exactly those that events post, each with the token of its moment |
| ConsoleToken.RunContinues | apps/console/plugin-console-isolation.ts:156-205 | a run can be cut at any event |
| ConsoleToken.TokenSource.Invoke | apps/console/plugin-console-isolation.ts:163-178 | a call up to its first await refines the start step |
| ConsoleToken.TokenSource.OnSession | apps/console/plugin-console-isolation.ts:169-173 | the session's answer refines its step, also when the token is empty |
| ConsoleToken.TokenSource.OnFinally | apps/console/plugin-console-isolation.ts:174-176 | the end of the promise forgets it |
| ConsoleToken.TokenSource.Resume | apps/console/plugin-console-isolation.ts:178-187 | a waiting call posts the token that is there when it goes on, or fails |
| ConsoleToken.TokenSource.OnResult | apps/console/plugin-console-isolation.ts:200-204 | a result replaces the token only by a non-empty one |
| BackgroundSupervisor.StepKeepsInv | tools/server-scripts/background-supervisor.ts:265-485 | each event keeps the tables of children, records and suppressed roles accurate |
| BackgroundSupervisor.RunKeepsInv | tools/server-scripts/background-supervisor.ts:234-485 | the same in every interleaving of reconcile passes, demand answers, exits, restart timers and shutdown |
| BackgroundSupervisor.OneChildPerRole | tools/server-scripts/background-supervisor.ts:401-441 | two live children never share a role, and the live one is the tracked one |
| BackgroundSupervisor.ExitRemovesOnlyItself | tools/server-scripts/background-supervisor.ts:341-344 | an exit removes exactly the exiting child, never a newer one |
| BackgroundSupervisor.RestartCountExact | tools/server-scripts/background-supervisor.ts:341-382 | the restart count is the number of unsuppressed exits before closing, and as many restarts were scheduled, whatever heartbeats, respawns and idle stops write |
| BackgroundSupervisor.NoSpawnAfterClosing | tools/server-scripts/background-supervisor.ts:265-272 | after closing no child is ever spawned and live children leave only by their own exits |
| SupervisorHistory.SpawnedExactly | tools/server-scripts/background-supervisor.ts:401-420 | in every reachable state an event spawns a child of a role if and only if the supervisor is not closing, the role is untracked, and the event is a reconcile of an always-on role or an awaited demand that is active |
| SupervisorHistory.ChildrenExactly | tools/server-scripts/background-supervisor.ts:265-307 | over every run the children ever spawned are exactly those its events ask for, numbered in order |
| SupervisorHistory.DemandDecides | tools/server-scripts/background-supervisor.ts:408-441 | an active demand leaves the role desired and, unless closing, tracked; an inactive one spawns nothing, leaves the role not desired and its tracked child asked to stop |
| SupervisorHistory.OnlyDemandWaits | tools/server-scripts/background-supervisor.ts:218-230 | only the on-demand role waits for a demand, once for each reconcile that has not got one |
| SupervisorHistory.AlwaysOnTracked | tools/server-scripts/background-supervisor.ts:401-407 | an always-on role that is reconciled has its tracked child unless closing, and nothing happens if it had one |
| SupervisorHistory.StopsExactly | tools/server-scripts/background-supervisor.ts:421-440 | over every run a child was asked to stop exactly by the inactive demands that met it, and the last of them decides whether that went through |
| SupervisorHistory.ExitDecides | tools/server-scripts/background-supervisor.ts:341-382 | an exit is followed by a scheduled restart if and only if the supervisor is not closing and the child was not stopped, and the record says which it was |
| SupervisorHistory.ReportsOnlyRewrite | tools/server-scripts/background-supervisor.ts:314-398 | a heartbeat and an error rewrite the record of the child's own role, each as described, and nothing else |
| SupervisorHistory.ClosingExactly | tools/server-scripts/background-supervisor.ts:455-460 | the supervisor is closing if and only if it was shut down |
| BackgroundSupervisor.Supervisor.SpawnRole | tools/server-scripts/background-supervisor.ts:265-307 | spawning refines the spawn function: skipped when closing, restart count carried over |
| BackgroundSupervisor.Supervisor.ReconcileRole | tools/server-scripts/background-supervisor.ts:401-408 | the first half of a reconcile refines its step |
| BackgroundSupervisor.Supervisor.ResumeReconcile | tools/server-scripts/background-supervisor.ts:408-441 | the half after the awaited demand refines its step, which `DemandDecides` characterizes, in whatever state it then finds |
| BackgroundSupervisor.Supervisor.RecordIdleRole | tools/server-scripts/background-supervisor.ts:234-251 | recording idleness rewrites the record and nothing else |
| BackgroundSupervisor.Supervisor.UpdateRoleDemand | tools/server-scripts/background-supervisor.ts:253-263 | recording demand marks the role desired and changes no other record |
| BackgroundSupervisor.Supervisor.OnChildExit | tools/server-scripts/background-supervisor.ts:341-382 | the exit handler refines the exit step |
| BackgroundSupervisor.Supervisor.OnChildHeartbeat | tools/server-scripts/background-supervisor.ts:314-339 | a heartbeat refines its step and keeps the restart count |
| BackgroundSupervisor.Supervisor.OnChildError | tools/server-scripts/background-supervisor.ts:384-398 | an error refines its step |
| BackgroundSupervisor.Supervisor.ShutDown | tools/server-scripts/background-supervisor.ts:455-485 | shutdown refines its step |
| BundlePaths.SafePathExactly | tools/server-scripts/enterprise-single-node-offline-bundle.ts:255-295 | the answer is the input unchanged or none, and the input exactly for the safe paths |
| BundlePaths.SafePathText | tools/server-scripts/enterprise-single-node-offline-bundle.ts:255-295 | a path passes if and only if it is not empty, in normal form, without backslash, control or direction characters, and each segment is a real name without blanks at its ends |
| BundlePaths.PlainPathIsNormal | tools/server-scripts/enterprise-single-node-offline-bundle.ts:255-295 | a path of plain segments is its own normal form, so the checks after normalizing never refuse it |
| BundlePaths.WithinExactly | tools/server-scripts/enterprise-single-node-offline-bundle.ts:173-177 | the containment check holds if and only if the candidate lies strictly below the root |
| BundlePaths.SafePathStaysWithin | tools/server-scripts/enterprise-single-node-offline-bundle.ts:255-295 | an accepted path resolved under any root lies strictly within it, its own segments below |
| BundlePaths.AddPrefixes | tools/server-scripts/enterprise-single-node-offline-bundle.ts:356-368 | adding a path succeeds if and only if folding stays injective on all prefixes so far |
| BundlePaths.PrefixesExactly | tools/server-scripts/enterprise-single-node-offline-bundle.ts:356-368 | the prefixes compared are the path itself and whatever stands before one of its slashes |
| BundlePaths.ValidateInventoryPaths | tools/server-scripts/enterprise-single-node-offline-bundle.ts:325-375 | accepts, unchanged, if and only if all paths are safe and distinct and case folding is injective on all prefixes of all entries, for any folding; otherwise reports the problem of the first entry that spoils the list |
| BundlePaths.AcceptableStep | tools/server-scripts/enterprise-single-node-offline-bundle.ts:331-372 | one more entry is acceptable if and only if it is safe, new, and folds apart from everything before |
| BundleTree.PathsDistinct | tools/server-scripts/enterprise-single-node-offline-bundle.ts:571-596 | no path names two entries of a tree |
| BundleTree.JoinedApart | tools/server-scripts/enterprise-single-node-offline-bundle.ts:571-596 | nor does the path joined by slashes |
| BundleTree.WeighCounts | tools/server-scripts/enterprise-single-node-offline-bundle.ts:569-577 | the entry budget counts the entries at any depth |
| BundleTree.CompleteWalkLists | tools/server-scripts/enterprise-single-node-offline-bundle.ts:617-619 | sorting what a complete walk recorded lists exactly the regular files, strictly by path |
| BundleCollector.CollectRegularFiles | tools/server-scripts/enterprise-single-node-offline-bundle.ts:554-620 | succeeds if and only if every entry is a shallow enough directory or an acceptable regular file on a safe path and the entry, file and byte budgets hold over the whole tree; then lists every file exactly once, sorted; otherwise the error names something wrong with the tree |
| BundleCollector.VisitEntry | tools/server-scripts/enterprise-single-node-offline-bundle.ts:577-616 | one entry is recorded, stacked or refused; a refusal is justified by the whole tree |
| BundleCollector.TooDeep | tools/server-scripts/enterprise-single-node-offline-bundle.ts:565-567 | popping a directory that is too deep refuses a tree that holds one |
| BundleCollector.FitExactly | tools/server-scripts/enterprise-single-node-offline-bundle.ts:384-448 | an entry is fit to be collected if and only if it is a regular file on a safe path, executable by nobody, of the expected mode, linked once and within the size budget |
| BundleCollector.RefusedFor | tools/server-scripts/enterprise-single-node-offline-bundle.ts:384-448 | each refusal names what is wrong, path before kind before execute bits |
| BundleCopier.CopyExactTree | tools/server-scripts/offline-delivery-disconnected-verifier.ts:33-123 | succeeds if and only if the source is a directory, the target absent or an empty directory and no entry denied; then files and directories of the target are exactly the source's, with the copier's own modes, and the manifest lists every file once with digest and size, sorted by path; each failure is told by its own error, and then the target holds only source files |
| BundleCopier.CopyEntry | tools/server-scripts/offline-delivery-disconnected-verifier.ts:76-118 | one entry is copied, stacked or denied, and the target keeps mirroring what was visited |
| BundleCopier.CopyNext | tools/server-scripts/offline-delivery-disconnected-verifier.ts:76-118 | the next entry of a directory keeps the walk's account of what is done and what is left |
| BundleCopier.CopyDirectory | tools/server-scripts/offline-delivery-disconnected-verifier.ts:69-119 | so does a directory's whole list of entries |
| BundleCopier.PathIsNew | tools/server-scripts/offline-delivery-disconnected-verifier.ts:110-110 | exclusive creation never meets a file written before |
| BundleCopier.CopiedOrDenied | tools/server-scripts/offline-delivery-disconnected-verifier.ts:81-101 | an entry is copied if and only if it is a directory or a regular file that nobody may execute; links and other entries are denied differently |
| BundleCopier.ManifestTells | tools/server-scripts/offline-delivery-disconnected-verifier.ts:109-121 | the manifest describes the target: an entry for each of its files with that file's own digest and size, and no other |
| BundleCopier.RelativePath | tools/server-scripts/offline-delivery-disconnected-verifier.ts:78-80 | the growing relative path is the list of names joined by slashes |
| OciLayout.ReadBlob | tools/server-scripts/enterprise-single-node-offline-bundle.ts:657-688 | a blob is returned if and only if the descriptor is well formed and allowed and the file at its digest's path is there with that hash and size, within the limit where it is captured; and it is that file |
| OciLayout.BuildDescriptorClosure | tools/server-scripts/enterprise-single-node-offline-bundle.ts:1025-1109 | succeeds if and only if there are two entries per platform, each well formed, no two for the same thing, and a manifest for every platform; then the two maps hold every entry under its key and nothing else |
| OciLayout.ReadManifest | tools/server-scripts/enterprise-single-node-offline-bundle.ts:690-735 | the manifest is the one that the descriptor leads to, and none if and only if it leads to none |
| OciLayout.CheckConfig | tools/server-scripts/enterprise-single-node-offline-bundle.ts:736-755 | accepts if and only if the manifest's config is genuine and fits platform and layers |
| OciLayout.AssertManifestForPlatform | tools/server-scripts/enterprise-single-node-offline-bundle.ts:690-772 | accepts if and only if the descriptor leads to a genuine manifest, config and layers of that platform, and adds exactly their paths |
| OciLayout.AssertAttestationManifest | tools/server-scripts/enterprise-single-node-offline-bundle.ts:774-833 | accepts if and only if the descriptor leads to a genuine manifest whose subject is that runtime descriptor, and adds exactly its paths |
| OciLayout.ArchitecturesDiffer | tools/server-scripts/enterprise-single-node-offline-bundle.ts:23-26 | different platforms stand for different architectures |
| OciInspection.InspectLayout | tools/server-scripts/enterprise-single-node-offline-bundle.ts:1111-1264 | accepts if and only if marker and index are authoritative, the index is complete, every platform has its manifest, attestation and evidence, and the files are exactly the two markers and what the entries of the index reach |
| OciInspection.ReadMarker | tools/server-scripts/enterprise-single-node-offline-bundle.ts:1127-1140 | the marker is there, small enough and as it has to be |
| OciInspection.ReadIndex | tools/server-scripts/enterprise-single-node-offline-bundle.ts:1142-1165 | the index is read in the order of its checks, which `IndexIsAuthoritative` and `AcceptedExactly` characterize |
| OciAcceptance.AcceptedExactly | tools/server-scripts/enterprise-single-node-offline-bundle.ts:1111-1264 | a layout is accepted if and only if it has a marker, the index that the authority names by both hashes, of version 2 and the index media type, and whole images with attestations for the two platforms that the index and the evidence list and nothing else, and no other file; said without any of the checks |
| OciAcceptance.IndexIsAuthoritative | tools/server-scripts/enterprise-single-node-offline-bundle.ts:1142-1158 | an accepted layout's index has the authority's image digest and text hash |
| OciAcceptance.ClosureExactly | tools/server-scripts/enterprise-single-node-offline-bundle.ts:1183-1236 | the inspection then names the two images' descriptors, in platform order |
| OciAcceptance.DigestFixesContent | tools/server-scripts/enterprise-single-node-offline-bundle.ts:657-688 | with a hash without collisions, accepted layouts of one image digest hold the same files and, apart from the marker, the same bytes |
| OciInspection.EvidenceByPlatform | tools/server-scripts/enterprise-single-node-offline-bundle.ts:1168-1181 | succeeds if and only if every piece of evidence names a platform and no two the same |
| OciInspection.InspectPlatform | tools/server-scripts/enterprise-single-node-offline-bundle.ts:1185-1229 | accepts if and only if the index holds a matching manifest and attestation of the platform |
| OciInspection.RuntimeDigestsDiffer | tools/server-scripts/enterprise-single-node-offline-bundle.ts:736-755 | two platforms never share a manifest digest, because its config names one architecture |
| OciInspection.OneToOne | tools/server-scripts/enterprise-single-node-offline-bundle.ts:1185-1229 | pairs that share a runtime or attestation digest are the same pair |
| OciInspection.EveryEntryPaired | tools/server-scripts/enterprise-single-node-offline-bundle.ts:1025-1109 | by counting, every entry of the index is in the pair of some platform |
| OciInspection.AttestationsMatchManifests | tools/server-scripts/enterprise-single-node-offline-bundle.ts:1185-1216 | every attestation of an accepted index belongs to the manifest of exactly one platform |
| OciInspection.PairsCoverIndex | tools/server-scripts/enterprise-single-node-offline-bundle.ts:1183-1216 | going through the platforms reaches exactly what the whole index reaches |
| OciInspection.SamePaths | tools/server-scripts/enterprise-single-node-offline-bundle.ts:1246-1257 | comparing sorted lists place by place compares the sets of paths |
| OciInspection.ContentAddressed | tools/server-scripts/enterprise-single-node-offline-bundle.ts:657-688 | every file of an accepted layout except the markers lies at the path of its own hash |
| BranchFlow.OneStageAtATime | tools/scripts/verify-branch-flow.ts:28-58 | a pull request is accepted if and only if its base is not retired and, if long-lived, it moves exactly one stage along the chain within one repository |
| BranchFlow.OtherEvents | tools/scripts/verify-branch-flow.ts:35-42 | a push event is accepted if and only if it is on a long-lived branch, and other events always are |
| BranchFlow.PassesExactly | tools/scripts/verify-branch-flow.ts:89-112 | a push passes if and only if it moves a long-lived branch from one real commit to a descendant, stable to the nightly tip and release to the stable tip |
| BranchFlow.PromotionPasses | tools/scripts/verify-branch-flow.ts:103-112 | the upstream's tip can be promoted from any of its real ancestors, and becomes the branch's tip |
| BranchFlow.RefusalTold | tools/scripts/verify-branch-flow.ts:96-112 | a push that does not pass is told the first thing that is wrong with it |
| BranchFlow.PushKeepsChainExactly | tools/scripts/verify-branch-flow.ts:89-112 | a push that passes, whatever commit it starts from, keeps a chain if and only if it is a promotion or its commit holds the stable tip |
| BranchFlow.PushAdvancesExactly | tools/scripts/verify-branch-flow.ts:89-112 | on a chain, a push that passes moves its branch forward if and only if it is a promotion or its commit holds the nightly tip |
| BranchFlow.StaleNightlyBreaksChain | tools/scripts/verify-branch-flow.ts:97-104 | a concrete nightly push from an older tip that passes, takes the branch back and breaks the chain |
| BranchFlow.PresentTipExtends | tools/scripts/verify-branch-flow.ts:97-102 | a push that passes and starts from the present tip extends it |
| BranchFlow.TipsOnlyAdvance | tools/scripts/verify-branch-flow.ts:89-112 | between any two points of any run a branch advances, if the pushes to that branch extend it |
| BranchFlow.LinkLasts | tools/scripts/verify-branch-flow.ts:89-112 | without any chain at the start, a link that held at some point or was made there by a promotion holds from then on, if the pushes to its upstream extend it |
| BranchFlow.RunKeepsChain | tools/scripts/verify-branch-flow.ts:89-112 | over every run, release stays behind stable and stable behind nightly at every point if and only if it was so at the start and every nightly push holds the stable tip it finds; promotions need no condition |
| BranchFlow.NightlyDecides | tools/scripts/verify-branch-flow.ts:89-112 | from a chain, if nightly pushes extend their tip then so do all promotions |
| BranchFlow.ChainOnlyAdvances | tools/scripts/verify-branch-flow.ts:89-112 | from a chain, every tip advances between any two points of a run in which nightly pushes extend theirs |
| BranchFlow.PromotionsEstablishChain | tools/scripts/verify-branch-flow.ts:89-112 | from any start, one promotion to stable and one to release, in any order, set the chain up for good, if nightly and stable pushes extend their tips |
| BranchFlow.PromotionsInOrderEstablishChain | tools/scripts/verify-branch-flow.ts:89-112 | a promotion to stable and a later one to release do so with a condition on nightly pushes alone |
| BranchFlow.PromotedFromUpstream | tools/scripts/verify-branch-flow.ts:106-112 | a tip that is not the first one was the upstream's tip at the moment of an accepted promotion |
| BranchFlow.ReleaseWasNightly | tools/scripts/verify-branch-flow.ts:106-112 | every new release tip was an initial stable tip or a nightly tip of the run |
| ProducerOrder.FindReady | tools/server-scripts/enterprise-operations-closure.ts:275-277 | the first producer whose dependencies are done, or none if there is none |
| ProducerOrder.OrderedProducers | tools/server-scripts/enterprise-operations-closure.ts:270-286 | for any catalog, returns a permutation in which each producer follows its dependencies, and fails if and only if no such order exists; a catalog in order is returned unchanged |
| ProducerOrder.SomethingIsReady | tools/server-scripts/enterprise-operations-closure.ts:274-280 | as long as some order exists, a part in order leaves a producer that is ready |
| ProducerOrder.OrderExistsExactly | tools/server-scripts/enterprise-operations-closure.ts:278-280 | with unique ids an order exists if and only if no dependency dangles and there is no cycle |
| DeploymentStages.Deployment.CompleteStage | tools/server-scripts/offline-delivery-local-up.ts:128-140 | adds the stage once and replaces the file as a whole or not at all |
| DeploymentStages.Deployment.MakeBundle | tools/server-scripts/offline-delivery-local-up.ts:276-321 | the first three stages are recorded one by one, each only once its work and recording succeed, and the run stops at the first that does not |
| DeploymentStages.Deployment.TransferAndImport | tools/server-scripts/offline-delivery-local-up.ts:323-362 | the same for transfer and import |
| DeploymentStages.Deployment.ActivateAndVerify | tools/server-scripts/offline-delivery-local-up.ts:363-381 | the same for the last three stages |
| DeploymentStages.Deployment.Run | tools/server-scripts/offline-delivery-local-up.ts:234-393 | from any state file at all: a run that is not reused succeeds if and only if every step it needs does, then reports the eight stages in order with what was resumed; once prepared it records exactly the stages before the first whose work or recording fails, and the file holds what `ListedPrefix` and `PrefixExactly` characterize |
| DeploymentStages.NewlyListedWorked | tools/server-scripts/offline-delivery-local-up.ts:264-381 | the file newly lists a stage only if all of that stage's work succeeded in this run |
| DeploymentStages.WorkListed | tools/server-scripts/offline-delivery-local-up.ts:276-381 | a stage succeeds if and only if each step listed as its work does |
| DeploymentStages.ResumedMeansSkipped | tools/server-scripts/offline-delivery-local-up.ts:286-362 | after the candidate, a stage is reported as resumed if and only if it has no work of its own left |
| DeploymentStages.ReadExactly | tools/server-scripts/offline-delivery-local-up.ts:113-126 | stages are read exactly from a file of the right schema for that candidate, and from nothing else |
| DeploymentStages.IndexOf | tools/server-scripts/offline-delivery-local-up.ts:331-332 | the first place of the stage in the list, or -1 if it is not there |
| DeploymentStages.ListedPrefix | tools/server-scripts/offline-delivery-local-up.ts:264-381 | from a list that is a prefix, the file lists the stages the run recorded, and later ones it held before unless a stage was built again |
| DeploymentStages.PrefixExactly | tools/server-scripts/offline-delivery-local-up.ts:264-381 | from any list at all, the list that a run leaves is a prefix of the eight stages if and only if the part it keeps is one; rebuilding the bundle repairs every list |
| DeploymentStages.RunKeepsClean | tools/server-scripts/offline-delivery-local-up.ts:113-140 | a run for one candidate, stopped anywhere, keeps the lists of all candidates prefixes |
| DeploymentStages.AlwaysPrefix | tools/server-scripts/offline-delivery-local-up.ts:113-140 | after any history of runs every candidate's list is a prefix of the eight stages without repetition |
| DeploymentStages.VerifyIsRemembered | tools/server-scripts/offline-delivery-local-up.ts:264-381 | the file lists verify after a run if and only if this run recorded all stages, or it did before and no stage was built again |
| DeploymentStages.VerifyOutlivesFailure | tools/server-scripts/offline-delivery-local-up.ts:264-393 | for any candidate, a run that fails and after which the file still lists verify |

## Left out

- Raw values: fields are modelled after the code's own coercion to trimmed text, so values such as numbers or objects given for text fields are not distinguished; inherited property names such as `constructor` in profile and package tables, and null package entries, are not modelled.
- Text order: sorting and lengths are by code point, not by UTF-16 unit.
- Messages: error texts, finding messages, criterion texts, report rendering, `reasons` and the notices file are not modelled; the notices are computed from the same inventory as the bill.
- CheckpointFindings.GraphFindingsExactly: says which findings the comparison adds, not their order within it nor which of several cycles is reported; the passes themselves are appended in order (`CheckpointGraph.CompareCheckpoints`).
- CheckpointFindings.ReportExactly: a blocker's description, command and required evidence are checked but not carried in the report.
- CheckpointCycles.CycleSearch.Report: identifies a cycle by its set of vertices where the code joins sorted ids with a separator, so ids that hold the separator could there hide a duplicate report.
- ModuleResolution.ResolvesToNearest: places are package installations and plain directories; other cursor strings are covered by the string-level description only.
- BillOfMaterials.BuildSbom: licence, version and name texts are checked but not interpreted, a root name or version of blanks alone counts as absent, and the schema identifier, version constants, stable rendering and the privacy scan of the text are not part of the record.
- ConsoleBridge.RepliedExactly: whether an aborted tool call settles at all is not claimed.
- ConsoleBridge.HostBridge.OnMessage: iframe handling, admission of the entry and the bridge handshake are not modelled; the token is the subject of `ConsoleToken`, and the two machines are not composed.
- ConsoleToken.TokenSource.OnSession: a promise ends by its own last step, and every continuation that waits on it comes after; how a fetch fails is not distinguished, nor is it claimed that it answers.
- BackgroundSupervisor.Supervisor.ShutDown: signals, the delayed kill and process exit are not modelled; a child is live until its exit event.
- BackgroundSupervisor.Supervisor.OnChildError: no liveness is claimed after a failed spawn, nor that a process id is fresh; state persistence, logging and inspection recovery are not modelled.
- BundleCollector.CollectRegularFiles: of several things wrong with a tree the contract does not say which is reported, since that depends on the order of the walk; files that change while they are read are not modelled.
- BundleCopier.CopyExactTree: failures of the file system itself and files that change while they are copied are not modelled; the process's umask is not applied to the modes.
- OciInspection.InspectLayout: files are looked up by path in the collected content, so symbolic links, special modes and unsafe names are refused by the collection rather than by each read; error codes are not distinguished.
- DeploymentStages.Deployment.Run: port probing and the contents of caches are inputs.
- BranchFlow.RunKeepsChain: a push that passes is applied atomically, against the tips that its check saw; creation and deletion of branches are refused by the code and not modelled further.
- ProducerOrder.OrderedProducers: the reducer that consumes the order is not modelled.
- Signing, key custody, Docker, git and other network calls, the upgrade engine, the acceptance state matrix and optional startup are not part of this model.
