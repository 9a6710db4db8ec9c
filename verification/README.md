# Development Conveyor: verified control-plane model

The Development Conveyor is a deterministic controller around AI-assisted delivery. It routes work
from an append-only evidence ledger, keeps derived caches in agreement with that ledger, rewrites
repository metadata transactionally, and drives a project through one exclusive loop. This project
models that control plane in Dafny and proves its whole-run properties. `dafny verify dfyconfig.toml`
checks everything.

| file | models |
|---|---|
| `Prelude.dfy`, `Sequences.dfy`, `Text.dfy`, `Json.dfy` | option and result values, filtering, the Python string operations in use, JSON arrays of strings (RFC 8259, sections 5 and 7) |
| `ExecutionProfiles.dfy`, `PolicyRoundTrip.dfy` | the execution-policy validator, its Markdown printer and hand-written reader, and their round trip |
| `FeatureScoping.dfy` | depth-first cycle detection over the dependency graph |
| `PathPolicy.dfy`, `PhaseTransaction.dfy` | path safety and the mutation policy; the transaction lifecycle |
| `Ledger.dfy`, `Acceptance.dfy`, `IntegrationDiscovery.dfy` | the evidence ledger, the acceptance that writes it, and the discovery that reads it |
| `HumanGates.dfy` | the fold over human-gate events |
| `Markers.dfy`, `Worktree.dfy` | marker-block replacement; all-or-nothing file rewriting |
| `CycleCache.dfy`, `CacheConsistency.dfy`, `CycleCacheRepair.dfy` | the ledger-bound cycle cache, its checker, and its repair |
| `ExecutionPlan.dfy`, `FeatureQueue.dfy`, `QueueBinding.dfy` | routing from the projection: identity, plan, status, queue binding |
| `Ownership.dfy` | the file-backed ownership protocol between processes |
| `Autopilot.dfy`, `AutopilotSafety.dfy`, `AutopilotBound.dfy` | the continuous loop, the shape of every trace, the bound on handled failures |

Conventions. Code that changes state is a method over a class with the source's fields, proved equal
to a specification function; the properties are lemmas about that function. SHA-256 fingerprints and
name-based UUIDs are datatype constructors, hence injective. Git, clocks, schemas, the projection
engine and process probes are inputs or function parameters, so each result holds for all of them.
Failures are injected at every ledger append, file replacement, observation and reading that the
methods contain.

Several promised properties fail on a family of inputs. The model keeps the code's behaviour, states
the exact condition and gives a concrete input, unless the family is a single injected fault that the
contract of the method names:

- A policy reads back exactly when its free texts are single lines. `TWO_LINE_TRIGGER` is accepted by
  the validator and does not read back.
- Marker replacement is last-write-wins exactly when no begin marker lacks a later end marker; a bare
  begin marker is swallowed (`BareBeginIsSwallowed`).
- Plan and status agree exactly when the projection's next action is not empty.
- A bound feature cycle passes `projected_selection_matches_queue` exactly when the milestone is
  configured by its own identity and not by an alias that the queue also accepts.
- The four execution checks raise exactly when several features of the milestone await integration;
  `TWO_ACCEPTED` is such a queue.
- A cycle cache that was finalised for the current ledger passes the check exactly when the rebuild
  that stored its projection last has computed the projection of that whole ledger. A rebuild is not
  locked: one that started before an append can store afterwards, and a good cache is then reported as
  corrupt until the next rebuild (`SlowRebuildCorrupts`). A file that redaction has altered is
  reported as corrupt for good.
- The sequential writer of feature decisions keeps only the permission bits. Modes survive, and a
  failed call restores the tree, exactly when no written file has any other bit; a file with mode
  0o2644 ends with 0o644 (`SetGroupBitIsLost`).
- A metadata transaction whose second observation fails raises with every file rewritten.
- A cache repair that fails while it reads the files leaves its reservation behind, and every other
  run is then refused.
- A pair of feature and commit is accepted once, and read back, exactly when no completed call was
  checked before another completion of the pair: the duplicate check is not repeated under the
  writer lease, so two overlapping calls can both complete (`TwoCallsComplete`).
- A supersession that is interrupted between its two appends is final, but its recovery is never
  recorded (`SupersessionStaysUnrecorded`).
- A recovery is announced as applied and then charged as a failure exactly for five outcomes without
  human gate (`ExhaustedRecoveryRun`).
- Two runs that recover the same crashed owner can both return from `acquire`; two runs have acquired
  at once only after a recovery took away the file of a live one. A heartbeat that is not atomic can
  bring a displaced record back. Both are given as concrete runs.

`select_exact` raises for a feature that is not ready and never returns nothing, so one application
of the queue binding already reaches its fixed point.

## Model

| member | source | states |
|---|---|---|
| PolicyRoundTrip.RoundTrip | src/development_conveyor/execution_profiles.py:564-739 | for every accepted policy, reading the rendered section gives exactly the validated policy if and only if its free texts are single lines |
| PolicyRoundTrip.ValidateIdempotent | src/development_conveyor/execution_profiles.py:129-272 | validation accepts its own output and returns it unchanged, including stripped texts and sorted path lists |
| PolicyRoundTrip.TwoLineTriggerIsLost | src/development_conveyor/execution_profiles.py:564-694 | a policy whose trigger contains a line feed is valid but does not read back |
| ExecutionProfiles.RenderMarkdownExecutionPolicy | src/development_conveyor/execution_profiles.py:697-739 | the line-appending renderer computes the rendered text that the round trip is about, or the validation error |
| ExecutionProfiles.MarkdownExecutionPolicy | src/development_conveyor/execution_profiles.py:564-694 | the stateful reader computes the policy or the contract error that the round trip is about |
| ExecutionProfiles.FindBlocks | src/development_conveyor/execution_profiles.py:564-600 | the scan finds every policy head in every fenced block, in order |
| Json.DumpRoundTrip | src/development_conveyor/execution_profiles.py:726-737 | every list of strings written as compact JSON is read back unchanged, whatever characters it holds |
| Json.DumpPrintable | src/development_conveyor/execution_profiles.py:726-737 | the written list is printable ASCII between brackets, so it stays on one line |
| FeatureScoping.AssertAcyclic | src/development_conveyor/feature_scoping.py:134-154 | returns normally exactly for graphs without a cycle; otherwise the reported path is a dependency walk whose last node already occurs in it |
| FeatureScoping.CycleCheck.Visit | src/development_conveyor/feature_scoping.py:142-152 | the recursive visit ends, keeps the colouring consistent, and either finishes the node and all it reaches or extends the path to a cycle |
| FeatureScoping.FinishedIsAcyclic | src/development_conveyor/feature_scoping.py:134-154 | a finishing order of all nodes rules out every cycle |
| FeatureScoping.WitnessGivesCycle | src/development_conveyor/feature_scoping.py:142-146 | a reported path contains a genuine cycle |
| PhaseTransaction.AtMostSixChanges | src/development_conveyor/contracts.py:44-62 | every run of calls makes at most six real state changes, with a strictly decreasing rank |
| PhaseTransaction.CompletionPath | src/development_conveyor/contracts.py:44-62 | a completed run went through all five intermediate states, in order, and through no other |
| PhaseTransaction.TerminalAbsorbs | src/development_conveyor/contracts.py:375-391 | after a terminal state nothing about the transaction changes |
| PhaseTransaction.ClassificationOnce | src/development_conveyor/contracts.py:384-391 | the classification is set at most once, by the one terminate call that succeeds, and only together with a terminal state |
| PhaseTransaction.UnclassifiedTerminal | src/development_conveyor/contracts.py:375-391 | a terminal state that a plain transition enters, from any reachable state, keeps no classification and no reference for ever |
| PhaseTransaction.PhaseTransaction.TransitionTo | src/development_conveyor/contracts.py:375-382 | the mutator has the effect of the transition relation, or raises and changes nothing |
| PhaseTransaction.PhaseTransaction.TerminateIn | src/development_conveyor/contracts.py:384-391 | the mutator sets state, classification and reference together, or raises and changes nothing |
| PathPolicy.SafeIffJoined | src/development_conveyor/contracts.py:242-246 | the accepted paths are exactly "." and the joins of their proper components |
| PathPolicy.SafeIffSomeJoin | src/development_conveyor/contracts.py:242-246 | a path is accepted exactly when it is the join of some proper components, or "." |
| PathPolicy.UnderPrefixIffComponents | src/development_conveyor/contracts.py:273-289 | for accepted paths the string prefix test is the component prefix test, except for the prefix ".", which covers only itself |
| PathPolicy.ValidateDecides | src/development_conveyor/contracts.py:249-289 | validation succeeds exactly when every path is safe, allowed and not denied component-wise; its result is sorted, duplicate-free, complete and validates to itself |
| HumanGates.CheckHumanGates | src/development_conveyor/consistency.py:735-787 | the loop reports exactly the unsound resolutions and exactly the gates raised twice; it reports nothing if and only if the ledger is sound |
| HumanGates.SoundIffNoFinding | src/development_conveyor/consistency.py:735-787 | the declarative promise about human gates is equivalent to having no unsound resolution and no duplicate raise |
| Markers.LastWriteWins | src/development_conveyor/feature_decisions.py:104-110 | replacing twice equals replacing once by the second block, if and only if no begin marker is dangling |
| Markers.BareBeginIsSwallowed | src/development_conveyor/feature_decisions.py:104-110 | on a text that is only a begin marker two replacements never equal the last one |
| Markers.OneBlockAtEnd | src/development_conveyor/feature_decisions.py:104-110 | the result holds exactly one block, at its end, and replacing by the same block again changes nothing |
| Markers.ControllerMarkersProper | src/development_conveyor/feature_decisions.py:84-85 | the markers in use satisfy what the two theorems ask of markers |
| Worktree.Worktree.WriteTransactionally | src/development_conveyor/accepted_commit.py:292-337 | without a fault every file has its rendered bytes and mode; with a fault at any prepare or replace step every file has its original, no temporary file survives and no other path changes |
| Worktree.Worktree.MaterializeAcceptanceMetadata | src/development_conveyor/accepted_commit.py:340-428 | the transaction rewrites exactly the authorised files, or any failure up to the first observation puts every file back; a failure of the second observation raises with every file rewritten |
| Worktree.Worktree.WriteRendered | src/development_conveyor/feature_decisions.py:896-916 | the sequential writer writes exactly the differing files before the first failure, and after a failure their originals again; modes are kept, and a failed call restores the tree, exactly when no written file has a bit above the permissions |
| Worktree.RestoredIff | src/development_conveyor/feature_decisions.py:910-915 | writing the originals back restores the files exactly when their modes are plain permissions |
| Worktree.SetGroupBitIsLost | src/development_conveyor/feature_decisions.py:903-915 | a file with mode 0o2644 ends with 0o644, rewritten or put back |
| Worktree.RestoreOverwrites | src/development_conveyor/accepted_commit.py:325-332 | restoring a set of files forgets whatever was written to them in between |
| Ledger.OneTerminal | src/development_conveyor/ledger.py:198-248 | in a ledger built by admitted appends a transaction has at most one terminal event |
| Ledger.EvidenceLedger.Append | src/development_conveyor/ledger.py:198-248 | an append adds the stamped event exactly when it is admissible and keeps the ledger valid |
| Acceptance.AcceptFeature | src/development_conveyor/acceptance.py:460-650 | whatever interrupts the call and whatever other processes append between its duplicate check and its lease, the ledger afterwards is the specified one and valid; success means that the completion of exactly this candidate is recorded |
| Acceptance.SupersedeIncompleteStart | src/development_conveyor/acceptance.py:308-457 | a rejected call leaves the ledger unchanged; an accepted one appends exactly the specified events, or the first of them when it is interrupted between its two appends |
| Acceptance.SupersedeCompletes | src/development_conveyor/acceptance.py:308-457 | a fresh supersession that has appended its first event, interrupted or not, leaves no incomplete transaction and exactly one terminal event on the target, the one on the receipt |
| Acceptance.SupersedeIdempotent | src/development_conveyor/acceptance.py:322-352 | repeating it with the same retry identity at any later time appends nothing and reports the same terminal event, also after an interruption between the two appends |
| Acceptance.InterruptedSupersession | src/development_conveyor/acceptance.py:420-447 | after such an interruption the target keeps exactly its start and its terminal event, and a repeated call does not record the missing recovery |
| Acceptance.SupersessionStaysUnrecorded | src/development_conveyor/acceptance.py:420-447 | a concrete start whose supersession is interrupted between the two appends, and which no repeated call completes |
| Acceptance.CallWrites | src/development_conveyor/acceptance.py:500-645 | every event an acceptance writes, up to any interruption and with any part of its failure record, is admitted by the ledger |
| IntegrationDiscovery.ReaderRaisesIff | src/development_conveyor/integration_discovery.py:28-87 | over every run of interleaved acceptance calls, failures and foreign appends the reader raises for a pair exactly when a completed call had passed its duplicate check before another completion of the pair, and only because of several acceptances; otherwise it finds an acceptance exactly when there is one |
| IntegrationDiscovery.OneAcceptanceIff | src/development_conveyor/acceptance.py:522-536 | a pair of feature and commit is accepted at most once exactly when no completed call was overtaken in that way |
| IntegrationDiscovery.NeverOvertakenInTurn | src/development_conveyor/acceptance.py:522-536 | as long as no call for a pair is checked while another one for it is open, the reader never raises for the pair |
| IntegrationDiscovery.TwoCallsComplete | src/development_conveyor/acceptance.py:522-555 | for every candidate two calls under different run identities that are both checked first complete one after the other, and the reader raises from then on |
| IntegrationDiscovery.CallIsRun | src/development_conveyor/acceptance.py:460-650 | every outcome of the acceptance method, with any steps of other calls between its check and its lease, is an outcome of such a run |
| IntegrationDiscovery.AcceptanceReadsBack | src/development_conveyor/integration_discovery.py:54-87 | after a completed acceptance, whatever came before and comes later, the reader returns exactly its transaction, tree, branch, worktree and milestone base, unless the pair was overtaken, and then it raises |
| IntegrationDiscovery.StepKeeps | src/development_conveyor/acceptance.py:500-645 | every single read and append keeps the ledger valid, each acceptance the work of one call that had passed its check, and no two calls on one transaction |
| CycleCache.CacheStore.ValidateBinding | src/development_conveyor/cycle_cache.py:242-327 | planning reports, repairing rewrites and the default refuses a missing or stale projection cache; corrupt ones are never repaired |
| CycleCache.CacheStore.WriteTerminalCycleCache | src/development_conveyor/cycle_cache.py:429-494 | the file is replaced exactly when the document could be prepared, and the call succeeds exactly when the file holds it unaltered |
| CycleCache.PreparedIsBound | src/development_conveyor/cycle_cache.py:330-426 | a finalised document is signed and bound to a terminal transaction, the current ledger and its canonical projection, which is the persisted one |
| CycleCache.BindingIsCanonical | src/development_conveyor/cycle_cache.py:242-327 | the default policy yields a binding exactly when the persisted projection is the canonical one of a self-consistent ledger and the transaction is terminal |
| CycleCache.FinalizedNamesExpectedFeature | src/development_conveyor/cycle_cache.py:340-392 | a cache finalised for an expected feature names it as its selected or else its current feature, and its terminal event names no other, for every kind of workflow |
| CycleCache.FinalizeIdempotent | src/development_conveyor/cycle_cache.py:330-426 | finalising a bound document again changes nothing |
| CacheConsistency.CheckCycleCacheBinding | src/development_conveyor/consistency.py:820-937 | the flag-updating check computes the specified verdict |
| CacheConsistency.VerdictOverRuns | src/development_conveyor/consistency.py:820-933 | under every interleaving of appends, the three steps of any number of rebuilds and the two steps of any number of writers: a faithful file is recoverable when the ledger has grown since it was finalised, otherwise it passes exactly when the persisted projection is canonical and is corrupt when it is not; a redacted or non-conforming file is always corrupt |
| CacheConsistency.VerdictByLastRebuild | src/development_conveyor/consistency.py:820-933 | a faithful file of the current ledger passes exactly when the rebuild that stored last has read and verified the whole current ledger |
| CacheConsistency.EarlyRebuildDiffers | src/development_conveyor/projection.py:100-373 | a rebuild that verified the ledger before the last append never stores the canonical projection |
| CacheConsistency.TornRebuildDiffers | src/development_conveyor/projection.py:100-373 | nor does a rebuild that read the events before the last append, although it claims the current ledger |
| CacheConsistency.SlowRebuildCorrupts | src/development_conveyor/projection.py:100-373 | two concrete runs in which a rebuild that read the ledger before an append stores last: an untouched cache of an unchanged ledger is reported corrupt, and passes again after a complete rebuild |
| CacheConsistency.SomeRunPasses | src/development_conveyor/consistency.py:820-933 | concrete runs of append, rebuild, finalise and replace end with a cache that passes |
| CacheConsistency.SuccessfulWritePasses | src/development_conveyor/cycle_cache.py:429-494 | a successful schema-checked write leaves a cache that passes at once; a redacted one is left behind corrupt |
| CacheConsistency.ConsistentIffProjectionFresh | src/development_conveyor/consistency.py:859-884 | for a cache of the current ledger the verdict depends on the persisted projection alone: canonical passes, anything else is corrupt |
| CacheConsistency.TamperingIsReported | src/development_conveyor/consistency.py:832-851 | any change of a signed cache that keeps its fingerprint is reported as corruption |
| CacheConsistency.UnreportedDocuments | src/development_conveyor/consistency.py:840-851 | a document escapes a corruption report only with a valid signature or with none of the five binding keys |
| CacheConsistency.StrippedBindingPasses | src/development_conveyor/consistency.py:840-847 | removing all five binding keys hides every other change from the check |
| CycleCacheRepair.CycleCacheRepair.ApplyTransition | src/development_conveyor/cycle_cache_repair.py:941-1054 | the repair succeeds exactly when the reservation is free, the files are readable, the evidence is unchanged, the writer leaves the replacement intact and nothing disturbs it; on any failure the file is the original; ledger, projection cache and controller cache never change; the reservation is released exactly when the guarded part was entered |
| CycleCacheRepair.LeftReservationBlocks | src/development_conveyor/cycle_cache_repair.py:512-517 | a reservation that was left behind refuses every inspection by another run |
| CycleCacheRepair.RepairConverges | src/development_conveyor/cycle_cache_repair.py:519-827 | after the replacement of a plan was written, inspecting the unchanged ledger again finds the cache already canonical |
| CycleCacheRepair.SomeRepairIsReady | src/development_conveyor/cycle_cache_repair.py:519-827 | a concrete stale cache behind a completed integration for which the inspection asks for a repair |
| CycleCacheRepair.RepairedCachePasses | src/development_conveyor/consistency.py:820-933 | the replacement of every repair plan passes the consistency check |
| CycleCacheRepair.ReplacementPrepares | src/development_conveyor/cycle_cache.py:330-494 | writing the replacement of a plan finalises exactly that replacement |
| CycleCacheRepair.BuiltFields | src/development_conveyor/cycle_cache.py:81-109 | the rebuilt cache takes the projection's semantics, then the updates, then the supported old fields, nothing else, and no old signature |
| CycleCacheRepair.ReservationIgnored | src/development_conveyor/cycle_cache_repair.py:496-517 | an inspection gives the same result when the run itself holds the reservation |
| ExecutionPlan.IdentityStable | src/development_conveyor/execution_plan.py:152-199 | resolving the identity again with the milestone branch of the first resolution gives the same identity, also under an authoritative gate or a planning baseline |
| ExecutionPlan.HistoricalGateDoesNotRoute | src/development_conveyor/execution_plan.py:152-199 | where no gate is authoritative, replacing the gate changes no identity field, except that a planning baseline needs the absence of any gate |
| ExecutionPlan.PlanFacts | src/development_conveyor/execution_plan.py:366-551 | every plan that is built passes its own validation and names the workflow that validation expects |
| ExecutionPlan.AgreementIffActionGiven | src/development_conveyor/execution_plan.py:580-780 | a plan has a status under its own projection and no other, every alias in the status is the plan's own value, and plan and status agree exactly when the next action is not empty |
| ExecutionPlan.EmptyActionDisagrees | src/development_conveyor/execution_plan.py:736-765 | a projection without next action yields a plan whose status disagrees |
| FeatureQueue.SelectNextIsFirstReady | src/development_conveyor/queue.py:334-357 | select_next returns a ready feature of the milestone exactly when there is one, and none has a better priority |
| FeatureQueue.SelectExactIffReady | src/development_conveyor/queue.py:401-423 | select_exact returns the named feature exactly when it is ready in the milestone |
| QueueBinding.BindIdempotent | src/development_conveyor/execution_plan.py:202-259 | one application of the binding reaches a fixed point |
| QueueBinding.BindFailsIffCandidateUnready | src/development_conveyor/execution_plan.py:221-227 | binding raises exactly when the projected candidate of a feature cycle is not ready in the milestone |
| QueueBinding.BoundPlanPassesIff | src/development_conveyor/execution_plan.py:262-309 | the checks on a plan from a bound idle projection raise exactly when several features of the milestone await integration; otherwise all four pass, except that a feature cycle fails the selection check exactly when the milestone is named by an alias |
| QueueBinding.AliasFailsTheCheck | src/development_conveyor/execution_plan.py:293-301 | with milestone "M0" configured as "milestone 0" the plan of its ready feature fails one check |
| QueueBinding.TwoIntegrationsRaise | src/development_conveyor/queue.py:449-464 | with two accepted features in the milestone the checks raise |
| Ownership.InvAlways | src/development_conveyor/autopilot.py:200-284 | in every state reachable from an initial one each file, record and piece of evidence belongs to a run that has got past its creation step |
| Ownership.EvidenceNeverPasses | src/development_conveyor/autopilot.py:208-276 | with atomic heartbeats a run whose record was set aside as crash evidence never passes the heartbeat |
| Ownership.DisplacedForEver | src/development_conveyor/autopilot.py:200-284 | a displaced run never passes the heartbeat again, whatever other runs do |
| Ownership.HandOver | src/development_conveyor/autopilot.py:200-284 | once another run passes the heartbeat the earlier owner never does again |
| Ownership.ExclusiveWithoutCrash | src/development_conveyor/autopilot.py:200-249 | from an empty directory without crashes at most one concurrent acquire succeeds until release |
| Ownership.AtMostOneAcquired | src/development_conveyor/autopilot.py:200-249 | while no record is displaced at most one acquire has succeeded without its release, even with split heartbeats |
| Ownership.SecondAcquireTookLive | src/development_conveyor/autopilot.py:208-249 | whenever two runs have acquired at once, an earlier rename or unlink of a recovery took away the file of a run that had acquired |
| Ownership.TwoAcquiresSucceed | src/development_conveyor/autopilot.py:208-249 | two runs that recover the same crashed owner can both return from acquire; only the second passes the heartbeat |
| Ownership.SplitHeartbeatResurrects | src/development_conveyor/autopilot.py:251-276 | a heartbeat split into read and write can bring a displaced record back |
| Autopilot.Autopilot.ApplyOwned | src/development_conveyor/autopilot.py:882-1345 | the imperative loop with its counters, signatures and pending plan produces exactly the specified trace and classification |
| Autopilot.Autopilot.HandleFailure | src/development_conveyor/autopilot.py:1253-1299 | the general failure branch updates signature and retry counters, blocks, and continues or stops as specified |
| Autopilot.Autopilot.HandleRecoveryFailure | src/development_conveyor/autopilot.py:1153-1252 | the failed-recovery branch charges the shared counter, and stops, blocks or keeps the next plan as specified |
| AutopilotSafety.OneTerminalEvent | src/development_conveyor/autopilot.py:1319-1345 | every run emits exactly one terminal event, right before ownership is released; a run that acknowledged a stop ends stopped |
| AutopilotSafety.RoutesAdmitted | src/development_conveyor/autopilot.py:897-966 | in every run each route was invoked for a plan that an iteration without stop request had read, as its own or as the kept next plan, and had admitted: consistent or recoverable evidence or a recognised recovery, no human action, no unrecognised gate, no finished project |
| AutopilotSafety.StopCheckedBetweenRoutes | src/development_conveyor/autopilot.py:897-916 | between any two route calls lies a stop check that found no request |
| AutopilotSafety.StopAcknowledgedIff | src/development_conveyor/autopilot.py:897-1330 | a stop request is acknowledged exactly when a check of the loop finds it, or when a route left with the stop exception and the request is still there |
| AutopilotSafety.AppliedIffSucceeded | src/development_conveyor/autopilot.py:973-1090 | a recovery is reported applied exactly when its result is not a failed recovery, and only after it was started in the same iteration |
| AutopilotSafety.AppliedThoughFailed | src/development_conveyor/autopilot.py:1058-1299 | in every run a recovery is both announced as applied and charged as a failure in the same iteration exactly for five outcomes, without human gate and without being marked recoverable |
| AutopilotSafety.ChargedIff | src/development_conveyor/autopilot.py:1107-1263 | a route result is charged exactly when its outcome counts as failed, no human gate precedes, and, for a failed deterministic recovery, its evidence could be read |
| AutopilotSafety.ExhaustedRecoveryRun | src/development_conveyor/autopilot.py:1058-1299 | the whole trace of a run whose recovery is announced as applied and charged; with a human gate it is announced and not charged |
| AutopilotBound.BoundedFailures | src/development_conveyor/autopilot.py:1142-1299 | if nothing is selected again after it was blocked, a run handles at most (failing features, counting none) times (sum of the budgets plus one) failed results |
| AutopilotBound.ThirteenByDefault | src/development_conveyor/autopilot.py:87-93 | with the default budgets and one feature the bound is thirteen |
| AutopilotBound.BoundIsReached | src/development_conveyor/autopilot.py:1142-1299 | for every configuration there is a run without reselection in which one feature fails as often as the sum of the budgets plus one |
| AutopilotBound.ThirteenReached | src/development_conveyor/autopilot.py:87-93 | with the default configuration thirteen failed results of one feature are handled |
| AutopilotBound.ChargeKeeps | src/development_conveyor/autopilot.py:868-880 | each handled failure is charged once, to one budget of its feature, and an unblocked feature stays within every budget |

## Left out

- Git, subprocesses, file descriptors, clocks, host names and process probes are inputs; the locks around ledger appends are not modelled, each append is one step.
- SHA-256, UUIDs and canonical JSON are injective constructors; a hash collision is outside the model.
- JSON schemas and redaction are function parameters; redaction is only known to keep keys and binding values.
- Json.Load: reads arrays of strings; other JSON values in a path-list field stay the text they were, as any non-list does in the reader.
- ExecutionProfiles: digits outside ASCII and the integer-length limit of Python are not modelled; the judgements on justifications and task boundaries are parameters.
- Text: characters are Unicode scalar values, so lone surrogates do not occur; the whitespace and line-break sets are those of `str.strip` and `str.splitlines`.
- Ownership: modelled as interleaved file operations over values and not as a class, because several processes act on one file; record fields other than the run identity are inputs to authentication.
- Autopilot: the loop runs over a finite script of readings and raises when it has run out, so a run that never ends is covered by all its prefixes; emitting, acknowledging and releasing do not fail; events emitted inside a route and the per-feature report records are not modelled.
- CacheConsistency.VerdictByLastRebuild: takes of the projection engine that no imported fact overrides the ledger claim or the `transactions` list.
- CacheConsistency.VerdictOverRuns: finalising a document and checking a file read ledger and projection in one step each.
- Acceptance.AcceptFeature: runs alone under the writer lease and inside its recovery; appends of other processes there are steps of `IntegrationDiscovery`, whose runs do not use the lease at all.
- Acceptance: repository inspection, tier evidence and the changed-path report are inputs; payload fields that no modelled code reads are one opaque text.
- CycleCacheRepair: the evidence about the preceding acceptance, the integration plan and the queue is one oracle, the updates after a transition another; the pinned controller-cache repair is not modelled; during a call other processes change nothing except through the injected disturbance.
- CycleCache: booleans and integers compare unequal, and numbers are integers.
- ExecutionPlan: absent and null projection fields are the same; pass-through plan fields such as the accepted tree are not modelled; `superseded_legacy_cycles` is not modelled.
- FeatureQueue: the constructor's validation is taken as given, and whether a specification file exists is an input.
- Worktree: rollback steps succeed and nobody else writes; file contents are bytes and mode only.
- CacheConsistency: the projection engine is a total function of the ledger, so a ledger with several incomplete transactions, on which the engine raises, is not modelled.
- Not modelled, as plumbing without hard invariants: capability and cost policies, compatibility and compact output, configuration, context packs, snapshots, command-line and script files, the one-off pinned recoveries.
