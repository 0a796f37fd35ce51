# FabricOps verification

A Dafny model of the protocols by which the FabricOps operator changes consensus membership,
channel membership and credentials of Hyperledger Fabric networks, and proofs of what those
protocols keep over whole runs. The operator relies only on durable Kubernetes objects, may be
interrupted between any two API calls, and shares the channel and the cluster with others; the
theorems quantify over all of that.

`dafny verify dfyconfig.toml` checks everything.

## What is modelled

| component | modules |
|---|---|
| JSON paths, decimal sequence numbers | `Json`, `Decimal` |
| Raft planner and plan validator | `Consenters`, `RaftPlan`, `RaftPlanLaws` |
| quorums and chains of single changes (section 4.1 of Ongaro's Raft dissertation) | `Membership`, `RaftMembership` |
| signed Raft submission: nodes, script, runs | `SubmissionNodes`, `FabricLedger`, `RaftSubmission`, `RaftSubmissionInvariant`, `RaftSubmissionSafety`, `RaftSubmissionRuns`, `RaftSubmissionCompletes` |
| Raft update in the reconciler | `RaftReconcile`, `RaftReady` |
| CA registrar rotation | `RegistrarRotation`, `RegistrarSafety` |
| Jobs, results and cleanup | `StringMaps`, `JobEvidence`, `JobRuns` |
| channel bootstrap and its gate | `ChannelAdmission`, `ChannelBootstrap` |
| ownership of objects | `Ownership`, `OwnershipCache` |
| names and CCaaS addresses | `Whitespace`, `Names`, `ChaincodeAddress` |
| chaincode commit, certificate renewal, topology and rendering | `ChaincodeCommit`, `Renewal`, `TopologyRendering` |
| transition systems | `Runs`, `Wrappers` |

Code that works step by step is a method with loops, or a class whose methods change its fields;
each is proved against a function or predicate of its inputs or its old state, and the laws are
proved about that. Protocols with concurrent parties are step relations, and their theorems hold
for every run.

Assumptions about things outside the repository, stated as definitions or `requires`:

- `Consenters.Library` holds PEM/X.509 checks, DNS-name checks and the JSON struct codec of a
  consenter as functions; `RoundTrips` says that decoding undoes encoding.
- `FabricLedger` states Fabric's side: what `configtxlator compute_update` yields for two configs
  that differ below the consensus type (the version that was read and the value to write), that an
  update is accepted only on the version it was computed from, and that every commit raises the
  config sequence and the version of what it touches.
- `RaftReconcile.CollisionFree`: SHA-256 does not collide on operations with their plans and on envelopes. Object names cut
  from digests may collide.
- Resource versions of the API server grow with every write, and a cache answers with some version that
  the object had.
- `JobRuns.Publishes`: only running Jobs publish results, and for the items of the spec, which stays the
  same during the run, a Job that publishes again does not take back what an earlier result showed: a
  node that has listed the channel as active lists it again. A change of an organization's anchor peer
  changes the spec; what was ready under the old one is then not asked for.
- `RaftReady.Chains`: each channel has one history of config blocks, and every Job runs on a prefix of it.
- Schema rules of the custom resources appear as preconditions: trimmed, non-empty names,
  non-negative counts, instance names unique within the admin organization.

Results worth knowing before reading the table:

- The script's string comparison of sequences never says greater wrongly (`ScriptGreaterExactly`), so
  published evidence always shows a numerically greater sequence. It misses a greater live sequence
  exactly if the plan's own is longer, which takes leading zeros that the planner accepts
  (`LeadingZeroHidesGreater`).
- A registrar promotion that is cut off between its two writes and then withdrawn leaves two copies
  of the active credential and none of the replaced one. `PreviousIsTheReplacedOne` states exactly
  when `previous` holds the replaced credential.
- Channel, chaincode and organization names can together contain the CCaaS placeholder although none
  does alone. Then peers are led to another address, and if the organization's name has 10 or more
  characters the template name is cut and still passes the guard, so that a wrong address is packaged
  instead of the error (`CutNameIsPackaged`). `TemplateExistsExactly`, `SurvivalMeansUncutExactly` and
  `TemplateNamesTheService` state the exact conditions.
- `deleteOwnedObject` checks a copy and deletes by name. Even if only the reconcilers delete, two
  networks whose sanitized labels coincide can delete each other's objects, through an object that
  carries labels and no owner annotation (objects that the operator creates are always annotated); and
  with reads from the cache so can networks that use the same names. `ForeignObjectsAreSafeExactly` and
  `CachedDeletesAreSafeExactly` state the exact conditions without and with a stale cache.

## Model

| member | source | states |
|---|---|---|
| `Json.RaftJsonValue` | internal/channelconfig/raft.go:288-300 | the loop returns the value below the path, treating null as missing at every step, and names the first field that is missing or not an object |
| `Json.FoundByWalk` | internal/channelconfig/raft.go:288-300 | a value is found if and only if one can walk to it field by field, through objects and never onto a null |
| `Json.ReplaceSucceedsExactly` | internal/channelconfig/raft.go:302-316 | replacing succeeds if and only if every proper prefix of the path leads to an object |
| `Json.ReadableIsWritable` | internal/channelconfig/raft.go:288-316 | once a value has been read, replacing it can neither fail nor write into a nil map |
| `Json.ReplaceEffect` | internal/channelconfig/raft.go:302-316 | get after replace returns the written value, and the rest of the tree is the same |
| `Json.ReplaceUnique` | internal/channelconfig/raft.go:302-316 | the replaced document is the only one that agrees off the path and holds the value at it |
| `Json.LookupOffPath` | internal/channelconfig/raft.go:288-316 | documents that agree off a path answer every diverging path alike |
| `Decimal.ScriptGreaterExactly` | internal/controller/fabricnetwork_raft_submission.go:248-255 | for a canonical live sequence and any digits in the plan, the length-then-lexicographic test holds if and only if the live one is numerically greater and not shorter: a positive answer is always right |
| `Decimal.ScriptGreaterIsNumeric` | internal/controller/fabricnetwork_raft_submission.go:248-255 | in particular, on decimals without leading zeros the test is the numeric order |
| `Decimal.LeadingZeroHidesGreater` | internal/controller/fabricnetwork_raft_submission.go:248-255 | a plan sequence with a leading zero, which the planner accepts, hides a numerically greater live sequence |
| `Consenters.RecordCertificate` | internal/channelconfig/raft.go:205-222 | one certificate of an entry is recorded, or found to belong to another endpoint |
| `Consenters.CheckEntry` | internal/channelconfig/raft.go:185-227 | one entry is accepted exactly if it is well formed and compatible with all entries before it |
| `Consenters.ValidateConsenters` | internal/channelconfig/raft.go:185-227 | accepts exactly the non-empty lists of well-formed consenters with pairwise distinct endpoints and no shared TLS certificate, returns the index of every key, and otherwise a problem that the list really has |
| `Consenters.AdmissibleExactly` | internal/channelconfig/raft.go:185-227 | the accepted lists in terms of hosts, ports and certificate digests: non-empty, each entry with a valid host, a port from 1 to 65535 and two leaf certificates, and for every two entries another host or port and no certificate in common |
| `Consenters.SameKeyExactly` | internal/channelconfig/raft.go:200-226 | two entries count as the same consenter if and only if normalized host, port and both certificate digests agree |
| `Consenters.KeysInjective` | internal/channelconfig/raft.go:185-227 | entries of an accepted list have distinct keys |
| `Consenters.KeyCount` | internal/channelconfig/raft.go:185-227 | an accepted list has as many keys as entries |
| `RaftPlan.DecodeSource` | internal/channelconfig/raft.go:86-119 | the reading half of the planner accepts exactly readable configs and reports a reason that holds |
| `RaftPlanLaws.ReadsExactly` | internal/channelconfig/raft.go:86-119 | a config is readable if and only if its sequence is a decimal below 2^64, its consensus type is etcdraft in STATE_NORMAL, and every entry of its consenter list decodes; said by literal paths |
| `RaftPlan.CountOutside` | internal/channelconfig/raft.go:128-141 | a loop over a Go map in any order counts the keys outside the other set and remembers one of them |
| `RaftPlan.CompareSets` | internal/channelconfig/raft.go:120-145 | accepts exactly admissible lists at distance at most one, and finds the entry to add and to remove |
| `RaftPlan.EditConfig` | internal/channelconfig/raft.go:146-183 | the edit never fails once the list was readable, and yields the specified plan, whose effect PlanHasEffect states position by position |
| `RaftPlan.PlanRaftConfig` | internal/channelconfig/raft.go:86-183 | whatever order the map loops take, the result is the specified plan, or a refusal whose reason holds |
| `RaftPlan.ValidateRaftPlan` | internal/channelconfig/raft.go:230-274 | accepts exactly what the specification of the validator accepts and returns the recomputed plan |
| `RaftPlanLaws.AcceptsExactly` | internal/channelconfig/raft.go:86-145 | the planner accepts if and only if the config is readable, both lists are admissible and at most one consenter comes or goes |
| `RaftPlanLaws.PlanHasEffect` | internal/channelconfig/raft.go:120-183 | every accepted plan: key set equals the desired one; nothing changed, one entry appended, or one position left out with every entry before it at its place and every one after it moved up by one; quorums, target, and a config unchanged off the consenter list |
| `RaftPlanLaws.ReplanIsAlreadyApplied` | internal/channelconfig/raft.go:128-183 | planning again on the updated config gives AlreadyApplied and no change |
| `RaftPlanLaws.RestOfConfigUntouched` | internal/channelconfig/raft.go:288-316 | every path that leaves the consenter path reads the same in the updated config |
| `RaftPlanLaws.PlanFromItsOwnResult` | internal/channelconfig/raft.go:230-274 | planning towards the updated config's own list gives the same plan |
| `RaftPlanLaws.ValidatorComplete` | internal/channelconfig/raft.go:230-274 | the validator accepts every plan the planner emits and recomputes that very plan |
| `RaftPlanLaws.ValidatorExact` | internal/channelconfig/raft.go:230-274 | a supplied plan is accepted if and only if the planner could have emitted it for some desired list |
| `RaftPlanLaws.ValidatorSound` | internal/channelconfig/raft.go:230-274 | an accepted plan has the right header and channel, equals the original off the consenter list and differs on it by nothing, one appended entry, or one position left out with all others in order |
| `RaftPlanLaws.OrderIrrelevant` | internal/channelconfig/raft.go:120-183 | permuting the desired list does not change the plan |
| `Membership.OneChangeKeepsQuorums` | internal/channelconfig/raft.go:120-150 | sets that differ in at most one member have intersecting majorities |
| `Membership.TwoAdditionsCanSplit` | internal/channelconfig/raft.go:142-145 | the rule is tight: two additions to a set of odd size allow disjoint majorities |
| `RaftMembership.StepSafe` | internal/channelconfig/raft.go:120-183 | one accepted plan leads from an admissible list to an admissible one at distance at most one |
| `RaftMembership.PlanQuorums` | internal/channelconfig/raft.go:146-151 | the quorums printed in a plan are the majorities of the two member sets |
| `RaftMembership.AcceptedChainSafe` | internal/channelconfig/raft.go:120-150 | along every chain of accepted plans every list is admissible, spelled out by endpoints and certificates, and neighbouring majorities intersect |
| `RaftMembership.RouteExists` | internal/channelconfig/raft.go:120-145 | between lists that share a consenter there is a remove-then-add chain whose length is the symmetric difference, each step lowering it by one |
| `RaftMembership.NoShorterRoute` | internal/channelconfig/raft.go:120-145 | no chain of accepted plans is shorter than the symmetric difference |
| `RaftMembership.DirectRouteExactly` | internal/channelconfig/raft.go:120-227 | a chain without detours exists if and only if the lists share a consenter or one consenter of each can stand in one list |
| `SubmissionNodes.Resolve` | internal/controller/fabricnetwork_raft_submission.go:56-86 | finds the managed instance of a consenter exactly if there is one with matching, currently valid certificates |
| `SubmissionNodes.ManagedExactly` | internal/controller/fabricnetwork_raft_submission.go:56-86 | for the first instance of the organization at the consenter's host and port: managed if and only if its Secret carries that very server certificate for both uses, a CA certificate, and is valid now |
| `SubmissionNodes.PlaceAll` | internal/controller/fabricnetwork_raft_submission.go:50-92 | one loop over a consenter list: a node per name, one flag set in place |
| `SubmissionNodes.RaftSubmissionNodes` | internal/controller/fabricnetwork_raft_submission.go:47-103 | succeeds exactly if all consenters are managed and the source is in both lists; one node per name, flagged by membership, in the order in which the names are first met, the source with both flags |
| `SubmissionNodes.NodeCount` | internal/controller/fabricnetwork_raft_submission.go:47-103 | exactly one node per consenter of current and desired together |
| `SubmissionNodes.OneFlagDiffers` | internal/controller/fabricnetwork_raft_submission.go:47-103 | for Add or Remove exactly one node differs in its two flags |
| `SubmissionNodes.NodesShowTheDelta` | internal/controller/fabricnetwork_raft_submission.go:148-160 | the nodes of a validated plan show its delta |
| `RaftSubmissionSafety.ScriptKeepsInv` | internal/controller/fabricnetwork_raft_submission.go:209-314 | every step of the script keeps the invariant that its trace justifies its program point, its submissions and its evidence |
| `RaftSubmissionRuns.SubmitsOnlyWhenCleared` | internal/controller/fabricnetwork_raft_submission.go:221-299 | in every run `peer channel update` executes only with a signed update of type 2 for the channel, equal to the staged one and to the plan's diff, after two fetches of the reviewed original between which every node was healthy, active, at least at the height read and in its role |
| `RaftSubmissionRuns.EveryConsenterChecked` | internal/controller/fabricnetwork_raft_submission.go:260-299 | before the submission, for every consenter of either list: its node was healthy and active at least at the height of the tip read before, a current one as consenter and a newcomer as follower |
| `RaftSubmissionRuns.CommitsOnlyTheReviewedDelta` | internal/controller/fabricnetwork_raft_submission.go:281-299 | whatever others commit in between, the only change the update can commit is the reviewed single-consenter delta on the list as it is at the tip; everything else stays |
| `RaftSubmissionRuns.CommitsAtMostOnce` | internal/controller/fabricnetwork_raft_submission.go:281-299 | however often the Job is repeated, the update is committed at most once |
| `RaftSubmissionRuns.CommitIsRecognized` | internal/controller/fabricnetwork_raft_submission.go:248-255 | the config that the update's own commit produces passes membership_matches |
| `RaftSubmissionRuns.EvidenceIsSound` | internal/controller/fabricnetwork_raft_submission.go:300-313 | published evidence: the block is on the channel with the planned list at a numerically greater sequence; after it was seen every desired node was healthy, active, a consenter and of a height beyond the block; and the outcome is submitted if and only if the attempt that published had submitted before it saw the block |
| `RaftSubmissionCompletes.CanComplete` | internal/controller/fabricnetwork_raft_submission.go:209-314 | the counterpart of safety: from every initial state whose newest config is the reviewed original, whatever its history and its nodes, some run submits, commits and publishes evidence of the committed block |
| `RaftReconcile.RaftConsentersFromConfig` | internal/channelconfig/raft.go:277-286 | the consenters of a config |
| `RaftReconcile.StagingOutcome` | internal/controller/fabricnetwork_raft_update.go:107-124 | a staging result counts exactly if its receipt agrees with the operation and its outcome with the plan's action |
| `RaftReconcile.StagedExactly` | internal/controller/fabricnetwork_raft_update.go:107-124 | the fields of staging evidence: channel, operation, plan hash, sequence and action of the receipt, no signed hash, a block, and for a staged change the envelope |
| `RaftReconcile.VouchesExactly` | internal/controller/fabricnetwork_raft_submission.go:127-146 | the fields of submission evidence: besides, the hash of the signed envelope, one of the two outcomes, and that very envelope |
| `RaftReconcile.RaftObjects.EnsureInput` | internal/controller/fabricnetwork_raft_update.go:148-154 | the immutable input is created once; it succeeds exactly if the call does and no other content stands under the name |
| `RaftReconcile.RaftObjects.Launch` | internal/controller/fabricnetwork_raft_update.go:141-163 | a Job appears only after its input stands with exactly the intended content; without failing calls both stand afterwards unless other content does |
| `RaftReconcile.RaftObjects.ReconcileRaftSubmission` | internal/controller/fabricnetwork_raft_submission.go:105-207 | Ready exactly on a receipt that agrees on channel, operation, plan hash, sequence, action and signed hash, with a block and the signed envelope; without a result and without failing calls, the submission Job stands with its input exactly if every consenter is managed and the source stays one, and the phase says whether the Job still runs; otherwise it says what it waits for |
| `RaftReconcile.RaftObjects.ReconcileRaftUpdate` | internal/controller/fabricnetwork_raft_update.go:76-171 | Ready exactly on matching evidence; a submission Job is started only for a validated plan, after matching staging evidence, with a signed envelope and all nodes placed; if no call fails the Job of the stage stands afterwards, staging or submission, unless other content occupies its input; the phase of every branch, the operation shown, and a message for every unfinished result |
| `RaftReady.ReadyIsSound` | internal/controller/fabricnetwork_raft_update.go:107-138 | over every sequence of reconciles, Job runs and deletions, Ready implies that the plan had nothing to change and its original was live, or a published block of the channel's one history with the planned consenters at a greater sequence, a receipt agreeing on channel, operation, plan hash, sequence, action and signed hash, and a run of the script on the placed nodes of exactly this operation, plan and envelope in which every desired node was an active consenter at that height; even if object names collide |
| `RaftReady.DesiredConsenterIsActive` | internal/controller/fabricnetwork_raft_submission.go:260-312 | in such a run the node of every single desired consenter was seen healthy, active, as a consenter and beyond the block's height after the block was seen |
| `RegistrarRotation.GeneratedIsWellFormed` | internal/controller/fabricnetwork_ca_registrar_rotation.go:218-251 | generated credentials pass the validation of credential Secrets |
| `RegistrarRotation.WellFormedExactly` | internal/controller/fabricnetwork_identity.go:329-353 | a Secret passes if and only if it has the three keys, user name and password are not blank, and user-pass joins the two, all trimmed |
| `RegistrarRotation.Registrar.EnsureStaged` | internal/controller/fabricnetwork_ca_registrar_rotation.go:198-216 | an existing well-formed staged credential is kept |
| `RegistrarRotation.Registrar.UpsertPrevious` | internal/controller/fabricnetwork_ca_registrar_rotation.go:477-513 | the replaced data is written and its annotation merged |
| `RegistrarRotation.Registrar.Promote` | internal/controller/fabricnetwork_ca_registrar_rotation.go:401-418 | first previous, then active; cut off in between, only previous is written |
| `RegistrarRotation.Registrar.Reconcile` | internal/controller/fabricnetwork_ca_registrar_rotation.go:48-142 | the new state of all Secrets and Jobs, the phase and the error, for every point of interruption; PhaseExactly and ReconcileEffect say what they are |
| `RegistrarRotation.PhaseExactly` | internal/controller/fabricnetwork_ca_registrar_rotation.go:48-142 | the phase reported: Failed without a well-formed active Secret, Ready for a request that active already carries, otherwise WaitingForCA if and only if the CA is not ready, and then Failed if and only if the Job has failed and Rotating if and only if it is new or running; enrollment is blocked exactly while it waits or rotates; the staged credential and the Job are there |
| `RegistrarSafety.ReconcileEffect` | internal/controller/fabricnetwork_ca_registrar_rotation.go:48-142 | what one reconcile can do to the Secrets, case by case: active and previous change only in a promotion, and previous then holds the replaced credential under its request |
| `RegistrarSafety.ActiveIsAlwaysGood` | internal/controller/fabricnetwork_ca_registrar_rotation.go:48-142 | in every run the active credential is well formed and is the bootstrap one or one whose rotation Job succeeded |
| `RegistrarSafety.PreviousIsTheReplacedOne` | internal/controller/fabricnetwork_ca_registrar_rotation.go:401-513 | previous holds the credential replaced by the last completed promotion if and only if no later promotion was cut off between its writes, and if and only if previous and active differ (unless the replaced credential is the active one again) |
| `RegistrarSafety.PromotionSavesReplaced` | internal/controller/fabricnetwork_ca_registrar_rotation.go:401-418 | a reconcile that changes active has saved the credential it replaces and installs the staged, registered one |
| `RegistrarSafety.PromotionSettles` | internal/controller/fabricnetwork_ca_registrar_rotation.go:253-263 | a completed promotion is recognized as promoted |
| `RegistrarSafety.PromotedIsNeverOverwritten` | internal/controller/fabricnetwork_ca_registrar_rotation.go:253-263 | over every run that keeps asking for a promoted request, active and previous never change again |
| `RegistrarSafety.WithdrawnPromotionLosesTheReplacedOne` | internal/controller/fabricnetwork_ca_registrar_rotation.go:401-418 | a promotion cut off after its first write and withdrawn ends in Ready with previous a copy of active |
| `RegistrarSafety.ReplacedCredentialCanBeLost` | internal/controller/fabricnetwork_ca_registrar_rotation.go:401-418 | a run from an empty cluster that ends so: the replaced credential is in neither Secret |
| `StringMaps.MergeStringMap` | internal/controller/fabricnetwork_enrollment.go:914-929 | in any iteration order every desired entry wins (an empty one is not added), and changed is reported exactly if the map differs or a nil map was to receive entries |
| `JobEvidence.ReadyIffEvident` | internal/controller/fabricnetwork_channel.go:400-469 | the readiness functions report exactly durable evidence: a matching result, or a succeeded unmarked Job and no other result |
| `JobEvidence.MessageIffStuck` | internal/controller/fabricnetwork_channel.go:400-469 | they give a reason exactly if the Job has ended without evidence: failed, with a result that does not match, or marked and without a result |
| `JobEvidence.RefreshKeepsEligibility` | internal/controller/fabricnetwork_enrollment.go:886-896 | refreshing an existing Job neither adds nor removes its cleanup mark |
| `JobEvidence.RefreshMerges` | internal/controller/fabricnetwork_enrollment.go:872-904 | every other desired label and annotation wins, the rest of the Job is unchanged |
| `JobEvidence.EvidenceStore.EnsureJob` | internal/controller/fabricnetwork_enrollment.go:872-904 | the Job is created as desired, or only its labels and annotations are merged |
| `JobEvidence.EvidenceStore.CleanupSucceededJobs` | internal/controller/fabricnetwork_job_cleanup.go:51-101 | exactly the marked Jobs that succeeded at least the TTL ago are deleted; the next cleanup is due when the first other marked one expires |
| `JobRuns.ReadyStaysReady` | internal/controller/fabricnetwork_job_cleanup.go:51-105 | over every run, an orderer join, peer join or anchor update of the spec that was ready stays ready whatever cleanup removes |
| `JobRuns.EligibilityIsFixedAtCreation` | internal/controller/fabricnetwork_enrollment.go:886-896 | over every run a Job's cleanup mark never changes |
| `JobRuns.CleanupRemovesOnlyMarked` | internal/controller/fabricnetwork_job_cleanup.go:79-98 | only marked, succeeded Jobs disappear |
| `ChannelAdmission.ChannelArtifactBytes` | internal/controller/fabricnetwork_external_org.go:436-493 | the bytes under the referenced key of the object that was found, or a non-empty reason, or an error exactly if the read failed |
| `ChannelAdmission.Admissions.EvidenceNamed` | internal/controller/fabricnetwork_local_org.go:245-280 | an outcome exactly for a matching result with a block; a message exactly for a result that does not match |
| `ChannelAdmission.Admissions.ReconcileSignedChannelUpdate` | internal/controller/fabricnetwork_channel_submission.go:37-118 | without an error there is always a message, and a result name exactly for a signed artifact and a staged envelope; an error only from a failing call |
| `ChannelAdmission.Admissions.LocalOrgAddReadiness` | internal/controller/fabricnetwork_local_org.go:209-234 | always a message |
| `ChannelAdmission.Admissions.ReconcileLocalOrgAdd` | internal/controller/fabricnetwork_local_org.go:64-131 | without failing calls ready if and only if the result of the update, or of its signed handoff, shows a finished admission of this MSP to this channel with a block; without any result the update Job is there; not ready without an error always carries a message, whichever calls fail |
| `ChannelAdmission.ExternalReadyIsEvident` | internal/controller/fabricnetwork_external_org.go:612-662 | readiness of an external organization rests on a finished record of its channel, MSP, state, operation ID and anchors |
| `ChannelAdmission.Admissions.ReconcileExternalOrgUpdate` | internal/controller/fabricnetwork_external_org.go:116-227 | ready only on the stored records that ExternalReady names: a matching finished one, or a matching staged one with a finished signed submission; and then always if no call fails; an update that can begin has a result or its Job |
| `ChannelAdmission.Admissions.ReconcileExternalOrgUpdates` | internal/controller/fabricnetwork_external_org.go:57-91 | no message and no error only if every external organization has the records that make it ready, and then always if no call fails; without an error every update that can begin has a result or its Job |
| `ChannelBootstrap.JoinAll` | internal/controller/fabricnetwork_channel.go:363-398 | it stops with a message exactly if the Job of some item has ended without evidence, and leaves a result or a Job for every item up to the first such one; the count reaches the number of items without a message only if each item has durable evidence; no evidence is lost |
| `ChannelBootstrap.ReconcilePeerJoins` | internal/controller/fabricnetwork_channel.go:519-594 | the summed count reaches the summed desire only if each listed peer of each organization has durable evidence; every peer up to the first stuck one has a result or a Job |
| `ChannelBootstrap.ReconcileAnchorPeerUpdates` | internal/controller/fabricnetwork_channel.go:596-665 | without a message every complete organization has evidence for its anchor; every complete one up to the first without evidence has a result or a Job |
| `ChannelBootstrap.AnchorIsFirstPeer` | internal/controller/fabricnetwork_channel.go:1970-1982 | the anchor is the first peer of the last listing of the organization that has peers |
| `ChannelBootstrap.Survey` | internal/controller/fabricnetwork_local_org.go:140-181 | the administrator is the first organization with an anchor, with a peer recorded as such; the candidates are exactly the organizations without one, in order |
| `ChannelBootstrap.ReconcileLocalOrgAdditions` | internal/controller/fabricnetwork_local_org.go:133-207 | no message and no error only if no organization is anchored, or every listed one is anchored or admitted; if no call fails exactly if the administrator's records show every admission, and otherwise the update of the first organization that is not admitted is under way |
| `ChannelBootstrap.ChannelReconciler.ReconcileChannel` | internal/controller/fabricnetwork_channel.go:89-253 | Ready implies durable evidence for every orderer, peer and anchor, the stored records of every external organization, and the Raft update absent or Ready on its receipts; an anchored channel with all that is found Ready if no call fails; a peer join Job is created only while the admission gate is open; and every pass makes progress: a result or a Job for the orderers up to the first stuck one, with all orderers joined for the admission the gate waits for, through the gate for peers and then anchors, then for external organizations and the Raft update |
| `ChannelBootstrap.StartableExactly` | internal/controller/fabricnetwork_channel.go:89-195 | the first stage begins if and only if the channel has a name that is not blank, TLS, orderers and organizations, each declared and with declared peers, the components are ready and the channel block is there |
| `ChannelBootstrap.ReadyShowsExternal` | internal/controller/fabricnetwork_channel.go:216-250 | a Ready channel has for every external organization a finished record of its state and operation ID |
| `ChannelBootstrap.ReadyProvesRaft` | internal/controller/fabricnetwork_channel.go:236-250 | a Ready channel with a Raft update has that update proven as RaftReady states |
| `Ownership.MergeKeepsOwner` | internal/controller/fabricnetwork_controller.go:230-256 | the guard passes only for the annotated network, and merging leaves the object annotated by the network that writes |
| `Ownership.UpdatesRespectOwners` | internal/controller/fabricnetwork_controller.go:205-297 | over every interleaving with retries and stale copies, an update or create for one network leaves every object marked for another, by annotation or else by label, as it is, removes nothing, and never changes an owner annotation |
| `Ownership.UpdateLands` | internal/controller/fabricnetwork_controller.go:205-297 | the guard is no stricter: an object that is not marked for another network can be read and updated, and then carries the desired labels and the network's annotation |
| `Ownership.ForeignObjectsAreSafeExactly` | internal/controller/fabricnetwork_org.go:1238-1264 | over all interleavings that include deletes on copies that were current when read, networks never touch objects marked for each other and never delete unmarked ones if and only if at the start no object is marked only by labels that two of them share |
| `Ownership.DeleteLands` | internal/controller/fabricnetwork_org.go:1238-1264 | a marked object that is not marked for another network can be read and deleted, and only it is |
| `Ownership.SharedLabelViolates` | internal/controller/fabricnetwork_org.go:1238-1264 | the run that breaks it otherwise: both list the object, one adopts it, the other deletes it |
| `Ownership.SanitizedLabelsCollide` | internal/controller/fabricnetwork_org.go:178-214 | labels are sanitized names, and different network names can share one |
| `Ownership.DeleteAfterOutsideRemoval` | internal/controller/fabricnetwork_org.go:1238-1254 | the delete has no precondition: after an outside removal and re-creation it hits the other network's object |
| `Ownership.DeleteFromStaleList` | internal/controller/fabricnetwork_org.go:1238-1254 | a list from a stale cache makes a network delete what another created under a name it had deleted itself |
| `OwnershipCache.CachedDeletesAreSafeExactly` | internal/controller/fabricnetwork_org.go:1238-1264 | over all interleavings in which reads answer with any version an object ever had, networks never touch objects marked for each other and never delete unmarked ones if and only if, besides, no network creates a name that another creates too or can take over from the start, unless someone outside keeps the name occupied |
| `OwnershipCache.StepKeepsInv` | internal/controller/fabricnetwork_controller.go:205-297 | the invariant behind it: over the whole history every name has one claimant among the networks, entitled to it |
| `OwnershipCache.ContestedIsBreached` | internal/controller/fabricnetwork_org.go:1238-1254 | for every contested name a run in which one network deletes the other's object |
| `Names.SanitizeName` | internal/controller/fabricnetwork_org.go:178-214 | the loop yields the lower-case words joined by single dashes, shortened with a hash beyond 63 characters |
| `Names.WordsConcat` | internal/controller/fabricnetwork_org.go:178-214 | a separator splits the words of a name |
| `Names.SanitizedIsClean` | internal/controller/fabricnetwork_org.go:178-214 | every sanitized name has at most 63 characters, plain characters and single inner dashes |
| `Names.SanitizeIsIdempotent` | internal/controller/fabricnetwork_org.go:178-214 | sanitizing twice is sanitizing once |
| `ChaincodeAddress.ServiceSlug` | internal/controller/fabricnetwork_chaincode.go:2534-2536 | before shortening, a service name is prefix, peer and suffix |
| `ChaincodeAddress.TemplateExistsExactly` | internal/controller/fabricnetwork_chaincode.go:2542-2559 | the guard finds the placeholder if and only if the service name was not cut or the part of it that was kept contains the placeholder |
| `ChaincodeAddress.SurvivalMeansUncutExactly` | internal/controller/fabricnetwork_chaincode.go:2547-2555 | survival of the placeholder is the same as an uncut name if and only if the name is not cut or its kept part is free of the placeholder |
| `ChaincodeAddress.CleanPrefixSurvivesUncut` | internal/controller/fabricnetwork_chaincode.go:2547-2555 | in particular for a joined prefix without the placeholder it survives exactly when the name was not cut |
| `ChaincodeAddress.TemplateNamesTheService` | internal/controller/fabricnetwork_chaincode.go:2542-2559 | wherever there is a template and the peer's own service name is not cut, expanding the template gives that name if and only if the joined prefix does not contain the placeholder or the peer is named like the placeholder |
| `ChaincodeAddress.ShortPeersAlwaysFit` | internal/controller/fabricnetwork_chaincode.go:2534-2559 | in particular for every peer name of at most 23 characters |
| `ChaincodeAddress.PlaceholderAcrossNames` | internal/controller/fabricnetwork_chaincode.go:2534-2559 | a channel and a chaincode name can contain the placeholder together although neither does; then there is always a template, cut or not, and it leads every fitting peer to another address |
| `ChaincodeAddress.SplitNamesMisroute` | internal/controller/fabricnetwork_chaincode.go:2534-2559 | such networks with any organization and peer; the template name is cut exactly from 10 characters of the organization's name on |
| `ChaincodeAddress.CutNameIsPackaged` | internal/controller/fabricnetwork_chaincode.go:2542-2559 | one whose template name is cut and packaged without an error: channel fabricops-peer, chaincode hostname, organization organization |
| `ChaincodeCommit.ValidateChannel` | internal/controller/fabricnetwork_topology.go:69-110 | no problem if and only if the channel lists declared organizations with declared peers |
| `ChaincodeCommit.CountApprovals` | internal/controller/fabricnetwork_chaincode.go:213-365 | the two counters agree exactly when every approver has approved, and the package is that of the first target that shows one |
| `ChaincodeCommit.ReconcileChaincode` | internal/controller/fabricnetwork_chaincode.go:213-389 | a commit Job is created if and only if the channel is ready, every counted approval is present and the first target's package is not committed at the definition's sequence; on a validated channel therefore only with an approval of that sequence by every listed organization |
| `ChaincodeCommit.CommitNeedsEveryApproval` | internal/controller/fabricnetwork_chaincode.go:213-389 | on a validated channel the counted approvals are those of every listed organization |
| `Renewal.GroupByWorkload` | internal/controller/fabricnetwork_certificate_lifecycle.go:398-422 | each group holds exactly the due positions of its workload, ascending |
| `Renewal.CertificateRenewalRequests` | internal/controller/fabricnetwork_certificate_lifecycle.go:398-434 | in any map order the requests partition the due positions |
| `Renewal.PartitionIsExact` | internal/controller/fabricnetwork_certificate_lifecycle.go:398-434 | a position is due if and only if it is in a request, and then in one only |
| `Renewal.SetRenewalJobStatus` | internal/controller/fabricnetwork_certificate_lifecycle.go:492-503 | the array is written at the request's positions and nowhere else |
| `Renewal.StatusesNeedRenewal` | internal/controller/fabricnetwork_certificate_lifecycle.go:509-520 | true if and only if some status is expired, due, renewing or failed |
| `Renewal.ReconcileCertificateLifecycle` | internal/controller/fabricnetwork_certificate_lifecycle.go:78-130 | every other status is untouched, each due one carries its own request's Job state, any request means that renewal is reported as required, and required means that some status is expired, due, renewing or failed |
| `TopologyRendering.ValidateOrderers` | internal/controller/fabricnetwork_topology.go:29-65 | if every organization has a name, no problem if and only if there is one consensus type, at least one instance, and BFT only on Fabric 3; organizations without a name are passed over |
| `TopologyRendering.ConsensusForConfigtx` | internal/controller/fabricnetwork_channel.go:2020-2034 | succeeds if and only if there are orderers and all have one type |
| `TopologyRendering.ConfigtxConsensus` | internal/controller/fabricnetwork_channel.go:1737-1758 | succeeds if and only if the orderers that are asked for have one type, which Fabric supports, and yields it |
| `TopologyRendering.ValidatePrivateData` | internal/controller/fabricnetwork_topology.go:409-520 | no problem if and only if every collection is sound and names are distinct |
| `TopologyRendering.RenderCollection` | internal/controller/fabricnetwork_chaincode.go:568-636 | fails exactly without a policy and with an unknown organization; the rendered name, counts and policy, by default membership in any listed organization, joined by commas; on a sound collection 0 <= required <= max <= authorized - 1, the count both functions sum |
| `TopologyRendering.ValidateIndexes` | internal/controller/fabricnetwork_topology.go:522-566 | no problem if and only if every index is sound, refers to a declared collection and paths are distinct |
| `TopologyRendering.RenderIndexes` | internal/controller/fabricnetwork_chaincode.go:638-678 | succeeds if and only if every index is sound and paths are distinct; exactly one file per index, under its path |
| `TopologyRendering.RenderAll` | internal/controller/fabricnetwork_chaincode.go:543-678 | the renderers succeed exactly on one supported consensus type, policies or known organizations for every collection, and sound indexes with distinct paths, and then yield everything rendered |
| `TopologyRendering.RenderNetwork` | internal/controller/fabricnetwork_controller.go:780-795 | a network of named organizations is rendered if and only if the validators find no problem, with the validator's map of trimmed names and the renderer's map of names as they are; each chaincode's output is that of its collections and indexes |

## Left out

- `PlanRaftUpdate`: unpacking the config block and checking its header before planning adds an easy wrapper.
- Go's case-insensitive matching of JSON struct fields and duplicate JSON keys: the model reads exact field names.
- Endpoints and consenter keys are tuples, not the strings printed from them.
- Text of errors and messages beyond whether there is one.
- Unicode lower-casing in `sanitizeName` that maps non-ASCII characters to ASCII letters, and white space beyond blank, tab, newline and carriage return.
- The staging script is modelled by what it publishes (the live config equalled the reviewed original), not step by step.
- `RaftSubmission` covers config blocks and node states; TLS, retries in real time, sleep counts and the publishing container are not modelled.
- API errors inside the join and anchor loops of channel bootstrap: they end the reconcile early without a status; elsewhere (Raft update, registrar rotation, organization updates) any call may fail.
- JobEvidence.EvidenceStore.CleanupSucceededJobs: works on one listing of one namespace; the ownership guard of its delete is in `Ownership`.
- `updateObjectWithRetry` is modelled as read and write steps of a state machine, not as a bounded loop: a retry is another read step, and the retry limit is not modelled.
- TopologyRendering.RenderNetwork: external organizations, endorsement policies, peer databases and endpoints are validated by the source too, but nothing rendered here depends on them; the order of validation and rendering is that of the reconciler.
- Renewal.CertificateRenewalRequests: the final sort by Job name is left out; the partition does not depend on the order.
- Ownership: every mutation is taken to merge the desired labels and annotations, as the callers of `updateObjectWithRetry` do.
- Shell scripts other than Raft staging and submission, Job, Service and Deployment builders, RBAC, network policies, connection profiles, the command-line tool, finalizers and the FabricParticipant reconciler.
- `signedChannelUpdateScript`: only the reconciler around it is modelled.
