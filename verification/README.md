# A verified model of the CLI manager operator

The operator watches one `CliManager` custom resource, keeps eleven resources as its embedded assets ask, and records the Deployment's generation in the status. The model covers what it relies on and what it promises: the metadata merge and the apply helpers, one reconcile pass and what a sequence of passes achieves, the work queue and its worker, the generation protocol under interference, the compare-and-swap and the Server-Side Apply of the operator client, transition times, the shared informer factory, the start-up wiring, the ServiceMonitor edit and the rendering of the Deployment.

The API server is part of the model. It gives every change a fresh resourceVersion, raises the generation when a spec changes, absorbs writes that change nothing, does not let immutable fields be updated, keeps field ownership per manager, may refuse a request, and may carry one out and lose the reply.

## How it is laid out

| file | what it holds |
|---|---|
| `EndToEnd.dfy`, `OperandAssets.dfy` | the capstone: convergence of the whole operator after interference, and the same over the rendered assets |
| `LabelMerge.dfy`, `OwnerMerge.dfy`, `ObjectMeta.dfy`, `ResourceApply.dfy`, `Routes.dfy` | metadata merge, the apply helpers, `applyRoute` |
| `Generations.dfy`, `GenerationProtocol.dfy`, `GenerationRefinement.dfy` | the generation list; the protocol request by request; that it is what the reconcile pass does |
| `Sync.dfy`, `Convergence.dfy`, `OperandResources.dfy`, `ManageCall.dfy` | `sync` as it stands, its effect, the helpers put behind the contract it needs, and a manage call as one step |
| `WorkQueue.dfy`, `Controller.dfy`, `Worker.dfy`, `Quiescence.dfy`, `Obstruction.dfy` | queue, controller state machine, `processNextWorkItem`, the decreasing measure, and what a barred object does |
| `OperatorClient.dfy`, `StatusWrite.dfy`, `ServerSideApply.dfy`, `Transitions.dfy`, `OneServer.dfy` | the operator client, the status write of a sync as one step, and the client's three views of its server brought together |
| `InformerFactory.dfy`, `SharedInformers.dfy`, `Starter.dfy` | informer factory (state machine, methods) and wiring |
| `JsonTree.dfy`, `ServiceMonitor.dfy`, `DeploymentRender.dfy` | rendering |

Code that changes state is a class or a method whose contract ties the new state to a function of the old one; the properties are then proved about those functions, and invariants about runs of the state machines.

## What was found

Each of these is a theorem, with the exact condition where there is one.

- **Contradictory labels never settle.** If a map asks both to set `k` and, with `k-`, to remove it, every merge reports a change, for every object and iteration order (`SecondMergeIsQuietIff`). The like holds for owner references (`OwnerMergeSettlesIff`).
- **A route is rewritten by every sync when the server alters its spec.** The second of two calls is silent exactly when the stored spec is the one sent. The server absorbs the extra writes, so the stored route is the same (`SecondApplyIsSilentIff`, `ApplyTwiceIsApplyOnce`).
- **A pass in which every request is answered leaves a stable cluster if and only if no object is barred and the recorded generation is honest** (`CleanPassConvergesIff`).
  - An object is barred when the server does not admit the update it needs, as for a role binding that somebody else has created with another roleRef. Then no pass gets past it and the operator never comes to rest (`BarredForever`, `BarredNeverRests`, `StrangersBindingBlocksTheDeployment`). Otherwise only failing requests keep it from its goal (`ConvergesWithinBudgetIff`, `ConvergesUnlessBarred`).
  - A dishonest record vouches for a drifted Deployment. This takes a spec-hash annotation that somebody else has set, such as that of an edited copy (`RecreatedCopyHidesDrift`), or a new incarnation that is edited until it has the generation recorded for the old one (`CrossedIncarnationsHideDrift`). Without either it cannot happen; deleting the Deployment alone is harmless at any moment (`DriftIsNeverHidden`, `TrustHoldsThroughout`, `DeletionIsCourteous`).
- **Drift of an unwatched kind is not noticed before the next resync.** At rest, a change leads to a sync if and only if it touches the network policy or the custom resource (`DriftIsNoticedIff`, `UnwatchedDriftGoesUnnoticed`). Other drift waits for the resync of the informers, every ten minutes, which enqueues the key. `ARCHITECTURE.md` names only the custom resource as watched; the model follows the code.
- **The fast path of `ApplyOperatorSpec` is exact, but not for a configuration without fields.** Extraction equals a non-empty desired spec if and only if the forced apply would be a no-op; an empty one is never skipped (`SkipIffApplyIsNoOp`, `SecondCallSkipsIff`).
- **The fast path of `ApplyOperatorStatus` is idle for conditions without times.** It compares before it stamps. A repeated request is spared if and only if it has a field and its conditions carry the stored times; without times in them, only if it has no conditions but some other field (`RepeatSkipsIff`, `RepeatedRequestIsSentAndAbsorbed`).
- **`ApplyOperatorStatus` stamps the caller's own slice.** A caller that reuses the slice gets the old time on its next flip (`FlipIsStampedIff`, `ReusedSliceKeepsItsTime`).

## Assumptions

- The hash in the spec-hash annotation tells specs apart.
- Sending the same spec over the server's own result changes nothing (`Settles`). `IndependentNormSettles` and `DefaultingNormSettles` are two kinds of server for which it holds.
- In the end-to-end result other writers act between any two requests and may do anything, deleting objects and changing the custom resource included, except two things. They do not write the recorded generation (they may drop it). And when they leave a Deployment whose generation is on record or held by a sync under way, they have changed neither its spec nor, except for dropping it, the hash annotation. That a change of the spec raises the generation is the API server's guarantee.
- Updating a custom resource without a resourceVersion is refused.
- The delay of a rate-limited add is positive.
- `HasSynced` of an informer, once true, stays true; `cache.WaitFor` returns only when every informer has synced or the context has ended.

## Model

| member | source | states |
|---|---|---|
| EndToEnd.ConvergesAfterInterference | pkg/operator/target_config_reconciler.go:105-184 | start or restart over any cluster whose record can be trusted, with or without a Deployment, interleave workers, retries, failures and courteous writers request by request; once the writers stop with a sync still to come and at most `budget` more syncs fail, the rest of the run is bounded, and at rest every object is as its asset asks and the generation is recorded |
| OperandAssets.RollsOutAfterInterference | pkg/operator/target_config_reconciler.go:323-424 | the same over the rendered assets: at rest both objects are in the operator's namespace under their name, labelled and owned by the custom resource, the Deployment annotated with the hash of its spec; the Deployment has the asset's containers with image and flags for the present log level, and the ServiceMonitor is the asset but for the server name "metrics.<namespace>.svc" |
| OperandAssets.AssetsMeetAssumptions | pkg/operator/target_config_reconciler.go:371-424 | the rendered assets meet the assumptions of that result |
| EndToEnd.TrustHoldsThroughout | pkg/operator/target_config_reconciler.go:142-146 | in every state of such a run, if the recorded generation or the one a sync under way goes by is the Deployment's, the spec-hash annotation can be believed |
| EndToEnd.SendKeepsTrust | pkg/operator/target_config_reconciler.go:112-183 | every single request of a sync keeps that, whatever becomes of it, a sync by an outdated custom resource included |
| EndToEnd.NoRecordIsTrusted | pkg/operator/target_config_reconciler.go:418-423 | with nothing on record, or without a Deployment, any cluster can be trusted |
| EndToEnd.RestartIsTrusted | pkg/operator/target_config_reconciler.go:105-110 | a restart keeps the trust |
| EndToEnd.DeletionIsCourteous | pkg/operator/target_config_reconciler.go:142-146 | deleting the Deployment at any moment is among the things other writers may do |
| EndToEnd.TrustedIsHonest | pkg/operator/target_config_reconciler.go:418-423 | such a record never lets a drifted Deployment be skipped, whatever log level is asked for by then |
| EndToEnd.DeploymentApplyVouches | vendor/github.com/openshift/library-go/pkg/operator/resource/resourceapply/apps.go:92-161 | after an apply the hash annotation speaks true of the stored spec, provided it did before if the helper may skip |
| LabelMerge.MergeMap | vendor/github.com/openshift/library-go/pkg/operator/resource/resourcemerge/object_merger.go:153-181 | the loop computes the merge for some order that visits every required key once; without contradictory keys that is the order-free merge, and the flag says whether anything changed |
| LabelMerge.FlagIsExact | vendor/github.com/openshift/library-go/pkg/operator/resource/resourcemerge/object_merger.go:153-181 | in any order the modified flag stays down exactly when no visited key had anything to do, and then the map is unchanged |
| LabelMerge.OrderIsInvisible | vendor/github.com/openshift/library-go/pkg/operator/resource/resourcemerge/object_merger.go:153-181 | without contradictory keys every iteration order gives the same map, reports a change exactly when there is one, and leaves nothing to do |
| LabelMerge.SecondMergeIsQuietIff | vendor/github.com/openshift/library-go/pkg/operator/resource/resourcemerge/object_merger.go:153-181 | a second merge reports no change if and only if no key is both set and removed |
| LabelMerge.ForeignKeySurvives | vendor/github.com/openshift/library-go/pkg/operator/resource/resourcemerge/object_merger.go:153-181 | a key that no required key names is untouched, in every order |
| LabelMerge.CleanKeysAreQuietIff | vendor/github.com/openshift/library-go/pkg/operator/resource/resourcemerge/object_merger.go:69-83 | an object created with the removal keys stripped is found in order by the next merge if and only if no key is both set and removed |
| LabelMerge.MergedKeyByKey | vendor/github.com/openshift/library-go/pkg/operator/resource/resourcemerge/object_merger.go:153-181 | key by key, in every order: required keys have the required value, keys required with a dash behind them are gone, keys that no required key begins with stay |
| OwnerMerge.MergeOwnerRefs | vendor/github.com/openshift/library-go/pkg/operator/resource/resourcemerge/object_merger.go:206-251 | for each required reference the first match is replaced or removed, otherwise it is appended; when the references settle the flag says whether anything changed |
| OwnerMerge.OwnerMergeSettles | vendor/github.com/openshift/library-go/pkg/operator/resource/resourcemerge/object_merger.go:206-251 | if the required references ask for no removals and do not contradict each other, a second merge changes nothing, the flag is exact, and what is stripped for a create is in order |
| OwnerMerge.OwnerFlagIsExact | vendor/github.com/openshift/library-go/pkg/operator/resource/resourcemerge/object_merger.go:206-251 | the flag stays down exactly when no reference had anything to do |
| OwnerMerge.ForeignOwnerSurvives | vendor/github.com/openshift/library-go/pkg/operator/resource/resourcemerge/object_merger.go:206-251 | owners that match no required reference stay, removals or not |
| OwnerMerge.OwnerMergeSettlesIff | vendor/github.com/openshift/library-go/pkg/operator/resource/resourcemerge/object_merger.go:206-251 | a second merge is silent for every list of owners if and only if that is so |
| OwnerMerge.OneOwnerMerged | vendor/github.com/openshift/library-go/pkg/operator/resource/resourcemerge/object_merger.go:206-279 | in fields: the first reference with the same name, kind and group, whatever its uid and version, is replaced, or taken away for a uid ending in a dash; otherwise the reference is appended |
| OwnerMerge.RecreatedOwnerIsReplaced | vendor/github.com/openshift/library-go/pkg/operator/resource/resourcemerge/object_merger.go:206-279 | an owner created anew under another uid leaves no dangling reference, and references that differ in name, kind or group stay |
| OwnerMerge.RequiredOwnersAreThere | vendor/github.com/openshift/library-go/pkg/operator/resource/resourcemerge/object_merger.go:206-251 | all required references that settle are there afterwards, and nothing else but what was there |
| ObjectMeta.EnsureObjectMeta | vendor/github.com/openshift/library-go/pkg/operator/resource/resourcemerge/object_merger.go:17-23 | namespace, name, labels, annotations and owners are merged and one flag collects all changes; for well-formed requirements the result is the order-free merge and the flag exact |
| ObjectMeta.EnsureMetaIsMergedMeta | vendor/github.com/openshift/library-go/pkg/operator/resource/resourcemerge/object_merger.go:17-23 | for well-formed requirements the result does not depend on iteration order and the flag says whether anything differs |
| ObjectMeta.MergedFieldByField | vendor/github.com/openshift/library-go/pkg/operator/resource/resourcemerge/object_merger.go:17-23 | the merge in fields: an empty namespace or name asks for nothing, labels and annotations key by key, the required owners are there |
| ObjectMeta.CreatedFieldByField | vendor/github.com/openshift/library-go/pkg/operator/resource/resourcemerge/object_merger.go:69-83 | what is sent to create an object: the same without keys and owners that end in a dash |
| ResourceApply.ApplyAgrees | vendor/github.com/openshift/library-go/pkg/operator/resource/resourceapply/apps.go:18-44 | a helper that compares specs brings any object, and a missing one, into agreement in one successful call |
| ResourceApply.TrackedApplyAgreesIff | vendor/github.com/openshift/library-go/pkg/operator/resource/resourceapply/apps.go:104-161 | a helper that goes by generation does so if and only if it wrote or there was agreement before |
| ResourceApply.DefaultingNormSettles | vendor/github.com/openshift/library-go/pkg/operator/resource/resourceapply/apps.go:18-44 | a server that canonicalises what is sent and fills open fields from the stored spec or from defaults settles |
| ResourceApply.AppliedOutcome | vendor/github.com/openshift/library-go/pkg/operator/resource/resourceapply/apps.go:18-44 | what is stored for a missing object, for one that is written and for one that is left, and when the call reports a change |
| ResourceApply.AllocatedFieldsSurvive | vendor/github.com/openshift/library-go/pkg/operator/resource/resourceapply/apps.go:18-44 | fields that the server has allocated and the request leaves open survive every write |
| Routes.ApplyRoute | pkg/operator/target_config_reconciler.go:491-515 | read, create or merge, compare, update: which object is stored, what is returned, when an error is reported, for every kind of reply |
| Routes.SecondApplyIsSilentIff | pkg/operator/target_config_reconciler.go:502-510 | the second of two calls makes no write and returns changed=false if and only if the metadata asks for nothing contradictory and the server kept the spec as sent |
| Routes.ApplyTwiceIsApplyOnce | pkg/operator/target_config_reconciler.go:491-515 | applying twice stores what applying once stores, for every server whose normal form settles |
| Routes.ForeignMetadataSurvives | pkg/operator/target_config_reconciler.go:502-504 | labels, annotations and owners the operator does not name survive an update |
| Routes.RoutesStayFiled | pkg/operator/target_config_reconciler.go:491-515 | the route is stored under its own namespace and name, and every other stays where it is |
| Generations.SetGeneration | vendor/github.com/openshift/library-go/pkg/operator/resource/resourcemerge/apps.go:25-37 | the first entry of the key is replaced, otherwise one is appended |
| Generations.GenerationFor | vendor/github.com/openshift/library-go/pkg/operator/resource/resourcemerge/apps.go:10-22 | finds the first entry of the key |
| Generations.RecordedReadsBack | vendor/github.com/openshift/library-go/pkg/operator/resource/resourcemerge/apps.go:40-58 | what was recorded is expected next time, every other key reads as before, no other entry is lost, recording again changes nothing |
| Generations.DeploymentEntry | vendor/github.com/openshift/library-go/pkg/operator/resource/resourcemerge/apps.go:40-58 | the operand's entry is the first with group apps, resource deployments, its namespace and name |
| Generations.NoDeploymentEntry | vendor/github.com/openshift/library-go/pkg/operator/resource/resourcemerge/apps.go:40-46 | without one no generation of a live object is expected |
| Sync.TargetConfigReconciler.Sync | pkg/operator/target_config_reconciler.go:105-184 | the eleven calls with their early returns and the status write have the effect of the specified pass |
| Sync.TargetConfigReconciler.ManageAll | pkg/operator/target_config_reconciler.go:112-176 | the calls run in this order, stop at the first error, and the generation kept from the Deployment call is still the stored one at the end |
| Sync.TargetConfigReconciler.UpdateStatus | pkg/operator/target_config_reconciler.go:178-183 | records the generation, writing nothing when the list is right |
| Sync.PutOutcome | pkg/operator/target_config_reconciler.go:142-183 | what is assumed of a write: absorbed if it changes nothing, else a new version, and a higher generation if and only if the spec changes or the server says so |
| Sync.StatusOutcome | pkg/operator/target_config_reconciler.go:178-183 | the status write records the generation in the custom resource that is there by then and changes nothing else of it |
| Sync.NothingWithoutCustomResource | pkg/operator/target_config_reconciler.go:105-110 | without a custom resource a pass fails before it has done anything |
| Convergence.StepEffect | pkg/operator/target_config_reconciler.go:112-176 | one manage call touches its own resource only, leaves it as it was or converged, leaves a converged one alone, and succeeds if and only if it is answered and the server admits the update |
| Convergence.PassEffect | pkg/operator/target_config_reconciler.go:105-184 | where a pass stops and why, how it leaves every resource, and what becomes of the status |
| Convergence.PrefixOnFailure | pkg/operator/target_config_reconciler.go:106-183 | a pass that fails at step i has converged every earlier resource and touched neither a later one nor, before the last step, the status |
| Convergence.OrderOfSteps | pkg/operator/target_config_reconciler.go:112-176 | the order of the steps by name |
| Convergence.FailureAtRoute | pkg/operator/target_config_reconciler.go:142-176 | a pass that fails at the Route has brought about network policy, roles, bindings and Deployment and not touched services, service account and ServiceMonitor |
| Convergence.ProgressIsMonotone | pkg/operator/target_config_reconciler.go:106-183 | no later pass undoes what is converged, however it fails |
| Convergence.CleanPassConvergesIff | pkg/operator/target_config_reconciler.go:105-184 | a pass in which every request is answered completes if and only if the server admits every update; the result is stable if and only if no object was barred and the recorded generation was honest |
| Convergence.BarredStopsThePass | pkg/operator/target_config_reconciler.go:106-176 | whatever the replies, a pass stops at a barred object or before it and touches nothing from there on |
| Convergence.BarredForever | pkg/operator/target_config_reconciler.go:106-176 | and so it stays over any number of passes |
| Convergence.StablePassIsNoOp | pkg/operator/target_config_reconciler.go:105-184 | from the fixed point a pass changes nothing at all |
| Convergence.ConvergesWithinBudgetIff | pkg/operator/target_config_reconciler.go:105-184 | with at most F passes cut short by failing requests, F+1 passes reach the fixed point if and only if no object is barred |
| OperandResources.HelpersMeetContract | vendor/github.com/openshift/library-go/pkg/operator/resource/resourceapply/apps.go:18-44 | the helpers of ResourceApply meet the contract the convergence results rest on |
| OperandResources.ConvergedIsAgreement | pkg/operator/target_config_reconciler.go:418-423 | converged means: the metadata holds everything asked for and the spec passes the comparison or is the normal form of the required one |
| OperandResources.CleanPassAgrees | pkg/operator/target_config_reconciler.go:105-184 | a pass in which every request is answered gets past a resource if none up to it is barred, and the resource then agrees with its asset |
| OperandResources.ForeignRoleRefBlocks | vendor/github.com/openshift/library-go/pkg/operator/resource/resourceapply/rbac.go:64-116 | a cluster role binding or role binding with another roleRef than required is barred: no pass repairs it or changes anything behind it |
| OperandResources.StrangersBindingBlocksTheDeployment | vendor/github.com/openshift/library-go/pkg/operator/resource/resourceapply/rbac.go:152-204 | an input of that kind: the Deployment is never created |
| ManageCall.CallIsOneStep | vendor/github.com/openshift/library-go/pkg/operator/resource/resourceapply/apps.go:92-161 | for any writes between its read and its write a manage call is one step, at the read if it skips, else at the write, refused if the object was touched |
| ManageCall.Client.Manage | pkg/operator/target_config_reconciler.go:491-515 | read, compare, then create or update under the version read, with others writing in between |
| Worker.QueueWorker.ProcessNextWorkItem | pkg/operator/target_config_reconciler.go:445-462 | an undisturbed call is one worker's way through the state machine: get, the requests of the sync one by one, forget or retry, done |
| Worker.SyncRunIsPass | pkg/operator/target_config_reconciler.go:105-184 | the requests of a sync that nobody disturbs have together the effect and outcome of the specified pass |
| Worker.QueueWorker.HandleEvent | pkg/operator/target_config_reconciler.go:483-489 | afterwards the key "key" is queued, or marked for another round while a sync runs, unless the queue shuts down; an event for a marked key changes nothing; other keys, the delayed adds and the failure counts stay |
| WorkQueue.TakeKeepsValid | vendor/k8s.io/client-go/util/workqueue/queue.go:265-285 | getting a key keeps queue, dirty and processing sets consistent |
| WorkQueue.DoneKeepsValid | vendor/k8s.io/client-go/util/workqueue/queue.go:289-302 | so does finishing one, re-queueing it if it became dirty |
| WorkQueue.FirstInFirstOut | vendor/k8s.io/client-go/util/workqueue/queue.go:227-285 | a new key goes behind the others and the one that has waited longest is taken |
| WorkQueue.AddedMeanwhile | vendor/k8s.io/client-go/util/workqueue/queue.go:227-302 | a key added while it is processed is queued once more when it is done |
| WorkQueue.NothingIsAddedAfterShutDown | vendor/k8s.io/client-go/util/workqueue/queue.go:227-230 | after the shutdown nothing is added, at once or later |
| Controller.ReachableStatesAreSafe | pkg/operator/target_config_reconciler.go:434-462 | in every reachable state, with any number of workers and any interference: one sync in flight, one entry queued, no wake-up lost before shutdown, the rate limiter's count is the failing streak, a sync by an outdated custom resource is followed by another |
| Controller.StepKeepsInv | pkg/operator/target_config_reconciler.go:445-462 | every step keeps the invariant behind that |
| Quiescence.ChatterEndsConverged | pkg/operator/target_config_reconciler.go:81-97 | the events of the operator's own writes die down: with boundedly many failed syncs and nobody else writing the run is bounded, and at rest everything is converged and recorded |
| Quiescence.RunsAreBounded | pkg/operator/target_config_reconciler.go:445-462 | no such run is longer than the measure of the state it starts in |
| Quiescence.StepDecreases | pkg/operator/target_config_reconciler.go:445-462 | every step makes the measure smaller |
| Quiescence.DriftIsNoticedIff | pkg/operator/target_config_reconciler.go:81-97 | at rest, a change leads to a sync if and only if it touches the network policy or the custom resource |
| Quiescence.UnwatchedDriftGoesUnnoticed | pkg/operator/target_config_reconciler.go:87-97 | any of the other ten kinds may vanish or be replaced and nothing follows |
| Quiescence.FreshStartStaysReady | pkg/operator/target_config_reconciler.go:105-184 | without other writers a record that is honest stays so, request by request |
| Obstruction.ConvergesUnlessBarred | pkg/operator/target_config_reconciler.go:105-184 | when no object is barred, nothing but failing requests counts against the bound |
| Obstruction.BarredNeverRests | pkg/operator/target_config_reconciler.go:445-462 | however often it tries, the operator neither gets past a barred object nor comes to rest |
| GenerationProtocol.DriftIsNeverHidden | pkg/operator/target_config_reconciler.go:418-423 | with other writers between any two requests, a skip is sound unless someone else set the hash annotation or a generation of another incarnation was matched |
| GenerationProtocol.EditsAreNeverHidden | pkg/operator/target_config_reconciler.go:418-423 | in particular in every run without deletions and forged hashes |
| GenerationProtocol.SyncRepairsAndRecords | pkg/operator/target_config_reconciler.go:142-183 | a sync repairs the Deployment, and if its status write is stored the recorded generation is the live one |
| GenerationProtocol.EditIsNoticed | pkg/operator/target_config_reconciler.go:418-423 | after an edit of the spec at any moment of any run, in the middle of a sync too, the live generation is past the recorded one and the one a sync goes by until the operator writes, and the next sync to apply does not skip |
| GenerationProtocol.RedundantWriteIsAbsorbed | pkg/operator/target_config_reconciler.go:178-183 | after any run, a sync with a refused status write costs the next one a redundant request that changes nothing |
| GenerationProtocol.RecreatedCopyHidesDrift | vendor/github.com/openshift/library-go/pkg/operator/resource/resourceapply/apps.go:132-136 | the first condition is needed: a run in which an edited copy passes for the operator's own |
| GenerationProtocol.CrossedIncarnationsHideDrift | vendor/github.com/openshift/library-go/pkg/operator/resource/resourceapply/apps.go:132-136 | the second is needed: a run in which a new incarnation reaches the generation recorded for the old one |
| GenerationRefinement.ManageStepIsApply | pkg/operator/target_config_reconciler.go:418-423 | the manage call of the Deployment, with the helper's metadata merge and hash, is the Apply of the protocol |
| GenerationRefinement.StatusStepIsRecord | pkg/operator/target_config_reconciler.go:178-183 | the status write is its Record |
| OperatorClient.CLIManagerClient.UpdateOperatorSpec | pkg/operator/operatorclient/interfaces.go:55-70 | re-read, put in the caller's version and spec, update, with others writing in between, for every kind of reply |
| OperatorClient.CLIManagerClient.UpdateOperatorStatus | pkg/operator/operatorclient/interfaces.go:72-87 | the same for the status |
| OperatorClient.CLIManagerClient.UpdateStatus | vendor/github.com/openshift/library-go/pkg/operator/v1helpers/helpers.go:174-225 | the retried read-modify-write applies the change to the latest status in one atomic step, or changes nothing, in at most four attempts, whatever fails in between; the only other outcome is a lost reply to just that step; each attempt reads a newer version than the last, so the read for a stale cache is never made |
| StatusWrite.RecordGeneration | pkg/operator/target_config_reconciler.go:178-183 | for every interference and every way its requests can end, the retried status write has effect and outcome of one status step on what others have left |
| OperatorClient.SucceedsIffUntouched | pkg/operator/operatorclient/interfaces.go:55-87 | a call of either method succeeds if and only if its requests are answered and the object was the caller's snapshot at every moment up to the write; then exactly the spec or status is replaced, otherwise nothing changes unless just the reply was lost |
| OperatorClient.VersionDecides | pkg/operator/operatorclient/interfaces.go:55-87 | for both methods: success if and only if the caller's version is that of the re-read object, which is left alone until the write; each kind of failure has its own condition; an outdated version or none changes nothing |
| OperatorClient.SecondCallerConflicts | pkg/operator/operatorclient/interfaces.go:55-87 | once anyone has changed the object, a call with the old snapshot's version fails, wherever the change falls |
| OperatorClient.NoVersionNoWrite | pkg/operator/operatorclient/interfaces.go:61-64 | without a version the call fails and changes nothing |
| OperatorClient.VersionsAreFresh | pkg/operator/operatorclient/interfaces.go:61-64 | a resourceVersion is never reused for a different object |
| ServerSideApply.CLIManagerClient.ApplyOperatorSpec | pkg/operator/operatorclient/interfaces.go:97-133 | nil configuration, failing read and failing extraction change nothing; otherwise skip or one forced apply |
| ServerSideApply.SkipIffApplyIsNoOp | pkg/operator/operatorclient/interfaces.go:115-121 | for every object and ownership map the extracted configuration equals a non-empty desired one if and only if the forced apply changes no value and no ownership |
| ServerSideApply.SkipRefinesApply | pkg/operator/operatorclient/interfaces.go:102-127 | in every interleaving the call has the effect of one unconditional apply, at its read if it skips and at its write otherwise |
| ServerSideApply.SecondCallSkipsIff | pkg/generated/applyconfiguration/climanager/v1/climanager.go:45-57 | right after an apply the extracted configuration is the desired one, so a second call skips, if and only if the spec has a field |
| ServerSideApply.EmptySpecIsNeverSkipped | pkg/operator/operatorclient/interfaces.go:102-106 | a configuration without fields is never taken for applied |
| ServerSideApply.ForeignFieldsSurvive | pkg/operator/operatorclient/interfaces.go:124-127 | other managers keep the fields the apply does not set differently |
| ServerSideApply.SpecAfterCall | pkg/operator/operatorclient/interfaces.go:97-133 | field by field: the fields of the spec have the desired value and belong to the manager; a field outside it that was the manager's is gone unless it was somebody else's too; the rest is as before |
| ServerSideApply.SpecCreated | pkg/operator/operatorclient/interfaces.go:110-127 | a missing object is created with the fields of the spec and nothing else |
| ServerSideApply.AppliedFieldByField | pkg/operator/operatorclient/interfaces.go:124-127 | the effect of a forced apply on every value and every owner |
| ServerSideApply.ExtractedFieldByField | pkg/generated/applyconfiguration/climanager/v1/climanager.go:45-57 | the extracted fields are those the manager owns by apply in that part of the object, with their present values |
| OneServer.WriteIsAWrite | pkg/operator/operatorclient/interfaces.go:55-133 | every write seen as fields and ownership is a write seen as versions, and changes something in the one if and only if in the other |
| OneServer.SwapAfterApply | pkg/operator/operatorclient/interfaces.go:55-133 | a compare-and-swap under a version read before somebody's apply succeeds if and only if the apply changed no value and no ownership |
| OneServer.SkipsAgree | pkg/operator/operatorclient/interfaces.go:156-158 | the fast path of the status apply compares the extracted configuration with the desired one |
| OneServer.AppliesAgree | pkg/operator/operatorclient/interfaces.go:167-172 | a forced apply of the status stores the same in both views |
| Transitions.CLIManagerClient.ApplyOperatorStatus | pkg/operator/operatorclient/interfaces.go:135-175 | the three branches, what is sent, what is stored for every kind of reply and whatever others do in between, and what becomes of the caller's slice |
| Transitions.SetApplyConditionsLastTransitionTime | vendor/github.com/openshift/library-go/pkg/operator/v1helpers/canonicalize.go:36-57 | in place: the old time when the status is the same, else the supplied one, else now |
| Transitions.FindApplyCondition | vendor/github.com/openshift/library-go/pkg/operator/v1helpers/canonicalize.go:59-68 | the first condition of a type |
| Transitions.TimesAreLatestFlips | pkg/operator/operatorclient/interfaces.go:146-165 | over any sequence of calls, answered or not, every stored condition has the time of the latest effective call in which it appeared or its status flipped: the time it carried there, or else that call's clock |
| Transitions.RepeatSkipsIff | pkg/operator/operatorclient/interfaces.go:156-158 | a repeat of the last effective request is spared if and only if it has a field and each condition carries the very time of its latest flip, and changes nothing either way |
| Transitions.SinceIsTheLatestFlip | pkg/operator/operatorclient/interfaces.go:160-164 | that call is the start of the last unbroken stretch with the present status |
| Transitions.RepeatedRequestIsSentAndAbsorbed | pkg/operator/operatorclient/interfaces.go:156-158 | without times in its conditions it is spared if and only if it has no conditions but some other field |
| Transitions.FlipIsStampedIff | vendor/github.com/openshift/library-go/pkg/operator/v1helpers/canonicalize.go:44-52 | after any history, a condition that is new or flips is stored with this call's time if and only if it carries no other |
| Transitions.NothingToApplyTo | pkg/operator/operatorclient/interfaces.go:146-149 | a missing object that a status apply may not create stays missing and every call fails |
| Transitions.RepeatsAreRejected | pkg/operator/operatorclient/interfaces.go:167-172 | a list with two conditions of a type is never stored |
| Transitions.ReusedSliceKeepsItsTime | pkg/operator/operatorclient/interfaces.go:160-164 | a caller that reuses its slice gets the old time on a flip |
| InformerFactory.OneInformerPerKind | pkg/generated/informers/externalversions/factory.go:131-147 | for all interleavings: constructed once, run once, only registered kinds started, all requests for a kind answered with the same informer |
| InformerFactory.NoRunAfterShutdown | pkg/generated/informers/externalversions/factory.go:131-157 | after the flag is set no run begins and the counter never rises |
| InformerFactory.ReturnedShutdownIsFinal | pkg/generated/informers/externalversions/factory.go:149-157 | once a Shutdown has returned every started informer has finished, for good |
| InformerFactory.ShutdownReturnsIff | pkg/generated/informers/externalversions/factory.go:149-157 | a waiting Shutdown can return if and only if every run has finished |
| InformerFactory.NoAddDuringWait | pkg/generated/informers/externalversions/factory.go:131-157 | the wait group is never raised while a Shutdown waits |
| InformerFactory.StartCoversTheRegistry | pkg/generated/informers/externalversions/factory.go:131-147 | a Start that ends has started every kind registered by then |
| InformerFactory.StepKeepsInv | pkg/generated/informers/externalversions/factory.go:131-157 | every critical section, and every informer's end, keeps the invariant behind these |
| SharedInformers.SharedInformerFactory.InformerFor | pkg/generated/informers/externalversions/factory.go:208-230 | the registered informer, or a new one with the custom or default resync period and the transform |
| SharedInformers.SharedInformerFactory.StartWithContext | pkg/generated/informers/externalversions/factory.go:131-147 | after the flag nothing; before it, exactly the informers not yet started are run, with the handlers attached so far |
| SharedInformers.SharedInformerFactory.Shutdown | pkg/generated/informers/externalversions/factory.go:149-157 | sets the flag, returns with the counter at zero whatever others call meanwhile, and gives the name back |
| SharedInformers.SharedInformerFactory.WaitForCacheSyncWithContext | pkg/generated/informers/externalversions/factory.go:164-204 | the report covers exactly the kinds started at the snapshot whatever others call while it waits |
| SharedInformers.Report | pkg/generated/informers/externalversions/factory.go:186-203 | every entry is true of its informer, and the error is set if and only if one is false |
| Starter.RunOperator | pkg/operator/starter.go:47-85 | the informer asked for several times is one instance, and it begins to run with the reconciler's handler attached; likewise for network policies; both resync every ten minutes |
| Starter.NewTargetConfigReconciler | pkg/operator/target_config_reconciler.go:81-97 | both watches get the handler before anything runs |
| Starter.EventsReachTheQueue | pkg/operator/target_config_reconciler.go:483-489 | an event does to the reconciler's queue what the controller's delivery step does, whoever else listens |
| Starter.WiredEventsReachTheQueue | pkg/operator/starter.go:47-85 | in particular with the listeners RunOperator leaves behind |
| JsonTree.NestedFieldNoCopy | vendor/k8s.io/apimachinery/pkg/apis/meta/v1/unstructured/helpers.go:54-73 | walks down: missing, blocked by something that is not an object, or found |
| JsonTree.ReadableIsWritable | vendor/k8s.io/apimachinery/pkg/apis/meta/v1/unstructured/helpers.go:257-280 | setting a nested field that could be read cannot fail and replaces exactly the value at that path |
| JsonTree.SetNestedFailsIff | vendor/k8s.io/apimachinery/pkg/apis/meta/v1/unstructured/helpers.go:261-280 | it fails if and only if something on the way is there and is not an object |
| JsonTree.SetNestedReadsBack | vendor/k8s.io/apimachinery/pkg/apis/meta/v1/unstructured/helpers.go:261-280 | what was set reads back, missing levels included |
| ServiceMonitor.Unstructured.SetServerName | pkg/operator/target_config_reconciler.go:346-369 | fails, with which error, exactly when there is no object at spec.endpoints[0].tlsConfig, and then changes nothing; the last error branch is never taken |
| ServiceMonitor.OnlyTheServerNameChanges | pkg/operator/target_config_reconciler.go:346-369 | the name reads back and every value on another path, every list length and every other key is as before |
| ServiceMonitor.OtherEndpointsSurvive | pkg/operator/target_config_reconciler.go:354-365 | every other endpoint is left alone |
| ServiceMonitor.LastNameWins | pkg/operator/target_config_reconciler.go:362-365 | the last of two writes wins |
| ServiceMonitor.UnchangedIff | pkg/operator/target_config_reconciler.go:346-369 | a document is unchanged if and only if it is refused or has the name already |
| ServiceMonitor.NamedAt | pkg/operator/target_config_reconciler.go:346-369 | the written name is read at spec.endpoints[0].tlsConfig.serverName |
| ServiceMonitor.RefusalTells | pkg/operator/target_config_reconciler.go:347-361 | each error in terms of what is and is not found on that path |
| DeploymentRender.ReplaceImages | pkg/operator/target_config_reconciler.go:391-398 | for any map and iteration order every image is looked up once |
| DeploymentRender.DeploymentManager.RequiredContainers | pkg/operator/target_config_reconciler.go:371-416 | exactly the placeholder images are replaced, container 0 gets its flags behind the asset's arguments, nothing else changes, and nothing accumulates |
| DeploymentRender.FlagsTakeEffect | pkg/operator/target_config_reconciler.go:401-416 | exactly one verbosity flag is added, behind any other, and the HTTP flag if and only if asked for |
| DeploymentRender.LevelMattersIff | pkg/operator/target_config_reconciler.go:401-412 | a change of log level changes the required Deployment if and only if it changes the verbosity |
| DeploymentRender.VerbosityOfLevel | pkg/operator/target_config_reconciler.go:401-412 | the last verbosity argument denotes 2, 4, 6 and 8 for Normal, Debug, Trace and TraceAll, and 2 for any other level |
| DeploymentRender.RenderedFieldByField | pkg/operator/target_config_reconciler.go:371-416 | container by container, in the asset's own terms |
| DeploymentRender.PlaceholdersGoneIff | pkg/operator/target_config_reconciler.go:386-399 | when no placeholder is left, and that other images are kept |

## Left out

- Convergence.CleanPassConvergesIff: nobody else edits the objects in the middle of the pass; EndToEnd lets other writers act between any two requests.
- JsonTree.SetNestedFailsIff: nested maps are values, so that aliasing between a document and maps taken from it is not captured; the code works on a deep copy.
- SharedInformers.SharedInformerFactory.WaitForCacheSyncWithContext: calls of others while it waits are whole critical sections; how those interleave with a start under the lock is in InformerFactory.
- Transitions.TimesAreLatestFlips: one field manager that is alone in writing the status, as extraction of lists that others share is not modelled.
- Fields of a spec are scalars in ServerSideApply; lists and nested fields of a configuration are not modelled.
- The later EnsureOwnerRef of a manage function finds its reference in place and does nothing.
- The Deployment is created with its labels and annotations as they are, which differs from the other helpers only for keys ending in a dash; its asset has none.
- Comparison and normal form of the ten other kinds, and which updates the server admits, are parameters.
- `PatchOperatorStatus`, `GetObjectMeta`, the log level controller's own sync, events, logging, metrics and the restart of a worker by `wait.Until`.
- Assets and their decoding, the encoding of a rendered asset, cobra commands, REST clients, listers, fakes and the chained setters of the apply configurations: plumbing or easy members.
- Real time: delays and clocks are orders or integers.
