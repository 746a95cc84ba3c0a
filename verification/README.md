# Verified model of the environments controllers

A Dafny model of the stateful parts of the BlanketOps environments module, and
proofs about it. `dafny verify dfyconfig.toml` checks everything.

| files | what they model |
|---|---|
| `EngineModel`, `EngineInvariant`, `EngineReturns`, `EngineShutdown`, `EngineSolo`, `EngineObject` | the command engine as a transition system over every interleaving of callers, workers, reconfiguration and shutdown; and the Engine object, whose methods are proved to make only steps of that system |
| `Keys`, `ObjectCaches` | the generation-scoped object cache: printed keys, the in-memory store, and any number of caches over it as one map of fields |
| `Conditions`, `StatusServer` | condition lists; the status of an object on the API server with its concurrent writers, and the fetch, merge, conditional update and bounded retry every status writer runs |
| `DeploymentDomain`, `DeploymentStatus`, `DeploymentIntents`, `Rollout`, `FluxResources`, `DeploymentService` | a Deployment: its two intents, applying and tearing down an unbounded list of units under any pattern of failures, the phase, the error and the stored conditions that follow |
| `Overlay`, `ManifestsRepo`, `ManifestsClone`, `ManifestsRuns` | the GitOps path: rendering the overlay directory; the working tree, index and HEAD of the clone, and the repositories by URL; what several runs leave |
| `PackageStatus`, `PackageTeardown`, `PackageIdentity`, `PackageBinding` | a Package: the fold over its App's conditions, the status it leaves, the two-party deletion protocol, and the reconciler of its ClusterRoleBinding |
| `GitRepository` | a GitRepository from its JSON contract to the repository and webhook objects |

How the outside world appears:

- The Kubernetes API is a map of objects. Which calls fail is a function of the
  call number, a parameter, or a nondeterministic choice that is logged, so that
  a statement covers every pattern of failures. A call that reports an error may
  have been carried out all the same; operations of git and of the file system
  fail in the same two ways. Which commit a reference names, and whether the branch's
  tip is part of it, is an answer of the repository and a parameter.
- Other writers of a status, other goroutines, and kapp-controller act between
  any two steps of the modelled code.
- A transition system is run by a list of actions; "every run" is every list.
- Methods that change state are proved against functions of the old state; what
  the code is for is then proved about those functions. The loops that the code
  has are loops here, with their invariants.

Where the code and its comments disagree, the model follows the code and a
lemma says exactly when the comment holds:

- `core/engine/engine.go:190-192` speaks of draining: stopping is sure to finish
  what was accepted exactly when nothing waits in the channel at that moment
  (`DrainedIffNothingWaits`).
- `cache/objectcache.go:88-90` says generation scoping protects correctness on a
  backend that cannot enumerate keys: after Invalidate such a backend still
  serves the fields (`InvalidatedFieldIsGoneIffEnumerating`).
- `pkg/apis/packages/domain/model.go:94-96` says the binding name stays unique
  because it carries the namespace: `NamesCollideIffOverlap`.
- `pkg/apis/gitrepository/api/github.go:203-210` says Teardown is what keeps a
  webhook from outliving its resource: it does not touch a webhook that the
  contract no longer declares (`WebhookOutlivesTheResourceIff`), and it does remove
  the objects of a resource of the same name in another namespace
  (`TeardownTakesASharedRepositoryIff`).
- `pkg/apis/deployment/api/kubernetes.go:227-232` calls Teardown the only thing that
  cleans up: what an earlier run applied for a unit that the contract has since
  dropped stays (`LeftoverIff`).
- `pkg/apis/deployment/api/kustomization.go:107-109` and `417-418` say that the
  manifests are committed to repoURL. A clone that is already there, in a directory
  named after the Deployment alone, is not asked where it came from: an error-free
  run reaches the URL exactly when there was no clone, or it is one of that URL, or
  the rendering was there already (`UrlHoldsTheRenderingIff`, `ChangedUrlIsIgnored`).
- `pkg/apis/deployment/api/kustomization.go:417-422` and `603-605` let a run work at a
  commit. The push goes to the branch all the same: behind its tip it is refused, and a
  run at such a commit succeeds only with nothing to commit, whatever the branch holds
  (`RunAtCommitPublishesIff`, `StaleCommitIsNeverPushed`). A Deployment's own intent
  never names a commit.
- `pkg/apis/deployment/api/kustomization.go:287` says that environment.yaml is preserved
  if it is there: the index lists it exactly when it is there and the stat of it works;
  a failing stat drops its line without an error (`RenderedIndexLists`).
- Runs on the branch for one overlay, wherever they are cut short, never leave a clone that the next
  one cannot check out, whatever others do elsewhere in the repository
  (`RunsNeverBlockTheNext`); files that were only deleted never block and come back
  (`RecoversIff`, `DeletedFilesAreRestored`). When somebody else changes a file that a
  cut-short run rewrote, every later run is refused (`CutShortRunCanBlockTheNext`,
  `InTheWayIsForGood`).
- `pkg/apis/deployment/render/builders/builder.go:17-24` says that the GitOps and the
  Kubernetes path build a unit's objects with the same code. They do not: the Deployments
  are the same exactly when the unit has no pull secret, which the rendered ones never
  carry, and the Services never are, in their label and port name (`PathsAgreeIff`).
- A push that failed is not repeated by the next run on the same clone, which
  finds nothing to commit (`FailedPushIsNotRetried`); re-synchronising the clone
  first, as the entry point does, closes that gap (`SyncedRunPublishes`).
- An unfinished Deployment run leaves an older Ready=True in place
  (`UnfinishedRunKeepsReady`), and an App that is ready after a failure may keep
  the failure's text as its message (`SuccessAfterFailureKeepsItsText`).

## Model

| member | source | states |
|---|---|---|
| EngineInvariant.DeliveryOverEveryRun | core/engine/engine.go:145-240 | in every reachable state what was accepted is what was taken followed by the queue, nothing twice, at most 1024 waiting; every taken command is at exactly one worker or finished exactly once; the stop channel was closed at most once |
| EngineInvariant.StepKeepsDelivery | core/engine/engine.go:145-240 | each step of any goroutine keeps the delivery invariant |
| EngineInvariant.HandleOnlyThroughTheGates | core/engine/engine.go:124-166 | over every run a Domain is invoked only after each breaker check of that command passed (one for Execute, ingestion and execution for Queue), each against the breaker then installed, and only the Domain then registered for its GVK |
| EngineInvariant.HandledAtMostOnce | core/engine/engine.go:124-166 | no call reaches a Handle twice in any run |
| EngineReturns.ReturnedIff | core/engine/engine.go:124-166 | over every run a call has returned an error, or nil, exactly when some action of the run ended it so: Handle returned just that, the breaker said no, no Domain was registered then, or the context was done |
| EngineReturns.HandleDecides | core/engine/engine.go:139 | what Handle returned for a call, error or nil, is what that call has returned ever after |
| EngineReturns.ConfiguredAsLastSet | core/engine/engine.go:106-119 | in every reachable state the pool size, the breaker and each registration are those set last, and every call is for the command it was made with |
| EngineShutdown.WorkerStepDecreases | core/engine/engine.go:220-240 | every step of a worker goroutine lowers the termination measure |
| EngineShutdown.WorkersMakeBoundedlyManySteps | core/engine/engine.go:193-240 | once producers have ceased, workers make at most the measure's number of steps in any continuation |
| EngineShutdown.LiveWorkerCanStep | core/engine/engine.go:220-240 | after the stop channel is closed every live worker has an enabled step |
| EngineShutdown.ShutdownCompletes | core/engine/engine.go:193-215 | from every such state workers alone bring the wait group to zero within the measure, without taking anything more from the channel |
| EngineShutdown.StuckOnlyWhenAllExited | core/engine/engine.go:193-240 | a state after stop in which no worker can step has all workers exited |
| EngineShutdown.DrainedIffNothingWaits | core/engine/engine.go:190-240 | with the stop channel closed: every way the workers can come to an end, once producers have ceased, finishes all that was accepted, exactly when nothing waits in the channel now |
| EngineShutdown.AcceptedCommandCanBeLeftBehind | core/engine/engine.go:224-239 | a run exists that accepts a command, stops, and never runs it |
| EngineSolo.SynchronousQueueIsExecute | core/engine/engine.go:145-159 | with no workers, and other goroutines making any steps that do not reconfigure the engine, Queue returns what Execute returns unless the breaker's first answer is yes and its second is no; so for a breaker that is a function of the command it always does; and Execute returns the blocked error, the missing Domain, or what Handle returned |
| EngineObject.Engine.SetWorkers | core/engine/engine.go:108-112 | one step of the system: the pool size alone changes |
| EngineObject.Engine.SetCircuitBreaker | core/engine/engine.go:115-119 | one step of the system: the breaker alone changes |
| EngineObject.Engine.Admit | core/engine/engine.go:125-132 | reads the breaker, asks it, and ends the call when it refuses |
| EngineObject.Engine.HandleBy | core/engine/engine.go:139 | hands the command to the Domain found; the call returns just the error of Handle, or nil when there is none |
| EngineObject.Engine.TrySend | core/engine/engine.go:160-165 | the select, watched for any number of turns: sent while there is room, cancelled once the context is done, or still blocked, which happens only on a full channel |
| EngineObject.Engine.Execute | core/engine/engine.go:124-140 | with other goroutines running in between, makes only steps of the system and moves only its own call; blocked exactly when the breaker installed at entry says no; otherwise there is a state between entry and return in which the Domain is looked up, and the error is that it is not registered there, or what Handle returned |
| EngineObject.Engine.Dispatch | core/engine/engine.go:134-139 | the lookup and the hand-over: the missing Domain exactly when the GVK is not registered now, and otherwise the error of Handle, or nil when there is none |
| EngineObject.Engine.Queue | core/engine/engine.go:145-166 | blocked by the breaker exactly when it says no at ingestion; with no workers the outcome of Execute, the error of Handle included; else nil with the command last in the channel, the context error, or a send that still waits |
| EngineObject.Engine.StartWorkers | core/engine/engine.go:171-188 | starts as many workers as were configured at entry, none when not positive, with or without other goroutines running in between; without them nothing else changes |
| EngineObject.Engine.StopWorkers | core/engine/engine.go:193-215 | no-op without workers; otherwise the stop channel is closed, however often this is called, and it ends with the pool gone or at the timeout with a worker still live |
| EngineObject.Engine.WorkerLoop | core/engine/engine.go:220-240 | any number of turns of one worker are steps of the system |
| EngineObject.Engine.WorkOne | core/engine/engine.go:229-237 | the front command is taken, executed until its call has returned, and finished by this worker, which is idle again whatever the command returned |
| EngineObject.Engine.TakeOne | core/engine/engine.go:229 | takes the command that waited longest |
| EngineObject.Engine.FinishOne | core/engine/engine.go:235-237 | the worker is free and the command finished, once |
| Keys.DecimalReadsBack | cache/objectcache.go:68-70 | the decimal rendering of every generation, negative ones included, reads back and contains no colon |
| Keys.KeyReadsBack | cache/objectcache.go:68-70 | a printed key reads back to kind, namespace, name, generation and field |
| Keys.KeyOfAWorker | cache/objectcache_test.go:75 | the printed form of the key the tests expect |
| Keys.KeyInjective | cache/objectcache.go:68-70 | two keys are equal exactly when all five parts are |
| Keys.PrefixExact | cache/objectcache.go:72-75 | a key starts with an object's prefix exactly when it belongs to that object |
| Keys.IllegalKindOrNamespaceCollides | cache/objectcache.go:68-70 | with a colon in its kind or a slash in its namespace, every field shares its key with a different field |
| Keys.NameWithGenerationCollides | cache/objectcache.go:68-70 | a name that continues another name with a generation and a colon shares keys with fields of that other object |
| ObjectCaches.StoreIsOneMapOfFields | cache/objectcache.go:77-93 | after any interleaving of caches of any kinds the flat store reads as one map from fields to values, on all three backends |
| ObjectCaches.HitIsLastWriteOfThatField | cache/objectcache.go:82-86 | on every backend a hit is the last value written for that object, generation and field |
| ObjectCaches.InvalidatedFieldIsGoneIffEnumerating | cache/objectcache.go:88-93 | after Invalidate a field is gone exactly when the backend enumerates its keys or held nothing |
| ObjectCaches.InvalidateTouchesOneObject | cache/objectcache.go:91-93 | every other object's fields stay |
| ObjectCaches.FakeExternalCache.Set | cache/internal/testutil/fake_external_cache.go:49-59 | stores value and expiry under the key, or changes nothing when marshalling fails |
| ObjectCaches.FakeExternalCache.Get | cache/internal/testutil/fake_external_cache.go:61-72 | a miss, the stored value, or an error when it does not fit |
| ObjectCaches.FakeExternalCache.Del | cache/internal/testutil/fake_external_cache.go:74-80 | removes the key from both maps |
| ObjectCaches.FakeExternalCache.DelPrefix | cache/internal/testutil/fake_external_cache.go:82-92 | the deleting loop removes all and only the keys with the prefix, in whatever order it meets them |
| ObjectCaches.ObjectCache.constructor | cache/objectcache.go:61-66 | a time to live that is not positive becomes one hour |
| ObjectCaches.ObjectCache.SetField | cache/objectcache.go:78-80 | the write step of the field map, through the printed key |
| ObjectCaches.ObjectCache.GetField | cache/objectcache.go:84-86 | reads through the printed key |
| ObjectCaches.ObjectCache.Invalidate | cache/objectcache.go:91-93 | the invalidation step of the field map, through the printed prefix |
| Conditions.ConditionList.SetCondition | core/conditions/conditions.go:60-84 | updates the first entry of the type in four fields, or appends |
| Conditions.GetCondition | core/conditions/conditions.go:89-96 | the first entry of the type, or none |
| Conditions.HasCondition | core/conditions/conditions.go:103-110 | some entry has the type and the status |
| Conditions.ReplayKeepsFirstAppearanceOrder | core/conditions/conditions.go:60-84 | after any writes from empty: one entry per type written, in order of first appearance |
| Conditions.ReplayHoldsLastWrites | core/conditions/conditions.go:60-84 | each entry carries the last write of its type |
| Conditions.LookupsAgreeWithLastWrites | core/conditions/conditions.go:86-110 | both lookups agree with the map of last writes |
| Conditions.MergeCondition | pkg/apis/route/application/status.go:72-81 | replaces the first entry of the type, or appends |
| Conditions.MergeAllLookup | pkg/apis/route/application/status.go:57-60 | merging a list leaves the last occurrence of every type it names and what was stored for every other |
| Conditions.DisjointWritersCommute | pkg/apis/route/application/status.go:57-81 | merges with disjoint types read the same in either order and both are there |
| StatusServer.Server.UpdateWithRetry | pkg/apis/route/application/status.go:50-69 | under arbitrary concurrent writers: at most one change of this writer, which applies the mutation atomically to what was stored then; nil exactly when it is there (or its reply was lost); gives up only after five conflicts, ten calls, and retries on nothing else |
| StatusServer.Server.Attempt | pkg/apis/route/application/status.go:50-69 | one attempt: its change takes effect on the very version it fetched, or not at all |
| StatusServer.WriteRouteStatus | pkg/apis/route/application/status.go:47-70 | one atomic point where the stored conditions become the fold over them and the contract stays, or none |
| StatusServer.MergeEach | pkg/apis/route/application/status.go:57-60 | the loop of one attempt computes that fold |
| StatusServer.TypeSurvives | pkg/apis/route/application/status.go:43-70 | a condition type stays as it is through any history of changes that leave it alone |
| StatusServer.LandedWriteSurvives | pkg/apis/route/application/status.go:43-70 | every condition of a landed write is in the final state if no later change names its type |
| StatusServer.BothWritersSurvive | pkg/apis/route/application/status.go:43-70 | two landed writes with disjoint types are both in the final state, in either order |
| DeploymentDomain.DeriveDeploymentPhase | pkg/apis/deployment/strategy/kubernetes.go:152-181 | Failed if and only if some unit failed, Ready if and only if there are units and all are ready, Pending if and only if there is none |
| DeploymentDomain.PhaseIgnoresOrder | pkg/apis/deployment/strategy/kubernetes.go:152-181 | the phase is invariant under permutation of the results |
| DeploymentDomain.Failure | pkg/apis/deployment/domain/errors.go:39-64 | an error exactly for phase Failed, with the list of failed units, or the message, or neither |
| DeploymentDomain.FailedNamesAreTheFailedUnits | pkg/apis/deployment/domain/errors.go:44-54 | that list names all and only the failed units, in order |
| DeploymentDomain.ListTellsOfEveryFailedUnit | pkg/apis/deployment/domain/errors.go:44-58 | the joined text has the name and the error of every failed unit in it |
| DeploymentDomain.CarriedTextIsThere | pkg/apis/deployment/application/service.go:108-118 | the text of a joined error has in it the text of every error it carries |
| DeploymentStatus.WriteDeploymentResult | pkg/apis/deployment/application/status.go:51-105 | nothing to write means nothing happens; otherwise contract and condition land together, once, on top of what was stored: the result if there is one, and the condition that tells the run |
| DeploymentStatus.ConditionTellsTheRun | pkg/apis/deployment/application/status.go:109-149 | for every result and run error: nothing, Ready=False with the error's text, Ready=True exactly for phase Ready, or Reconciling=True, with the result's message |
| DeploymentStatus.StoredConditionsTellTheLastRuns | pkg/apis/deployment/application/status.go:109-163 | over every history of the stored object, made of landed runs and of anything others do to other condition types, Ready is the condition of the last conclusive run and Reconciling that of the last unfinished one |
| DeploymentStatus.StoredConditionsSpeakForTheirRuns | pkg/apis/deployment/application/status.go:109-163 | over the same histories Ready has the text of the last conclusive run's error, or that run's message, and Reconciling the last unfinished run's message, each with its time |
| DeploymentStatus.StoredContractIsTheLastResult | pkg/apis/deployment/application/status.go:68-92 | and where others leave the contract alone it is the result of the last run that had one |
| DeploymentService.StoredReadyMeansEveryUnitWasReady | pkg/apis/deployment/application/service.go:77-120 | over every history of the stored object whose runs are executions of the service: Ready=True is what was there before any conclusive run, or the last of these was an execution with units, in which no call failed and for every unit as many replicas were read back ready as it asks for |
| DeploymentService.ServiceRunsAreFromService | pkg/apis/deployment/application/service.go:94-106 | every execution hands over an error or a result that has not failed, with a phase folded from its units or Reconciling |
| DeploymentStatus.UnfinishedRunKeepsReady | pkg/apis/deployment/application/status.go:137-145 | the change an unfinished run makes leaves the stored Ready as it is |
| Rollout.Cluster.ApplyServiceUnit | pkg/apis/deployment/api/kubernetes.go:74-105 | applies Deployment, Service, reads back; the first failing call gives the error, and what exists is what was carried out; without one both objects are those of the unit, and it is ready exactly when the ready replicas equal the applied ones |
| Rollout.Cluster.ExecuteRolling | pkg/apis/deployment/strategy/kubernetes.go:108-138 | one result per unit in order, every unit attempted once; each is failed exactly when one of its own calls failed, with the text of the first, and ready exactly when none did and as many replicas were ready as its size; the phase folded from the results |
| Rollout.OutcomeAt | pkg/apis/deployment/strategy/kubernetes.go:115-129 | result i is that of applying unit i after all before it, whatever became of those |
| Rollout.OutcomesTell | pkg/apis/deployment/strategy/kubernetes.go:115-129 | the same for every unit, with the calls that are its own |
| Rollout.ApplyTouchesOnlyItsUnits | pkg/apis/deployment/api/kubernetes.go:107-200 | no object that is not named after a unit is touched |
| Rollout.NotFailedMeansApplied | pkg/apis/deployment/strategy/kubernetes.go:115-129 | a unit that is not Failed has both its objects at the end |
| Rollout.NotFailedMeansRunning | pkg/apis/deployment/api/kubernetes.go:107-200 | a unit that is not Failed, and whose name no later unit has, runs its own image, replicas, port and pull secret behind a Service to that port |
| Rollout.AppliedLookup | pkg/apis/deployment/api/kubernetes.go:107-200 | under every key stands a Deployment, and a Service, with the image, replicas, port and pull secret of the last unit of that name whose call was carried out, or what was there before |
| Rollout.RunsAreOneApply | pkg/apis/deployment/strategy/kubernetes.go:115-129 | runs one after the other leave the objects of one run over all their units |
| Rollout.Cluster.IsDeploymentReady | pkg/apis/deployment/api/kubernetes.go:202-225 | an error of the read, a missing Deployment included, or whether the ready replicas equal the applied ones |
| Rollout.Cluster.TeardownUnit | pkg/apis/deployment/api/kubernetes.go:243-267 | both deletes of one unit whatever the first does, and one error for each that fails |
| Rollout.Cluster.Teardown | pkg/apis/deployment/api/kubernetes.go:237-273 | both deletes are attempted for every unit, and the errors are exactly those of the failing calls |
| Rollout.TeardownErrorsTell | pkg/apis/deployment/api/kubernetes.go:243-267 | a text is among the errors exactly when it is that of a failing delete, with the kind and the name of its object |
| Rollout.TeardownRemovesExactly | pkg/apis/deployment/api/kubernetes.go:237-273 | an object goes exactly when it is named after a unit one of whose delete calls was carried out |
| Rollout.CleanTeardown | pkg/apis/deployment/api/kubernetes.go:237-273 | without an error none of the named objects is left and nothing else changed |
| Rollout.TeardownUndoesApply | pkg/apis/deployment/api/kubernetes.go:227-273 | after any partial apply, an error-free teardown leaves none of the named objects and the rest as before the apply |
| Rollout.LeftoverIff | pkg/apis/deployment/api/kubernetes.go:227-273 | over any history of runs with changing units, an error-free teardown leaves a Deployment or Service exactly when it is not named and was there before or a call of some run that applies it was carried out |
| Rollout.DroppedUnitIsLeft | pkg/apis/deployment/api/kubernetes.go:227-273 | a unit that the second run no longer has: both its objects survive an error-free teardown |
| Rollout.TeardownIdempotent | pkg/apis/deployment/api/kubernetes.go:234-236 | a second teardown changes no object |
| DeploymentIntents.BuildIntent | pkg/intent/deployment/intent_builder.go:44-73 | succeeds exactly when every unit resolves, carries each with its image, port, size and pull secret in order and the spec unchanged but for the ref, and otherwise tells the first that does not and why; panics exactly when all resolve and the Deployment has no resource |
| DeploymentIntents.ResolveUnit | pkg/intent/serviceunit/serviceunit.go:54-108 | a unit resolves exactly when it is static or a build and has an image; every field is carried over |
| DeploymentIntents.ExecutePath | pkg/apis/deployment/reconcile/reconciliation.go:67-131 | the Kubernetes path exactly without a repository, on the Kubernetes runtime and with a supported strategy; the GitOps path exactly with a repository and the Kustomize strategy |
| DeploymentIntents.BuildTeardown | pkg/intent/deployment/intent_builder.go:83-97 | needs the Deployment alone; one unit per name in the contract, in order |
| DeploymentIntents.TeardownFollowsExecute | pkg/apis/deployment/reconcile/reconciliation.go:67-186 | the teardown intent takes the path the execution took, exactly |
| FluxResources.EnsureFlux | pkg/apis/deployment/api/kustomization.go:448-555 | reads the deploy key and applies the two Flux resources; the first failing call ends it, and what exists is what was carried out; nil exactly when no call failed, and then both are there: the source with URL, commit and secret, the Kustomization with the path, that source and pruning |
| FluxResources.ReconcileKustomization | pkg/apis/deployment/api/kustomization.go:110-178 | the checks and the credentials, then the repository, then the Flux resources; nil only if both resources stand with URL, commit, secret and path, and the rendering is published in the repository the clone works on; on the branch that is the URL Flux is pointed to exactly when there was no clone, or it is one of that URL, or the rendering was there already; at a commit it takes that something was committed, which a commit behind the branch never gets pushed |
| FluxResources.TeardownKustomization | pkg/apis/deployment/api/kustomization.go:618-654 | Flux resources, credentials, clone, removal, in this order and each only after the one before, at the branch or at a commit; nil only if both resources are gone and the units are removed from the repository the clone works on, or nothing had to be committed on top of the commit asked for |
| FluxResources.TeardownRepository | pkg/apis/deployment/api/kustomization.go:632-650 | the credentials and then the removal, each error as it comes; a failing read of the credentials leaves clone and repositories alone |
| DeploymentService.Execute | pkg/apis/deployment/reconcile/reconciliation.go:67-131 | objects, repositories and result of either path under any failures; on the GitOps path a result means that both Flux resources stand and that the rendering is in the repository the clone works on, and under which condition that is the intent's |
| DeploymentService.ExecutedFollowsTheIntent | pkg/apis/deployment/reconcile/reconciliation.go:67-131 | every intent with an unsupported runtime, strategy or reconciliation is an error and changes nothing; on the Kubernetes path every unit's result tells what the cluster answered for it; the GitOps path touches no Deployment or Service |
| DeploymentService.ExecutedUnitsRun | pkg/apis/deployment/api/kubernetes.go:74-105 | on the Kubernetes path a unit that did not fail, and whose name no later unit has, runs as the intent says |
| DeploymentService.ExecuteTeardown | pkg/apis/deployment/reconcile/reconciliation.go:135-186 | objects left by either path, and the exact errors; without one neither Flux resource, or neither object of any unit, is left |
| FluxResources.TeardownFluxResources | pkg/apis/deployment/api/kustomization.go:572-597 | the Kustomization before its source, and the exact error of the first failing delete |
| DeploymentService.Attempt | pkg/apis/deployment/application/service.go:94-106 | the execution, with its error or all and only its failed units as the failure, whose text has the name and the error of each |
| DeploymentService.Reconcile | pkg/apis/deployment/application/service.go:77-120 | nil exactly when the intent was built, execution gave no error, no unit failed and the status write ended well; a failure is never swallowed, also when the write fails too; what is recorded is derived from just that run; on the GitOps path nil means that both Flux resources stand, that the repository the clone works on holds the rendering of these units, and the one the contract names exactly when there was no clone, or it is one of that URL, or the rendering was there already; panics exactly when the intent does |
| DeploymentService.Perform | pkg/apis/deployment/application/service.go:94-120 | the execution and the status write: what landed is that execution's result and failure |
| DeploymentService.Teardown | pkg/apis/deployment/application/service.go:129-146 | tears down from the Deployment alone; the error on every path: the unsupported path itself, or exactly the failing deletes; without one nothing of the intent is left |
| DeploymentService.TeardownRemovesWhatKubernetesApplied | pkg/apis/deployment/api/kubernetes.go:227-273 | with every applied unit named in the contract, an error-free teardown removes all that any partial apply created and restores nothing else |
| FluxResources.EnsuringFluxTouchesItsTwoResources | pkg/apis/deployment/api/kustomization.go:448-555 | at most the two resources named after the Deployment change |
| FluxResources.TeardownRemovesFluxResources | pkg/apis/deployment/api/kustomization.go:572-597 | without an error both Flux resources are gone, whatever failed while ensuring them |
| Overlay.RenderedLookup | pkg/apis/deployment/api/kustomization.go:205-299 | every path of the tree after a rendering: last unit file written, the new index, cleaned away, or as before |
| Overlay.RenderingIsExact | pkg/apis/deployment/api/kustomization.go:205-260 | the generated files in the overlay are exactly those of the units, and everything but the index is otherwise unchanged |
| Overlay.EveryUnitIsRendered | pkg/apis/deployment/api/kustomization.go:232-255 | with distinct names each unit's two files hold a Deployment with that unit's replicas, image and port and a Service to that port, in the namespace |
| Overlay.PathsAgreeIff | pkg/apis/deployment/render/builders/builder.go:38-114 | what is rendered has the replicas, image, port and name of what the Kubernetes path applies; the Deployments are the same exactly without a pull secret, the Services never are |
| Overlay.IndexListsExactly | pkg/apis/deployment/api/kustomization.go:266-293 | the text of an index, read back, lists the base, environment.yaml if and only if it was found, then the entries in order |
| Overlay.RenderedIndexLists | pkg/apis/deployment/api/kustomization.go:264-297 | the index a rendering stores lists the base, environment.yaml if and only if it is in the rendered overlay and the stat of it works, then the two files of every unit in unit order |
| Overlay.EveryListedFileExists | pkg/apis/deployment/api/kustomization.go:255-293 | every unit file the index lists is in the overlay |
| Overlay.EntriesDistinctIffNamesAre | pkg/apis/deployment/api/kustomization.go:255-258 | no file is listed twice exactly when the unit names are distinct |
| Overlay.RenderingAgainChangesNothing | pkg/apis/deployment/api/kustomization.go:205-299 | a second rendering of the same units leaves the tree as it is |
| Overlay.RemovalUndoesRendering | pkg/apis/deployment/api/kustomization.go:668-687 | removing the same units leaves no generated file of theirs and the index with the base, and environment.yaml if and only if it is there and the stat of it works |
| ManifestsClone.Clone.CleanOverlay | pkg/apis/deployment/api/kustomization.go:209-224 | the deleting loop removes exactly the generated files of the overlay, in whatever order it meets them; cut short, it has removed some of them and nothing else |
| ManifestsClone.Clone.WriteUnits | pkg/apis/deployment/api/kustomization.go:230-259 | writes two files per unit in order, with what EveryUnitIsRendered says of them, and collects their names; the directory, the number of writes and the error for every pattern of failures |
| ManifestsRepo.WritingEnds | pkg/apis/deployment/api/kustomization.go:230-259 | no error exactly when no write failed, and then every unit is written; however it ends, nothing outside the overlay changes |
| ManifestsClone.Clone.WriteIndex | pkg/apis/deployment/api/kustomization.go:265-293 | writes the index over the header, environment.yaml if it exists and the stat of it works, and the entries; a failing stat is no error |
| ManifestsClone.Clone.CommitIfChanged | pkg/apis/deployment/api/kustomization.go:299-347 | stages the overlay, commits and pushes exactly when it differs from HEAD; the push is refused when HEAD does not contain the tip of the branch; the repository, the number of operations and the error for every pattern of failures |
| ManifestsRepo.CommitEndings | pkg/apis/deployment/api/kustomization.go:299-347 | no error exactly when nothing failed and the push was not refused; the remote is as it was or holds what was staged, the latter exactly when the push was carried out; nothing outside the overlay changes |
| ManifestsClone.Clone.RemoveUnitFiles | pkg/apis/deployment/api/kustomization.go:666-675 | removes both files of every unit, a missing one is no error |
| ManifestsClone.Clone.CommitAndPush | pkg/apis/deployment/api/kustomization.go:189-347 | nil exactly when nothing failed and the push, if there was something to push, was not refused; then the overlay is the rendering, committed and pushed exactly when it differs from HEAD; on an error the remote is as it was, or the rendering is published all the same; nothing outside the overlay changes |
| ManifestsClone.Clone.RemoveAndPush | pkg/apis/deployment/api/kustomization.go:659-713 | an error when the overlay's directory is not there, made or checked out, and otherwise only when an operation failed or the push was refused; nil means the removal is published; on an error the remote is as it was, or the removal is published all the same; nothing outside the overlay changes |
| ManifestsClone.Clone.CommitRemoval | pkg/apis/deployment/api/kustomization.go:689-712 | a failing comparison is taken for a difference, and the commit then refused when there is none |
| ManifestsRepo.RemovalEndings | pkg/apis/deployment/api/kustomization.go:689-712 | an error only when something failed or the push was refused; the remote is as it was or holds what was staged; nothing outside the overlay changes |
| ManifestsRuns.SecondRunMakesNoCommit | pkg/apis/deployment/api/kustomization.go:305-347 | a second error-free run with the same intent leaves working tree, index, HEAD and remote and makes no commit |
| ManifestsRuns.SuccessMeansPublishedIff | pkg/apis/deployment/api/kustomization.go:305-343 | a run that reports success leaves the remote at HEAD exactly when there was something to commit or it was there before |
| ManifestsRuns.FailedPushIsNotRetried | pkg/apis/deployment/api/kustomization.go:305-343 | after a commit that was not pushed the next run on the same clone reports success and pushes nothing |
| ManifestsRepo.CleanCloneFollowsTheRemote | pkg/apis/deployment/api/kustomization.go:423-446 | checking out any commit in a clone without local changes, missing files aside, is never refused and gives what the commit has; where the commit changes a missing file it is restored |
| ManifestsRepo.NoLocalChangeIsLost | pkg/apis/deployment/api/kustomization.go:442-444 | a checkout that is not refused loses nothing that was staged or written over |
| ManifestsClone.Clone.EnsureLocalClone | pkg/apis/deployment/api/kustomization.go:423-446 | nil exactly when nothing failed, the repository has the branch or the commit asked for, and no local change is in the way; then HEAD is that commit of the clone's own origin, which is the URL only for a new clone, and local changes stay exactly where the two commits agree or the new one is staged already; a missing file is not in the way and is restored; otherwise the clone is as it was, new, or checked out all the same |
| ManifestsRuns.SyncedRunPublishes | pkg/apis/deployment/api/kustomization.go:146-163 | after the branch was checked out, whatever earlier runs left behind, success means published |
| ManifestsClone.Clone.Publish | pkg/apis/deployment/api/kustomization.go:146-163 | the repository's part of the entry point, at the branch or at a commit: nil exactly when nothing failed, the clone could be ensured and the push, if any, was not refused; then the repository it works on holds what was checked out with the overlay rendered over it, where that differs, and no other changed; otherwise it is as it was, or holds just that; a clone without changes outside the overlay stays so and can check out the same again |
| ManifestsClone.Clone.Withdraw | pkg/apis/deployment/api/kustomization.go:636-650 | the same for removal, given that the overlay is in what is checked out |
| ManifestsRuns.UrlHoldsTheRenderingIff | pkg/apis/deployment/api/kustomization.go:423-446 | an error-free run on the branch leaves its rendering at the URL it was given exactly when there was no clone, or it is one of that URL, or the rendering was there already; at a commit the first two also take that something was committed; a third repository is never touched |
| ManifestsRuns.ChangedUrlIsIgnored | pkg/apis/deployment/api/kustomization.go:423-446 | a contract whose URL changed after a first run, whatever both repositories hold: the old one gets the rendering, the new one stays as it is |
| ManifestsRuns.InTheWayIsForGood | pkg/apis/deployment/api/kustomization.go:439-444 | a local change in the way of the branch stays there through any number of runs on it, none of which changes anything, while the repository stays as it is |
| ManifestsRuns.CutShortRunCanBlockTheNext | pkg/apis/deployment/api/kustomization.go:213-249 | a run cut short after it rewrote a file that the remote has since changed leaves a clone in which the branch cannot be checked out |
| ManifestsRuns.RunsNeverBlockTheNext | pkg/apis/deployment/api/kustomization.go:146-163 | in every history of runs on the branch for one overlay, publishing or removing and cut short anywhere, and of anything others do to the repositories outside that overlay, the next run finds a clone in which the branch can be checked out |
| ManifestsRuns.RecoversIff | pkg/apis/deployment/api/kustomization.go:439-444 | with nothing staged, the checkout is refused exactly when a file that is there differs from HEAD and the commit asked for changes it |
| ManifestsRuns.DeletedFilesAreRestored | pkg/apis/deployment/api/kustomization.go:213-224 | a clone in which files are only missing can be checked out whatever the remote did, and the files it changed come back |
| ManifestsRuns.RunAtCommitPublishesIff | pkg/apis/deployment/api/kustomization.go:435-444 | an error-free run at a commit leaves its rendering on the branch exactly when something was committed or the branch held it already; nothing is committed when the tip of the branch is not in that commit |
| ManifestsRuns.StaleCommitIsNeverPushed | pkg/apis/deployment/api/kustomization.go:334-340 | a run at a commit behind the branch with something to commit ends in an error and changes no repository |
| ManifestsRuns.RejectedPushLeavesUnpushed | pkg/apis/deployment/api/kustomization.go:323-336 | a push that is refused, for whatever reason or as no fast-forward, ends in an error with the commit made and the remote as it was |
| ManifestsRuns.FirstPushCanBeLost | pkg/apis/deployment/api/kustomization.go:305-343 | the first rendering of a unit, whatever else the repository holds: after a refused push the next rendering on that clone, without a checkout, reports success over the old remote |
| ManifestsRuns.RemovedRemoteHoldsNoUnit | pkg/apis/deployment/api/kustomization.go:659-713 | after an error-free removal the overlay holds no file of these units and its index lists the base and the environment file alone, the latter if it is there and the stat of it works |
| ManifestsRuns.RemovalUndoesPublishing | pkg/apis/deployment/api/kustomization.go:659-713 | removing the units a run published, from a clone without local changes or none, leaves no generated file in the overlay |
| ManifestsRuns.PublishedRemoteHoldsTheUnits | pkg/apis/deployment/api/kustomization.go:189-347 | for distinct slashless names a published remote holds for every unit a Deployment with its replicas, image and port and a Service to that port, and no other generated file in the overlay |
| ManifestsRuns.PublishedLeavesTheRest | pkg/apis/deployment/api/kustomization.go:299-347 | outside the overlay a run, and a removal, publishes what it has checked out, unless changes were kept there |
| ManifestsRuns.PublishedIndexListsTheUnits | pkg/apis/deployment/api/kustomization.go:264-347 | and an index that lists them in order |
| PackageStatus.ApplicationStateFromApp | pkg/apis/packages/api/application.go:229-296 | the phase is that of the last decisive condition in list order, Pending without one; the message is that of the last failing one unless the deploy error stands in; deploy details copied |
| PackageStatus.FoldReports | pkg/apis/packages/api/application.go:239-263 | the loop computes the phase of the last decisive condition and the text of the last failing one |
| PackageStatus.OnlyDecisiveReportsCount | pkg/apis/packages/api/application.go:239-263 | a condition that is not decisive can stand anywhere without changing the phase |
| PackageStatus.ReadyIffSuccessComesLast | pkg/apis/packages/api/application.go:239-263 | for every list: Ready exactly when a success is listed after every other decisive condition |
| PackageStatus.MessageIff | pkg/apis/packages/api/application.go:239-293 | for every App: the message is non-empty exactly when a deploy error is shown, or the last failing condition has a text or is a ReconcileFailed beside a useful message; and it is that text, the useful message first |
| PackageStatus.SuccessAfterFailureKeepsItsText | pkg/apis/packages/api/application.go:239-293 | for every App that is Ready: it carries a failure's text exactly when a failing condition with such a text is listed before the deciding success, or a deploy error is shown |
| PackageStatus.Write | pkg/apis/packages/application/status.go:56-207 | the caller's copy changes at once; the stored status changes atomically on top of what was stored then, once or not at all, with retries on conflict only |
| PackageStatus.ConditionTellsTheOutcome | pkg/apis/packages/application/status.go:64-171 | for every result and run error: contract success, and when the condition is Running, Succeeded True or Succeeded Unknown, each if and only if; its message is the contract's |
| PackageStatus.ContractKeepsTheRest | pkg/apis/packages/application/status.go:64-118 | the contract keeps reference, commit, action, diff and times; a run error overrides phase, success and message alone |
| PackageStatus.SucceededFollowsTheLastDecisiveReport | pkg/apis/packages/api/package.go:97-132 | through the translation, Succeeded is True iff contract success iff no run error and the last decisive condition is ReconcileSucceeded=True; likewise False and Unknown |
| PackageStatus.WriteAgreesIff | pkg/apis/packages/application/status.go:120-171 | one write leaves contract success and the Succeeded condition agreeing unless it reports a running deploy over a different older outcome |
| PackageStatus.ContractAndConditionAgree | pkg/apis/packages/application/status.go:56-207 | over every history of the stored object, made of landed runs with Executed unset and of others who leave contract and Succeeded alone, the two always agree |
| PackageStatus.Execute | pkg/apis/packages/api/package.go:53-92 | a failed call gives a failed result and that error; otherwise the result tells the App that was observed, its message and deploy details included |
| PackageStatus.Reconcile | pkg/apis/packages/application/service.go:49-80 | nothing happens without a Package, an intent or a provider, each with its error; otherwise what lands is one such run with its times, says succeeded exactly when both calls worked and the observed App's last decisive condition is a success, and has the text of the first failing call or the App's message; the only other error is that of the write |
| PackageTeardown.StepKeepsInv | pkg/apis/packages/api/application.go:346-372 | every step of every party keeps: an existing App has its service account |
| PackageTeardown.AccountOutlivesApp | pkg/apis/packages/application/service.go:82-93 | in every run of callers who remove prerequisites only on nil, no reachable state has an App without its service account |
| PackageTeardown.DeletionCanFinish | pkg/apis/packages/api/application.go:349-372 | from every reachable state one more try ends with App and account gone and every other Package untouched |
| PackageTeardown.StuckStaysStuck | pkg/apis/packages/api/application.go:349-352 | with the account gone first the App stays in every continuation that does not provision it again, and nil is never returned |
| PackageTeardown.CarelessCallerGetsStuck | pkg/apis/packages/domain/errors.go:23-27 | a caller who takes the in-progress error for done gets there; the documented caller is stopped at that very step |
| PackageTeardown.Cluster.DeleteApplication | pkg/apis/packages/api/application.go:353-372 | nil only with the App gone, in progress only while it exists and is marked, any other error exactly when a call failed; the account is not touched |
| PackageTeardown.Cluster.Teardown | pkg/apis/packages/application/service.go:82-93 | the documented caller: nil leaves neither App nor account, an error keeps the account |
| PackageIdentity.AccountsDiffer | pkg/apis/packages/domain/model.go:90-92 | different Packages have different service accounts |
| PackageIdentity.NamesCollideIffOverlap | pkg/apis/packages/domain/model.go:94-99 | two Packages share a binding name exactly when one's namespace continues the other's after a dash and the names make up for it |
| PackageIdentity.OverlappingPackagesExist | pkg/apis/packages/domain/model.go:94-99 | and there are such Packages |
| PackageBinding.BlanketOpsLabels | pkg/intent/package/builder.go:96-108 | the loop keeps exactly the labels with the prefix |
| PackageBinding.Cluster.Reconcile | pkg/serviceaccounts/packagebinding.go:68-158 | does what the function of state, failures and Package says; no Package is a no-op, no role an error; nil means the named binding is to the configured cluster role and grants the Package just that |
| PackageBinding.Cluster.Delete | pkg/serviceaccounts/packagebinding.go:162-191 | removes the named binding; a missing one is no error, any other failing call is |
| PackageBinding.ReconcileConverges | pkg/serviceaccounts/packagebinding.go:68-158 | from any state: an error exactly when a call failed; otherwise a binding to the cluster role asked for, with the Package's own service account as its one subject and the filtered labels, the rest of an updated binding kept, other bindings untouched |
| PackageBinding.GrantIsForOneRoleAndPackage | pkg/serviceaccounts/packagebinding.go:87-100 | a binding that grants one role to one Package grants no other role and no other Package |
| PackageBinding.GrantsIffAsDesired | pkg/serviceaccounts/packagebinding.go:83-100 | the binding the code builds and compares with is the one that grants exactly this |
| PackageBinding.CutShortLeavesNoHalfBinding | pkg/serviceaccounts/packagebinding.go:128-157 | a run with an error leaves the binding as it was, as it should be, or away when it named another role |
| PackageBinding.NextRunWritesNothing | pkg/serviceaccounts/packagebinding.go:144-147 | after an error-free run the next makes one read and no write |
| PackageBinding.WritesIffNotConverged | pkg/serviceaccounts/packagebinding.go:105-157 | a write is tried exactly when the read worked and the binding is not what is due |
| PackageBinding.DeleteRemovesOnlyTheBinding | pkg/serviceaccounts/packagebinding.go:160-191 | a deletion whose call works removes that binding only, and can be repeated |
| PackageBinding.OthersLeaveTheBindingAlone | pkg/serviceaccounts/packagebinding.go:61-67 | no history of runs and deletions for non-overlapping Packages changes a Package's binding |
| PackageBinding.GrantStands | pkg/serviceaccounts/packagebinding.go:61-67 | once granted, the binding stays as it is through any later runs for that Package, failing or not, and for non-overlapping ones |
| PackageBinding.OverlappingPackageTakesTheBinding | pkg/serviceaccounts/packagebinding.go:149-157 | an overlapping Package's run takes the grant away |
| GitRepository.ResolveGitRepository | resolution/gitrepository/resolve/resolve.go:82-170 | accepted exactly when the required fields are non-empty strings, the repository an object and every declared webhook an object; which error otherwise |
| GitRepository.MustString | resolution/gitrepository/resolve/resolve.go:178-188 | succeeds exactly on a non-empty string, and returns it |
| GitRepository.ResolveWebhooks | resolution/gitrepository/resolve/resolve.go:135-159 | the nested loops keep the non-empty event lists in order, or name the first entry that is no object |
| GitRepository.CollectEvents | resolution/gitrepository/resolve/resolve.go:148-153 | the inner loop keeps the non-empty strings in order |
| GitRepository.DeclaredEventsAreTheStrings | resolution/gitrepository/resolve/resolve.go:143-153 | the declared events are those of the declared webhooks, no more and no fewer |
| GitRepository.DeclaredEventsInOrder | resolution/gitrepository/resolve/resolve.go:143-157 | and in the order of the webhooks |
| GitRepository.NonEmptyTextsInOrder | resolution/gitrepository/resolve/resolve.go:148-153 | the strings of one webhook keep their order and number |
| GitRepository.NonEmptyTextsAreTheStrings | resolution/gitrepository/resolve/resolve.go:148-153 | the events of one webhook are its non-empty strings, no more and no fewer |
| GitRepository.MapResolvedToDomain | pkg/apis/gitrepository/application/mapper.go:42-99 | panics exactly on an empty mandatory field, otherwise carries everything over verbatim |
| GitRepository.Validate | pkg/apis/gitrepository/domain/model.go:65-82 | the three invalid cases and their order |
| GitRepository.BuildRepositoryWebhook | pkg/apis/gitrepository/api/github.go:93-136 | the webhook carries the events of all subscriptions in order |
| GitRepository.SubscriptionsCarryEveryEvent | resolution/gitrepository/resolve/resolve.go:155-157 | skipping webhooks without events loses no event and leaves nothing exactly when there is none |
| GitRepository.Platform.Ensure | pkg/apis/gitrepository/api/github.go:142-175 | objects and error of ensuring, under any failures; nil means the repository is there, private and named as asked, and the webhook, if declared, active for its events with its secret in the resource's namespace |
| GitRepository.Platform.Teardown | pkg/apis/gitrepository/api/github.go:211-255 | objects and error of tearing down, under any failures; nil means neither object the domain declares is there |
| GitRepository.Platform.Reconcile | pkg/apis/gitrepository/application/service.go:42-63 | for every accepted contract no panic and no validation error; the repository has the contract's provider and name and is private; the webhook is active, carries exactly the declared events in order and is applied if and only if there is one; the Ready condition is True exactly when nothing failed, carries the error otherwise, and no other condition changes |
| GitRepository.StatusSetLookup | pkg/apis/gitrepository/application/status.go:42-85 | setting the condition replaces the one of its type, keeping its time when the status stays, and leaves every other type |
| GitRepository.TeardownUndoesEnsure | pkg/apis/gitrepository/api/github.go:203-255 | unless an earlier contract left a webhook that this one does not declare, an error-free teardown with the domain last ensured leaves neither object, whatever failed while ensuring |
| GitRepository.TeardownLeavesTheWebhookIff | pkg/apis/gitrepository/api/github.go:224-237 | an error-free teardown leaves an existing webhook exactly when the contract declares none |
| GitRepository.WebhookExistsIff | pkg/apis/gitrepository/api/github.go:142-255 | after any history of ensuring and tearing down resources of any names and namespaces, with any failures, the webhook exists exactly when the last carried-out operation on it applied it, or none did and it was there before |
| GitRepository.WebhookOutlivesTheResourceIff | pkg/apis/gitrepository/api/github.go:203-255 | so after any such history and an error-free teardown it is left exactly when it existed and the last contract declares none |
| GitRepository.WithdrawnWebhookIsLeft | pkg/apis/gitrepository/api/github.go:162-167 | a contract that declared a push webhook and then none |
| GitRepository.OthersLeaveTheObjectsAlone | pkg/apis/gitrepository/api/github.go:74-76 | no history of resources of other names changes a resource's repository or webhook |
| GitRepository.TeardownTakesASharedRepositoryIff | pkg/apis/gitrepository/api/github.go:211-255 | an error-free teardown leaves another resource's repository, and its webhook, exactly when their names differ |

## Left out

- Real Kubernetes, Redis, Memcached, git, ssh, Flux, Crossplane and kapp: only the maps and calls described above.
- Logging, events and the values of timestamps; times are opaque numbers, expiry of a cache entry is a step of the environment.
- JSON text: contracts start from a JSON value, cache values from what marshalling made of them.
- A Go panic inside Handle or a breaker, and a Handle that never returns: shutdown takes every Handle to return.
- Sharing of a slice's backing array between the caller's condition list and the stored copy.
- Integer widths: generations, ports, replicas and exit codes are unbounded.
- DeploymentIntents.BuildIntent: unit names are printed in quotes as they are; names that would need escaping there are not valid resource names.
- FluxResources.EnsureFlux: owner references and intervals of the two resources, and the longer text about a missing deploy key.
- Rollout.Cluster.ApplyServiceUnit: API versions and kinds, the Service type (the default in both paths), and the Routes and Workload of a unit, which nothing modelled here reads.
- DeploymentService.Teardown: on the GitOps path the files in the manifests repository stay, as in the code; removing them is proved in ManifestsClone and composed in FluxResources.TeardownKustomization.
- Deletion of Deployments and Services is immediate in Rollout; finalizers appear only in PackageTeardown.
- ManifestsClone.Clone.CommitAndPush: directories inside an overlay, ignored files, a repository without a commit, an empty environment name given to the removal, and files that are written half.
- ManifestsClone.Clone.EnsureLocalClone: a failing stat of the clone's directory, which is an error like a failing fetch with another text; which commits contain the tip of a branch is an answer of the repository and not derived from a history of commits.
- Concurrent changes by others during one run of the binding reconciler; a call refused for such a reason is one of the failures.
- PackageBinding.Cluster.Reconcile: an absent and an empty label map are the same value.
- PackageStatus.ApplicationStateFromApp: an App status that is none of True, False and Unknown is one value.
- Per-kind caches, resolution and proto adapters, backend selectors, ExternalSecret reconcilers and provider stubs: field copies and single switches.
- The caller that sequences Package teardown is modelled only by the obligation at pkg/apis/packages/application/service.go:82-93.
