/** DeploymentService: build the intent, execute it, turn a failed result back into
    an error, and record the outcome; and the teardown that mirrors it. */
module DeploymentService {
  import opened Prelude
  import opened Conditions
  import opened DeploymentDomain
  import opened DeploymentStatus
  import opened DeploymentIntents
  import opened FluxResources
  import opened ManifestsClone
  import Overlay
  import opened ManifestsRepo
  import opened ManifestsRuns
  import opened Rollout
  import opened StatusServer

  function RuntimeName(r: Runtime): string {
    match r
    case RuntimeKubernetes => "kubernetes.io/container-runtime"
    case RuntimeKnative => "knative.dev/service-runtime"
    case RuntimeECS => "blanketops.dev/aws-ecs"
    case RuntimeOther(name) => name
  }

  function StrategyName(s: Strategy): string {
    match s
    case Rolling => "Rolling"
    case BlueGreen => "BlueGreen"
    case StrategyOther(name) => name
  }

  function Executed(o: Objects, f: Faults, ready: ReadyReplicas, r: Resource, i: Intent, git: Option<string>)
    : (Objects, Result<DeploymentResult, Error>)
  {
    match ExecutePath(i)
    case Err(text) => (o, Err(Plain(text)))
    case Ok(ViaKubernetes) =>
      var units := Outcomes(o, f, ready, i.namespace, RuntimeName(i.runtime), i.units);
      (UnitsApplied(o, f, i.namespace, i.units),
       Ok(DeploymentResult(PhaseOf(units), "", RuntimeName(i.runtime), StrategyName(i.strategy), units)))
    case Ok(ViaFlux) =>
      match FluxReconciled(o, f, r, i.repo.value, git)
      case (o', Some(text)) => (o', Err(Plain(text)))
      case (o', None) => (o', Ok(DeploymentResult(PhaseReconciling, "", RuntimeName(i.runtime), StrategyName(i.strategy), [])))
  }

  function IntentSetting(i: Intent, world: World): Setting {
    match i.repo case Some(repo) => SettingOf(repo, world) case None => Setting("", "", world)
  }

  /** The rendering of the intent's units is in the repository the clone works on; in
      the one the intent names under the condition Reaches gives. */
  predicate ReachesRepository(d: Disk, hosts: map<string, Overlay.Tree>, r: Resource, i: Intent, world: World) {
    var s := IntentSetting(i, world);
    Reaches(d, hosts, s, PublishedTree(d, s, EnvOf(r), i.namespace, i.units))
  }

  /** The execution gets as far as the repository. */
  predicate Publishes(o: Objects, f: Faults, r: Resource, i: Intent) {
    ExecutePath(i) == Ok(ViaFlux) && ReachesGit(o, f, r, i.repo.value)
  }

  /** What an execution comes to, told by the intent: only a supported strategy on the
      Kubernetes runtime, or a repository with the Kustomize strategy, gets a result; every
      other intent is an error and leaves the cluster alone. On the Kubernetes path every
      unit's result tells what the cluster answered for it; on the GitOps path no
      Deployment or Service is touched. */
  lemma ExecutedFollowsTheIntent(o: Objects, f: Faults, ready: ReadyReplicas, r: Resource, i: Intent, git: Option<string>)
    ensures var (o', result) := Executed(o, f, ready, r, i, git);
            var applies := i.repo.None? && i.runtime.RuntimeKubernetes? && (i.strategy.Rolling? || i.strategy.BlueGreen?);
            && (applies ==>
                && result.Ok? && |result.value.units| == |i.units|
                && result.value.runtime == "kubernetes.io/container-runtime" && result.value.message == ""
                && result.value.strategy == (if i.strategy.Rolling? then "Rolling" else "BlueGreen")
                && forall k :: 0 <= k < |i.units| ==>
                     Tells(result.value.units[k], f, ready, FirstCall(f, o.calls, k), "kubernetes.io/container-runtime", i.units[k]))
            && (!applies && !(i.repo.Some? && i.reconciliation.Kustomize?) ==> result.Err? && o' == o)
            && (i.repo.Some? ==> o'.deployments == o.deployments && o'.services == o.services)
            && (i.repo.Some? && result.Ok? ==> result.value.phase.PhaseReconciling? && result.value.units == [])
  {
    if i.repo.None? && i.runtime.RuntimeKubernetes? && Supports(i.strategy) {
      forall k | 0 <= k < |i.units|
        ensures Tells(Outcomes(o, f, ready, i.namespace, RuntimeName(i.runtime), i.units)[k], f, ready,
                      FirstCall(f, o.calls, k), RuntimeName(i.runtime), i.units[k])
      {
        OutcomesTell(o, f, ready, i.namespace, RuntimeName(i.runtime), i.units, k);
      }
    } else if ExecutePath(i) == Ok(ViaFlux) {
      EnsuringFluxTouchesItsTwoResources(o, f, r, i.repo.value, git);
    }
  }

  /** A unit that did not fail, and whose name no later unit has, runs as the intent says. */
  lemma ExecutedUnitsRun(o: Objects, f: Faults, ready: ReadyReplicas, r: Resource, i: Intent, git: Option<string>, k: nat)
    requires i.repo.None? && i.runtime.RuntimeKubernetes? && (i.strategy.Rolling? || i.strategy.BlueGreen?)
    requires k < |i.units| && forall l :: k < l < |i.units| ==> i.units[l].name != i.units[k].name
    requires Executed(o, f, ready, r, i, git).1.Ok? && |Executed(o, f, ready, r, i, git).1.value.units| == |i.units|
    requires !Executed(o, f, ready, r, i, git).1.value.units[k].phase.UnitFailed?
    ensures var o', key := Executed(o, f, ready, r, i, git).0, Key(i.namespace, i.units[k].name);
            && key in o'.deployments && RunsUnit(o'.deployments[key], i.units[k])
            && key in o'.services && ServesUnit(o'.services[key], i.units[k])
  {
    NotFailedMeansRunning(o, f, ready, i.namespace, RuntimeName(i.runtime), i.units, k);
  }

  /** git: how the repository's turn ended, if it came to that. */
  method Execute(cluster: Cluster, clone: Clone, r: Resource, i: Intent, world: World)
    returns (result: Result<DeploymentResult, Error>, ghost git: Option<string>)
    modifies cluster, clone
    ensures (cluster.Contents(), result) == Executed(old(cluster.Contents()), cluster.fault, cluster.ready, r, i, git)
    ensures GitPart(Publishes(old(cluster.Contents()), cluster.fault, r, i), clone.fault, old(clone.State()), clone.State(),
                    IntentSetting(i, world), EnvOf(r), i.namespace, i.units, git)
    ensures result.Ok? && ExecutePath(i) == Ok(ViaFlux) ==> git.None? && Publishes(old(cluster.Contents()), cluster.fault, r, i)
    ensures result.Ok? && ExecutePath(i) == Ok(ViaFlux) ==> ReachesRepository(old(clone.State()), clone.hosts, r, i, world)
    ensures result.Ok? && i.repo.Some? ==> FluxStands(cluster.Contents(), r, i.repo.value)
  {
    git := None;
    if i.repo.None? {
      match i.runtime {
        case RuntimeKubernetes =>
          if !Supports(i.strategy) {
            return Err(Plain("strategy not supported for runtime")), git;
          }
          var rolled := cluster.ExecuteRolling(i.namespace, RuntimeName(i.runtime), StrategyName(i.strategy), i.units);
          return Ok(rolled), git;
        case RuntimeKnative => return Err(Plain("knative runtime not implemented")), git;
        case RuntimeECS => return Err(Plain("ecs runtime not implemented")), git;
        case RuntimeOther(name) => return Err(Plain("unsupported runtime: " + name)), git;
      }
    }
    match i.reconciliation {
      case Kustomize =>
        var err;
        err, git := ReconcileKustomization(cluster, clone, r, i, i.repo.value, world);
        if err.Some? {
          return Err(Plain(err.value)), git;
        }
        return Ok(DeploymentResult(PhaseReconciling, "", RuntimeName(i.runtime), StrategyName(i.strategy), [])), git;
      case Helm => return Err(Plain("helm reconciliation not implemented")), git;
      case ReconciliationOther(name) => return Err(Plain("unsupported reconciliation strategy: " + name)), git;
    }
  }

  function TornDown(o: Objects, f: Faults, r: Resource, i: Intent): Objects {
    match TeardownPath(i)
    case Err(_) => o
    case Ok(ViaKubernetes) => UnitsGone(o, f, i.namespace, i.units)
    case Ok(ViaFlux) => FluxGone(o, f, r)
  }

  /** What a teardown without an error leaves: on the GitOps path neither Flux resource,
      otherwise neither object of any unit. A runtime or strategy that is not supported
      is an error. */
  ghost predicate NothingLeft(o: Objects, r: Resource, i: Intent) {
    if i.repo.Some? then
      i.reconciliation.Kustomize?
      && Key(r.namespace, r.name + "-kustomize") !in o.kustomizations && Key(r.namespace, r.name + "-source") !in o.sources
    else
      i.runtime.RuntimeKubernetes?
      && forall k :: 0 <= k < |i.units| ==>
           Key(i.namespace, i.units[k].name) !in o.deployments && Key(i.namespace, i.units[k].name) !in o.services
  }

  lemma CleanUnitsGone(o: Objects, f: Faults, namespace: string, units: seq<Unit>)
    requires TeardownErrors(f, o.calls, units) == []
    ensures var o' := UnitsGone(o, f, namespace, units);
            forall k :: 0 <= k < |units| ==>
              Key(namespace, units[k].name) !in o'.deployments && Key(namespace, units[k].name) !in o'.services
  {
    var o' := UnitsGone(o, f, namespace, units);
    forall k | 0 <= k < |units|
      ensures Key(namespace, units[k].name) !in o'.deployments && Key(namespace, units[k].name) !in o'.services
    {
      CleanTeardown(o, f, namespace, units, Key(namespace, units[k].name));
    }
  }

  method ExecuteTeardown(cluster: Cluster, r: Resource, i: Intent) returns (errs: seq<string>)
    modifies cluster
    ensures cluster.Contents() == TornDown(old(cluster.Contents()), cluster.fault, r, i)
    ensures match TeardownPath(i)
            case Err(text) => errs == [text]
            case Ok(ViaKubernetes) => errs == TeardownErrors(cluster.fault, old(cluster.calls), i.units)
            case Ok(ViaFlux) => errs == FluxErrors(cluster.fault, old(cluster.calls))
    ensures errs == [] ==> NothingLeft(cluster.Contents(), r, i)
  {
    if i.repo.None? {
      match i.runtime {
        case RuntimeKubernetes =>
          ghost var o := cluster.Contents();
          errs := cluster.Teardown(i.namespace, i.units);
          if errs == [] {
            CleanUnitsGone(o, cluster.fault, i.namespace, i.units);
          }
        case RuntimeKnative => errs := ["knative runtime not implemented"];
        case RuntimeECS => errs := ["ecs runtime not implemented"];
        case RuntimeOther(name) => errs := ["unsupported runtime: " + name];
      }
      return;
    }
    match i.reconciliation {
      case Kustomize =>
        errs := TeardownFluxResources(cluster, r);
      case Helm => return ["helm reconciliation not implemented"];
      case ReconciliationOther(name) => return ["unsupported reconciliation strategy: " + name];
    }
  }

  /** The Kubernetes path, with any failures while applying: when every applied
      unit is named in the contract, an error-free teardown leaves no Deployment or
      Service of these names, and every other object as it was before the apply. */
  lemma TeardownRemovesWhatKubernetesApplied(
      o: Objects, f: Faults, g: Faults, namespace: string, names: seq<string>, units: seq<Unit>, key: Key)
    requires forall i :: 0 <= i < |units| ==> units[i].name in names
    requires TeardownErrors(g, UnitsApplied(o, f, namespace, units).calls, NamesOnly(names)) == []
    ensures var o' := UnitsGone(UnitsApplied(o, f, namespace, units), g, namespace, NamesOnly(names));
            if key.namespace == namespace && key.name in names
            then key !in o'.deployments && key !in o'.services
            else SameAt(o, o', key)
  {
    var named := NamesOnly(names);
    assert Named(named, namespace, key) <==> key.namespace == namespace && key.name in names by {
      if key.name in names {
        var j :| 0 <= j < |names| && names[j] == key.name;
        assert named[j].name == key.name;
      }
    }
    TeardownUndoesApply(o, f, g, namespace, units, named, key);
  }

  function ApiErrorText(e: ApiError): string {
    match e
    case Conflict => "conflict"
    case NotFound => "not found"
    case Refused(reason) => reason
    case ReplyLost => "reply lost"
  }

  /** What a finished execution amounts to: its error, or all and only the failed
      units in order, or nothing. */
  function FailureOf(result: Result<DeploymentResult, Error>): Option<Error> {
    match result
    case Err(e) => Some(e)
    case Ok(r) =>
      if AnyFailed(r.units) then Some(DeploymentFailed("deployment failed: " + Join(FailedNames(r.units), "; "))) else None
  }

  /** What came of a run: the execution, the failure it amounts to, how the repository's
      turn and how the status write ended. */
  datatype RunReport = RunReport(
    result: Result<DeploymentResult, Error>, failure: Option<Error>, git: Option<string>, written: Option<ApiError>)

  /** What a run did: it executed the intent, the repository's turn ended as git says, and
      its failure is just what the result amounts to. On the GitOps path a result means
      that Flux points at the repository and that the rendering is there, as Reaches says. */
  ghost predicate Performed(
      o: Objects, o': Objects, f: Faults, ready: ReadyReplicas, d: Disk, d': Disk, cf: Faults,
      r: Resource, i: Intent, world: World, result: Result<DeploymentResult, Error>, failure: Option<Error>, git: Option<string>)
  {
    && (o', result) == Executed(o, f, ready, r, i, git)
    && GitPart(Publishes(o, f, r, i), cf, d, d', IntentSetting(i, world), EnvOf(r), i.namespace, i.units, git)
    && failure == FailureOf(result)
    && (failure.None? <==> result.Ok? && !AnyFailed(result.value.units))
    && (result.Ok? && i.repo.Some? ==> FluxStands(o', r, i.repo.value) && ReachesRepository(d, d'.hosts, r, i, world))
  }

  /** Execute, and turn a failed result back into an error. */
  method Attempt(cluster: Cluster, clone: Clone, r: Resource, i: Intent, world: World)
    returns (result: Result<DeploymentResult, Error>, execErr: Option<Error>, ghost git: Option<string>)
    modifies cluster, clone
    ensures Performed(old(cluster.Contents()), cluster.Contents(), cluster.fault, cluster.ready, old(clone.State()), clone.State(), clone.fault,
                      r, i, world, result, execErr, git)
    ensures execErr.Some? && result.Ok? ==>
              forall k :: 0 <= k < |result.value.units| && result.value.units[k].phase.UnitFailed? ==>
                Contains(Text(execErr.value), result.value.units[k].name) && Contains(Text(execErr.value), result.value.units[k].error)
    ensures result.Err? ==> execErr == Some(result.error)
    ensures result.Ok? && i.repo.Some? ==> git.None? && Publishes(old(cluster.Contents()), cluster.fault, r, i)
  {
    result, git := Execute(cluster, clone, r, i, world);
    if result.Err? {
      return result, Some(result.error), git;
    }
    execErr := Failure(Some(result.value));
  }

  /** The status write, and what the service makes of its error and the run's. */
  method Record(
      server: Server<DeploymentResult>, me: nat, result: Result<DeploymentResult, Error>, execErr: Option<Error>, now: int)
    returns (err: Option<Error>, ghost written: Option<ApiError>, ghost landed: Option<nat>)
    requires server.Valid()
    modifies server
    ensures server.Valid()
    ensures landed.Some? ==>
              && |old(server.history)| <= landed.value < |server.history|
              && server.history[landed.value].writer == me
              && Explains(Step.Run(Recorded(result), execErr, now), server.history[landed.value])
              && server.history[landed.value].before.Some? && server.history[landed.value].after.Some?
              && server.history[landed.value].after.value.contract
                 == (if result.Ok? then Some(result.value) else server.history[landed.value].before.value.contract)
    ensures written.None? && (result.Ok? || execErr.Some?) ==> landed.Some?
    ensures result.Ok? || execErr.Some? ==> Answered(old(server.answers), server.answers, written)
    ensures err.None? <==> execErr.None? && written.None?
    ensures execErr.Some? ==> err.Some? && Carries(err.value, execErr.value)
    ensures execErr.None? && written.Some? ==> err == Some(Plain(ApiErrorText(written.value)))
  {
    var writeErr: Option<ApiError>;
    writeErr, landed := WriteDeploymentResult(server, me, Recorded(result), execErr, now);
    written := writeErr;
    if writeErr.Some? {
      if execErr.Some? {
        return Some(Joined(execErr.value, Plain("write deployment status: " + ApiErrorText(writeErr.value)))), written, landed;
      }
      return Some(Plain(ApiErrorText(writeErr.value))), written, landed;
    }
    return execErr, written, landed;
  }

  /** The execution and the status write. */
  method Perform(
      cluster: Cluster, clone: Clone, server: Server<DeploymentResult>, me: nat, r: Resource, i: Intent, world: World, now: int)
    returns (err: Option<Error>, ghost run: RunReport, ghost landed: Option<nat>)
    requires server.Valid()
    modifies cluster, clone, server
    ensures server.Valid()
    ensures Performed(old(cluster.Contents()), cluster.Contents(), cluster.fault, cluster.ready, old(clone.State()), clone.State(), clone.fault,
                      r, i, world, run.result, run.failure, run.git)
    ensures landed.Some? ==>
              && |old(server.history)| <= landed.value < |server.history|
              && var c, step := server.history[landed.value], Step.Run(Recorded(run.result), run.failure, now);
                 && c.writer == me && Explains(step, c)
                 && OfExecution(step, Execution(old(cluster.Contents()), cluster.fault, cluster.ready, r, i, run.git))
    ensures run.written.None? ==> landed.Some?
    ensures Answered(old(server.answers), server.answers, run.written)
    ensures err.None? <==> run.failure.None? && run.written.None?
    ensures run.failure.Some? ==> err.Some? && Carries(err.value, run.failure.value)
    ensures run.failure.None? && run.written.Some? ==> err == Some(Plain(ApiErrorText(run.written.value)))
  {
    var result, execErr;
    ghost var git, written;
    result, execErr, git := Attempt(cluster, clone, r, i, world);
    err, written, landed := Record(server, me, result, execErr, now);
    run := RunReport(result, execErr, git, written);
  }

  method Reconcile(
      cluster: Cluster, clone: Clone, server: Server<DeploymentResult>, me: nat,
      d: Option<Resolved>, units: seq<ResolvedUnit>, world: World, now: int)
    returns (err: Option<Error>, panicked: bool, ghost run: Option<RunReport>, ghost landed: Option<nat>)
    requires server.Valid()
    modifies cluster, clone, server
    ensures server.Valid()
    // The intent was not built: nothing happened. Building it panics exactly on a
    // resolved Deployment without its resource all of whose units resolve.
    ensures var resolve := d.Some? && d.value.spec.Some? && forall i :: 0 <= i < |units| ==> ResolveUnit(units[i]).Ok?;
            && (run.Some? <==> resolve && d.value.deployment.Some?)
            && (panicked <==> resolve && d.value.deployment.None?)
    ensures run.None? ==> (err.Some? <==> !panicked) && cluster.Contents() == old(cluster.Contents())
                          && server.history == old(server.history) && clone.State() == old(clone.State())
    // Otherwise it was executed.
    ensures run.Some? ==>
              Performed(old(cluster.Contents()), cluster.Contents(), cluster.fault, cluster.ready, old(clone.State()), clone.State(), clone.fault,
                        d.value.deployment.value, NewIntent(d.value.deployment.value, d.value.spec.value, ResolvedUnits(units)),
                        world, run.value.result, run.value.failure, run.value.git)
    // What was recorded, if the write landed, is derived from just that.
    ensures landed.Some? ==>
              && run.Some? && |old(server.history)| <= landed.value < |server.history|
              && var c, step := server.history[landed.value], Step.Run(Recorded(run.value.result), run.value.failure, now);
                 && c.writer == me && Explains(step, c)
                 && OfExecution(step, Execution(old(cluster.Contents()), cluster.fault, cluster.ready, d.value.deployment.value,
                                                NewIntent(d.value.deployment.value, d.value.spec.value, ResolvedUnits(units)), run.value.git))
    ensures run.Some? && run.value.written.None? ==> landed.Some?
    ensures run.Some? ==> Answered(old(server.answers), server.answers, run.value.written)
    // nil means all of it went well, and a failure is never swallowed.
    ensures err.None? && !panicked <==> run.Some? && run.value.failure.None? && run.value.written.None?
    ensures run.Some? && run.value.failure.Some? ==> err.Some? && Carries(err.value, run.value.failure.value)
    ensures run.Some? && run.value.failure.None? && run.value.written.Some? ==> err == Some(Plain(ApiErrorText(run.value.written.value)))
    // On the GitOps path, where the intent never names a commit, it means that Flux
    // points at the repository, and that the one the clone works on holds the rendering
    // of these units; the one the contract names does if and only if there was no clone,
    // or the clone is one of that URL, or it held it already.
    ensures err.None? && !panicked ==>
              var i := NewIntent(d.value.deployment.value, d.value.spec.value, ResolvedUnits(units));
              i.repo.Some? ==>
                && FluxStands(cluster.Contents(), d.value.deployment.value, i.repo.value) && IntentSetting(i, world).ref == ""
                && ReachesRepository(old(clone.State()), clone.hosts, d.value.deployment.value, i, world)
  {
    panicked, run, landed := false, None, None;
    var built := BuildIntent(d, units);
    if built.None? {
      return None, true, None, None;
    }
    if built.value.Err? {
      return Some(Plain(built.value.error)), false, None, None;
    }
    var intent := built.value.value;
    assert intent.units == ResolvedUnits(units);
    ghost var report;
    err, report, landed := Perform(cluster, clone, server, me, d.value.deployment.value, intent, world, now);
    run := Some(report);
  }

  function Recorded(r: Result<DeploymentResult, Error>): Option<DeploymentResult> {
    match r case Err(_) => None case Ok(result) => Some(result)
  }

  /** What went into an execution: the cluster, which calls failed, what it reported ready,
      and the intent. */
  datatype Execution = Execution(o: Objects, f: Faults, ready: ReadyReplicas, r: Resource, i: Intent, git: Option<string>)

  /** A run of the service, with just the result of that execution and its failure. */
  ghost predicate OfExecution(step: Step, x: Execution) {
    var result := Executed(x.o, x.f, x.ready, x.r, x.i, x.git).1;
    step.Run? && step.result == Recorded(result) && step.err == FailureOf(result)
  }

  ghost predicate OfService(step: Step) {
    step.Run? ==> exists x: Execution :: OfExecution(step, x)
  }

  lemma ServiceRunsAreFromService(step: Step)
    requires OfService(step)
    ensures FromService(step)
  {
    if step.Run? {
      var x: Execution :| OfExecution(step, x);
      ExecutionsAreFromService(step, x);
    }
  }

  lemma ExecutionsAreFromService(step: Step, x: Execution)
    requires OfExecution(step, x)
    ensures FromService(step)
  {
  }

  /** The execution succeeded with a result for every unit of its intent, in order, and for
      each of them no call failed and the Deployment was read back with as many ready
      replicas as the unit asks for. */
  ghost predicate EveryUnitWasReady(step: Step, x: Execution) {
    && step.Run? && step.err.None? && step.result.Some?
    && var units := step.result.value.units;
       && units != [] && |units| == |x.i.units|
       && forall k :: 0 <= k < |units| ==>
            var n := FirstCall(x.f, x.o.calls, k);
            units[k].name == x.i.units[k].name && NoFaults(x.f, n, n + 3) && x.ready(n + 2) == x.i.units[k].size
  }

  lemma ReadyMeansApplied(o: Objects, f: Faults, ready: ReadyReplicas, r: Resource, i: Intent, git: Option<string>)
    requires Executed(o, f, ready, r, i, git).1.Ok? && Executed(o, f, ready, r, i, git).1.value.phase.PhaseReady?
    ensures i.repo.None? && i.runtime.RuntimeKubernetes? && (i.strategy.Rolling? || i.strategy.BlueGreen?)
    ensures var units := Executed(o, f, ready, r, i, git).1.value.units; units != [] && AllReady(units)
  {
  }

  lemma AllToldReady(results: seq<UnitResult>, f: Faults, ready: ReadyReplicas, n: nat, runtime: string, units: seq<Unit>)
    requires |results| == |units| && AllReady(results)
    requires forall k :: 0 <= k < |units| ==> Tells(results[k], f, ready, FirstCall(f, n, k), runtime, units[k])
    ensures forall k :: 0 <= k < |results| ==>
              var m := FirstCall(f, n, k);
              results[k].name == units[k].name && NoFaults(f, m, m + 3) && ready(m + 2) == units[k].size
  {
    forall k | 0 <= k < |results|
      ensures var m := FirstCall(f, n, k);
              results[k].name == units[k].name && NoFaults(f, m, m + 3) && ready(m + 2) == units[k].size
    {
      assert results[k].phase.UnitReady?;
      assert Tells(results[k], f, ready, FirstCall(f, n, k), runtime, units[k]);
    }
  }

  lemma ReadyExecution(step: Step, x: Execution)
    requires OfExecution(step, x) && step.err.None? && step.result.Some? && step.result.value.phase.PhaseReady?
    ensures EveryUnitWasReady(step, x)
  {
    ReadyMeansApplied(x.o, x.f, x.ready, x.r, x.i, x.git);
    ExecutedFollowsTheIntent(x.o, x.f, x.ready, x.r, x.i, x.git);
    AllToldReady(step.result.value.units, x.f, x.ready, x.o.calls, "kubernetes.io/container-runtime", x.i.units);
  }

  ghost predicate LastConclusive(steps: seq<Step>, j: nat) {
    j < |steps| && Conclusive(steps[j]) && forall k :: j < k < |steps| ==> !Conclusive(steps[k])
  }

  lemma {:induction false} LastConclusiveIsLast(steps: seq<Step>)
    ensures match LastWhere(steps, Conclusive)
            case None => forall k :: 0 <= k < |steps| ==> !Conclusive(steps[k])
            case Some(step) => exists j: nat :: LastConclusive(steps, j) && steps[j] == step
  {
    if steps != [] {
      var last := |steps| - 1;
      if Conclusive(steps[last]) {
        assert LastConclusive(steps, last);
      } else {
        LastConclusiveIsLast(steps[..last]);
        if LastWhere(steps[..last], Conclusive).Some? {
          var j: nat :| LastConclusive(steps[..last], j) && steps[..last][j] == LastWhere(steps[..last], Conclusive).value;
          assert LastConclusive(steps, j);
        } else {
          forall k | 0 <= k < |steps| ensures !Conclusive(steps[k]) {
            if k < last {
              assert steps[..last][k] == steps[k];
            }
          }
        }
      }
    }
  }

  /** Over every history of executions of the service and of anything others do to other
      condition types: when the stored Ready is True, it is what was there before any
      conclusive run, or the last of these was an execution in which the cluster reported
      every unit's replicas ready. */
  lemma StoredReadyMeansEveryUnitWasReady(
      steps: seq<Step>, xs: seq<Execution>,
      origin: Option<Stored<DeploymentResult>>, history: seq<Commit<DeploymentResult>>, current: Option<Stored<DeploymentResult>>)
    requires Explained(steps, origin, history, current)
    requires |xs| == |steps| && forall i :: 0 <= i < |steps| && steps[i].Run? ==> OfExecution(steps[i], xs[i])
    ensures current.Some?
    ensures var ready := Lookup(current.value.conditions, "Ready");
            ready.Some? && ready.value.status.True? ==>
              || ((forall k :: 0 <= k < |steps| ==> !Conclusive(steps[k])) && ready == Lookup(origin.value.conditions, "Ready"))
              || exists j: nat :: LastConclusive(steps, j) && EveryUnitWasReady(steps[j], xs[j])
  {
    StoredConditionsTellTheLastRuns(steps, origin, history, current);
    LastConclusiveIsLast(steps);
    var ready := Lookup(current.value.conditions, "Ready");
    if ready.Some? && ready.value.status.True? && LastWhere(steps, Conclusive).Some? {
      var j: nat :| LastConclusive(steps, j) && steps[j] == LastWhere(steps, Conclusive).value;
      assert OfExecution(steps[j], xs[j]);
      ReadyExecution(steps[j], xs[j]);
    }
  }

  function ResolvedUnits(units: seq<ResolvedUnit>): seq<Unit>
    requires forall i :: 0 <= i < |units| ==> ResolveUnit(units[i]).Ok?
  {
    seq(|units|, i requires 0 <= i < |units| => ResolveUnit(units[i]).value)
  }

  method Teardown(cluster: Cluster, d: Option<Resolved>) returns (errs: seq<string>)
    modifies cluster
    ensures d.None? || d.value.deployment.None? || d.value.spec.None? ==> errs != [] && cluster.Contents() == old(cluster.Contents())
    ensures d.Some? && d.value.deployment.Some? && d.value.spec.Some? ==>
              var r, spec := d.value.deployment.value, d.value.spec.value;
              var t := NewIntent(r, spec, NamesOnly(spec.serviceUnits));
              && cluster.Contents() == TornDown(old(cluster.Contents()), cluster.fault, r, t)
              && match TeardownPath(t)
                 case Err(text) => errs == [text]
                 case Ok(ViaKubernetes) => errs == TeardownErrors(cluster.fault, old(cluster.calls), t.units)
                 case Ok(ViaFlux) => errs == FluxErrors(cluster.fault, old(cluster.calls))
    ensures errs == [] ==>
              && d.Some? && d.value.deployment.Some? && d.value.spec.Some?
              && NothingLeft(cluster.Contents(), d.value.deployment.value,
                             NewIntent(d.value.deployment.value, d.value.spec.value, NamesOnly(d.value.spec.value.serviceUnits)))
  {
    var intent := BuildTeardown(d);
    if intent.Err? {
      return [intent.error];
    }
    errs := ExecuteTeardown(cluster, d.value.deployment.value, intent.value);
  }
}
