/** From a resolved Deployment to the two intents made of it, and the path each
    of them takes. */
module DeploymentIntents {
  import opened Prelude
  import opened Rollout

  datatype Runtime = RuntimeKubernetes | RuntimeKnative | RuntimeECS | RuntimeOther(name: string)

  datatype Strategy = Rolling | BlueGreen | StrategyOther(name: string)

  datatype Reconciliation = Kustomize | Helm | ReconciliationOther(name: string)

  /** The Deployment resource itself. */
  datatype Resource = Resource(name: string, namespace: string, labels: map<string, string>)

  datatype ManifestsRepo = ManifestsRepo(url: string, ref: string, path: string, strategy: string, cloneSecret: string)

  datatype Spec = Spec(
    serviceUnits: seq<string>, runtime: Runtime, strategy: Strategy, gitOwner: string, imageAutomation: bool,
    manifestsRepo: Option<ManifestsRepo>, reconciliation: Reconciliation)

  datatype Resolved = Resolved(deployment: Option<Resource>, spec: Option<Spec>)

  datatype UnitKind = Static | Build | KindOther

  datatype UnitSpec = UnitSpec(kind: UnitKind, image: string, imagePullSecret: string, port: int, size: int)

  datatype ResolvedUnit = ResolvedUnit(name: string, spec: Option<UnitSpec>)

  /** The repository as the intent carries it: no strategy, and no commit. */
  datatype IntentRepo = IntentRepo(url: string, commit: string, path: string, cloneSecret: string)

  datatype Intent = Intent(
    name: string, namespace: string, runtime: Runtime, strategy: Strategy, reconciliation: Reconciliation,
    repo: Option<IntentRepo>, units: seq<Unit>)

  function InvalidServiceUnit(name: string, reason: string): string {
    "invalid serviceunit \"" + name + "\": " + reason
  }

  /** A unit of a known kind that has an image resolves, to just what it was given. */
  function ResolveUnit(u: ResolvedUnit): (r: Result<Unit, string>)
    ensures r.Ok? <==> u.spec.Some? && (u.spec.value.kind.Static? || u.spec.value.kind.Build?) && u.spec.value.image != ""
    ensures r.Ok? ==>
              && r.value.name == u.name && r.value.image == u.spec.value.image && r.value.port == u.spec.value.port
              && r.value.size == u.spec.value.size && r.value.imagePullSecret == u.spec.value.imagePullSecret
    ensures u.spec.Some? && u.spec.value.kind.Build? && u.spec.value.image == "" ==>
              r == Err("build for serviceunit \"" + u.name + "\" not ready")
  {
    match u.spec
    case None => Err("resolved serviceunit is nil")
    case Some(s) =>
      if s.kind.KindOther? then Err(InvalidServiceUnit(u.name, "unsupported serviceunit type"))
      else if s.image == "" then
        Err(if s.kind.Static? then InvalidServiceUnit(u.name, "static serviceunit has empty image (resolver bug)")
            else "build for serviceunit \"" + u.name + "\" not ready")
      else Ok(Unit(u.name, s.image, s.imagePullSecret, s.port, s.size))
  }

  function NewIntent(r: Resource, spec: Spec, units: seq<Unit>): Intent {
    Intent(r.name, r.namespace, spec.runtime, spec.strategy, spec.reconciliation,
           match spec.manifestsRepo
           case None => None
           case Some(m) => Some(IntentRepo(m.url, "", m.path, m.cloneSecret)),
           units)
  }

  /** The intent has the resource's name and namespace and what its spec says, but for the
      repository's ref: it never names a commit. */
  predicate CarriesOver(i: Intent, r: Resource, spec: Spec) {
    && i.name == r.name && i.namespace == r.namespace
    && i.runtime == spec.runtime && i.strategy == spec.strategy && i.reconciliation == spec.reconciliation
    && (i.repo.Some? <==> spec.manifestsRepo.Some?)
    && (i.repo.Some? ==>
          && i.repo.value.url == spec.manifestsRepo.value.url && i.repo.value.path == spec.manifestsRepo.value.path
          && i.repo.value.cloneSecret == spec.manifestsRepo.value.cloneSecret && i.repo.value.commit == "")
  }

  /** Fails on the first unit that does not resolve, and only then. None is a panic:
      a resolved Deployment without its resource, which is read without a check. */
  method BuildIntent(d: Option<Resolved>, units: seq<ResolvedUnit>) returns (r: Option<Result<Intent, string>>)
    ensures var resolve := d.Some? && d.value.spec.Some? && forall i :: 0 <= i < |units| ==> ResolveUnit(units[i]).Ok?;
            && (r.None? <==> resolve && d.value.deployment.None?)
            && (r.Some? && r.value.Ok? <==> resolve && d.value.deployment.Some?)
    ensures r.Some? && r.value.Ok? ==>
              var i := r.value.value;
              && |i.units| == |units|
              && (forall k :: 0 <= k < |units| ==> ResolveUnit(units[k]) == Ok(i.units[k]))
              && i == NewIntent(d.value.deployment.value, d.value.spec.value, i.units)
    ensures r.Some? && r.value.Ok? ==> CarriesOver(r.value.value, d.value.deployment.value, d.value.spec.value)
    ensures r.Some? && r.value.Ok? ==>
              forall k :: 0 <= k < |units| ==>
                var u, su := r.value.value.units[k], units[k];
                && su.spec.Some? && u.name == su.name && u.image == su.spec.value.image != "" && u.port == su.spec.value.port
                && u.size == su.spec.value.size && u.imagePullSecret == su.spec.value.imagePullSecret
    ensures r.Some? && r.value.Err? && d.Some? && d.value.spec.Some? ==>
              exists i :: 0 <= i < |units| && ResolveUnit(units[i]).Err?
                          && r.value.error == "serviceunit " + units[i].name + ": " + ResolveUnit(units[i]).error
                          && forall j :: 0 <= j < i ==> ResolveUnit(units[j]).Ok?
    ensures d.None? || d.value.spec.None? ==> r == Some(Err("nil ResolvedDeployment (resolver bug)"))
  {
    if d.None? || d.value.spec.None? {
      return Some(Err("nil ResolvedDeployment (resolver bug)"));
    }
    var built: seq<Unit> := [];
    for i := 0 to |units|
      invariant |built| == i && forall j :: 0 <= j < i ==> ResolveUnit(units[j]) == Ok(built[j])
    {
      var u := ResolveUnit(units[i]);
      if u.Err? {
        return Some(Err("serviceunit " + units[i].name + ": " + u.error));
      }
      built := built + [u.value];
    }
    if d.value.deployment.None? {
      return None;
    }
    return Some(Ok(NewIntent(d.value.deployment.value, d.value.spec.value, built)));
  }

  function NameOnly(name: string): Unit {
    Unit(name, "", "", 0, 0)
  }

  function NamesOnly(names: seq<string>): (units: seq<Unit>)
    ensures |units| == |names| && forall i :: 0 <= i < |names| ==> units[i] == NameOnly(names[i])
  {
    seq(|names|, i requires 0 <= i < |names| => NameOnly(names[i]))
  }

  method BuildTeardown(d: Option<Resolved>) returns (r: Result<Intent, string>)
    ensures r.Ok? <==> d.Some? && d.value.deployment.Some? && d.value.spec.Some?
    ensures r.Ok? ==> r.value == NewIntent(d.value.deployment.value, d.value.spec.value, NamesOnly(d.value.spec.value.serviceUnits))
    ensures r.Ok? ==> CarriesOver(r.value, d.value.deployment.value, d.value.spec.value)
    ensures r.Ok? ==>
              var names := d.value.spec.value.serviceUnits;
              |r.value.units| == |names| && forall k :: 0 <= k < |names| ==> r.value.units[k].name == names[k]
  {
    if d.None? || d.value.deployment.None? || d.value.spec.None? {
      return Err("nil ResolvedDeployment (resolver bug)");
    }
    var names := d.value.spec.value.serviceUnits;
    var units: seq<Unit> := [];
    for i := 0 to |names|
      invariant units == NamesOnly(names[..i])
    {
      units := units + [NameOnly(names[i])];
    }
    assert names[..|names|] == names;
    return Ok(NewIntent(d.value.deployment.value, d.value.spec.value, units));
  }

  // ---------------------------------------------------------------------------
  // Dispatch
  // ---------------------------------------------------------------------------

  datatype Path = ViaKubernetes | ViaFlux

  predicate Supports(s: Strategy) {
    s.Rolling? || s.BlueGreen?
  }

  function ExecutePath(i: Intent): (r: Result<Path, string>)
    ensures r == Ok(ViaFlux) <==> i.repo.Some? && i.reconciliation.Kustomize?
    ensures r == Ok(ViaKubernetes) <==> i.repo.None? && i.runtime.RuntimeKubernetes? && (i.strategy.Rolling? || i.strategy.BlueGreen?)
  {
    if i.repo.None? then
      match i.runtime
      case RuntimeKubernetes => if Supports(i.strategy) then Ok(ViaKubernetes) else Err("strategy not supported for runtime")
      case RuntimeKnative => Err("knative runtime not implemented")
      case RuntimeECS => Err("ecs runtime not implemented")
      case RuntimeOther(name) => Err("unsupported runtime: " + name)
    else
      match i.reconciliation
      case Kustomize => Ok(ViaFlux)
      case Helm => Err("helm reconciliation not implemented")
      case ReconciliationOther(name) => Err("unsupported reconciliation strategy: " + name)
  }

  function TeardownPath(i: Intent): (r: Result<Path, string>)
    ensures r == Ok(ViaFlux) <==> i.repo.Some? && i.reconciliation.Kustomize?
    ensures r == Ok(ViaKubernetes) <==> i.repo.None? && i.runtime.RuntimeKubernetes?
  {
    if i.repo.None? then
      match i.runtime
      case RuntimeKubernetes => Ok(ViaKubernetes)
      case RuntimeKnative => Err("knative runtime not implemented")
      case RuntimeECS => Err("ecs runtime not implemented")
      case RuntimeOther(name) => Err("unsupported runtime: " + name)
    else
      match i.reconciliation
      case Kustomize => Ok(ViaFlux)
      case Helm => Err("helm reconciliation not implemented")
      case ReconciliationOther(name) => Err("unsupported reconciliation strategy: " + name)
  }

  /** For one Deployment the teardown intent goes where the execution went. The
      only Deployments torn down without ever having been executed are those whose
      strategy the Kubernetes runtime does not support. */
  lemma TeardownFollowsExecute(r: Resource, spec: Spec, units: seq<Unit>, p: Path)
    ensures ExecutePath(NewIntent(r, spec, units)) == Ok(p)
            <==> TeardownPath(NewIntent(r, spec, NamesOnly(spec.serviceUnits))) == Ok(p)
                 && (p.ViaKubernetes? ==> Supports(spec.strategy))
  {
  }
}
