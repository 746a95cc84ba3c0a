/** The GitOps path: publishing the rendering of a Deployment's units, then the two
    Flux resources that make the cluster apply it; and removing these. */
module FluxResources {
  import opened Prelude
  import opened DeploymentIntents
  import opened ManifestsClone
  import opened ManifestsRepo
  import opened ManifestsRuns
  import opened Rollout

  const TYPE_LABEL := "environments.blanketops.dev/type"

  function SourceKey(r: Resource): Key { Key(r.namespace, r.name + "-source") }

  function KustomizationKey(r: Resource): Key { Key(r.namespace, r.name + "-kustomize") }

  /** Both resources are there and point Flux at this repository: its URL, the commit if
      there is one and the deploy key's secret; the path to apply from just that source,
      into the Deployment's own namespace, deleting what is no longer there. */
  predicate FluxStands(o: Objects, r: Resource, repo: IntentRepo) {
    var source, kustomization := Key(r.namespace, r.name + "-source"), Key(r.namespace, r.name + "-kustomize");
    && source in o.sources && o.sources[source].url == repo.url && o.sources[source].commit == repo.commit
    && o.sources[source].secret == r.name + "-flux-ssh"
    && kustomization in o.kustomizations && o.kustomizations[kustomization].path == repo.path
    && o.kustomizations[kustomization].source == source.name && o.kustomizations[kustomization].targetNamespace == r.namespace
    && o.kustomizations[kustomization].prune
  }

  function KustomizationFor(r: Resource, repo: IntentRepo): FluxKustomization {
    FluxKustomization(repo.path, true, r.namespace, r.name + "-source")
  }

  function EnvOf(r: Resource): string {
    if TYPE_LABEL in r.labels then r.labels[TYPE_LABEL] else ""
  }

  /** Reading the deploy key, applying the GitRepository, applying the Kustomization;
      the first that fails ends it. */
  function FluxEnsured(o: Objects, f: Faults, r: Resource, repo: IntentRepo): (Objects, Option<string>) {
    var n, source := o.calls, FluxSource(repo.url, repo.commit, r.name + "-flux-ssh");
    var sources := if f(n).None? && CarriedOut(f(n + 1)) then o.sources[SourceKey(r) := source] else o.sources;
    var kustomizations := if f(n).None? && f(n + 1).None? && CarriedOut(f(n + 2)) then o.kustomizations[KustomizationKey(r) := KustomizationFor(r, repo)]
                          else o.kustomizations;
    (o.(calls := n + CallsMade(f, n), sources := sources, kustomizations := kustomizations),
     match FirstFault(f, n)
     case None => None
     case Some((k, text)) => Some(if k < 2 then "failed ensuring GitRepository: " + text else "failed ensuring Kustomization: " + text))
  }

  /** The checks pass and the deploy key is read: the repository's turn. */
  predicate ReachesGit(o: Objects, f: Faults, r: Resource, repo: IntentRepo) {
    repo.url != "" && repo.path != "" && EnvOf(r) != "" && f(o.calls).None?
  }

  /** Where a run for the intent's repository works. */
  function SettingOf(repo: IntentRepo, world: World): Setting {
    Setting(repo.url, repo.commit, world)
  }

  /** git: how the repository's turn ended. */
  function FluxReconciled(o: Objects, f: Faults, r: Resource, repo: IntentRepo, git: Option<string>): (Objects, Option<string>) {
    var mid := o.(calls := o.calls + 1);
    if repo.url == "" then (o, Some("repoURL required"))
    else if repo.path == "" then (o, Some("path required"))
    else if EnvOf(r) == "" then (o, Some("deployment CR must define label " + TYPE_LABEL))
    else if f(o.calls).Some? then (mid, Some("resolve git ssh credentials: " + f(o.calls).value.text))
    else if git.Some? then (mid, git)
    else FluxEnsured(mid, f, r, repo)
  }

  /** The repository is left alone, or its turn ended as git says: nil leaves the
      rendering of the units, in the repository the clone works on. */
  ghost predicate GitPart(
      reached: bool, f: Faults, d: Disk, d': Disk, s: Setting, env: string, namespace: string, units: seq<Unit>, git: Option<string>)
  {
    if reached then
      StageEnds(f, d, d', s, env, PublishedTree(d, s, env, namespace, units), env != "" && Ensurable(d, s), git)
      && (git.None? ==> NoFaults(f, d.ops, d'.ops))
    else git.None? && d' == d
  }

  /** Nil only if both resources are applied and the rendering is published in the
      repository the clone works on, or was what the commit asked for holds already.
      Reaches says when it is at the URL that Flux is pointed to. */
  method ReconcileKustomization(cluster: Cluster, clone: Clone, r: Resource, i: Intent, repo: IntentRepo, world: World)
    returns (err: Option<string>, ghost git: Option<string>)
    modifies cluster, clone
    ensures (cluster.Contents(), err) == FluxReconciled(old(cluster.Contents()), cluster.fault, r, repo, git)
    ensures GitPart(ReachesGit(old(cluster.Contents()), cluster.fault, r, repo), clone.fault, old(clone.State()), clone.State(),
                    SettingOf(repo, world), EnvOf(r), i.namespace, i.units, git)
    ensures err.None? ==> git.None? && ReachesGit(old(cluster.Contents()), cluster.fault, r, repo)
    ensures err.None? ==> FluxStands(cluster.Contents(), r, repo)
    ensures var envLabel := "environments.blanketops.dev/type";
            repo.url == "" || repo.path == "" || envLabel !in r.labels || r.labels[envLabel] == "" ==>
              err.Some? && cluster.Contents() == old(cluster.Contents()) && clone.State() == old(clone.State())
    ensures err.None? ==>
              var d, s := old(clone.State()), SettingOf(repo, world);
              Reaches(d, clone.hosts, s, PublishedTree(d, s, EnvOf(r), i.namespace, i.units))
  {
    git := None;
    if repo.url == "" {
      return Some("repoURL required"), git;
    }
    if repo.path == "" {
      return Some("path required"), git;
    }
    if TYPE_LABEL !in r.labels || r.labels[TYPE_LABEL] == "" {
      return Some("deployment CR must define label " + TYPE_LABEL), git;
    }
    var done;
    err, done := cluster.Call();
    if err.Some? {
      return Some("resolve git ssh credentials: " + err.value), git;
    }
    ghost var d, s := clone.State(), SettingOf(repo, world);
    err := clone.Publish(SettingOf(repo, world), r.labels[TYPE_LABEL], i.namespace, i.units);
    git := err;
    if err.Some? {
      return;
    }
    UrlHoldsTheRenderingIff(d, s, PublishedTree(d, s, EnvOf(r), i.namespace, i.units), "");
    err := EnsureFlux(cluster, r, repo);
  }

  method EnsureFlux(cluster: Cluster, r: Resource, repo: IntentRepo) returns (err: Option<string>)
    modifies cluster
    ensures (cluster.Contents(), err) == FluxEnsured(old(cluster.Contents()), cluster.fault, r, repo)
    ensures err.None? <==> NoFaults(cluster.fault, old(cluster.calls), old(cluster.calls) + 3)
    ensures err.None? ==>
              var source, kustomization := Key(r.namespace, r.name + "-source"), Key(r.namespace, r.name + "-kustomize");
              && source in cluster.sources && cluster.sources[source].url == repo.url
              && cluster.sources[source].commit == repo.commit && cluster.sources[source].secret == r.name + "-flux-ssh"
              && kustomization in cluster.kustomizations && cluster.kustomizations[kustomization].path == repo.path
              && FluxStands(cluster.Contents(), r, repo)
    ensures cluster.fault(old(cluster.calls)).Some? ==>
              err.Some? && cluster.sources == old(cluster.sources) && cluster.kustomizations == old(cluster.kustomizations)
    ensures cluster.fault(old(cluster.calls) + 1).Some? ==> err.Some? && cluster.kustomizations == old(cluster.kustomizations)
  {
    var done;
    err, done := cluster.Call();
    if err.Some? {
      return Some("failed ensuring GitRepository: " + err.value);
    }
    err, done := cluster.Call();
    if done {
      cluster.sources := cluster.sources[SourceKey(r) := FluxSource(repo.url, repo.commit, r.name + "-flux-ssh")];
    }
    if err.Some? {
      return Some("failed ensuring GitRepository: " + err.value);
    }
    err, done := cluster.Call();
    if done {
      cluster.kustomizations := cluster.kustomizations[KustomizationKey(r) := KustomizationFor(r, repo)];
    }
    if err.Some? {
      return Some("failed ensuring Kustomization: " + err.value);
    }
  }

  function FluxGone(o: Objects, f: Faults, r: Resource): Objects {
    var n := o.calls;
    o.(kustomizations := if CarriedOut(f(n)) then o.kustomizations - {KustomizationKey(r)} else o.kustomizations,
       sources := if f(n).None? && CarriedOut(f(n + 1)) then o.sources - {SourceKey(r)} else o.sources,
       calls := if f(n).Some? then n + 1 else n + 2)
  }

  function FluxErrors(f: Faults, n: nat): seq<string> {
    if f(n).Some? then ["delete kustomization: " + f(n).value.text]
    else if f(n + 1).Some? then ["delete gitrepository: " + f(n + 1).value.text]
    else []
  }

  /** A missing object is not an error; the Kustomization goes before its source. */
  method TeardownFluxResources(cluster: Cluster, r: Resource) returns (errs: seq<string>)
    modifies cluster
    ensures cluster.Contents() == FluxGone(old(cluster.Contents()), cluster.fault, r)
    ensures errs == FluxErrors(cluster.fault, old(cluster.calls))
    ensures errs == [] <==> NoFaults(cluster.fault, old(cluster.calls), old(cluster.calls) + 2)
    ensures errs == [] ==>
              Key(r.namespace, r.name + "-kustomize") !in cluster.kustomizations && Key(r.namespace, r.name + "-source") !in cluster.sources
    ensures cluster.fault(old(cluster.calls)).Some? ==>
              cluster.sources == old(cluster.sources) && errs == ["delete kustomization: " + cluster.fault(old(cluster.calls)).value.text]
  {
    var err, done := cluster.Call();
    if done {
      cluster.kustomizations := cluster.kustomizations - {KustomizationKey(r)};
    }
    if err.Some? {
      return ["delete kustomization: " + err.value];
    }
    err, done := cluster.Call();
    if done {
      cluster.sources := cluster.sources - {SourceKey(r)};
    }
    if err.Some? {
      return ["delete gitrepository: " + err.value];
    }
    return [];
  }

  /** The repository's part: nil leaves the removal of the units, in the repository the
      clone works on; Reaches says when it is the one at the URL. */
  ghost predicate Withdrawn(f: Faults, d: Disk, d': Disk, s: Setting, env: string, units: seq<Unit>, git: Option<string>) {
    var tree := RemovedTree(d, s, env, units);
    StageEnds(f, d, d', s, env, tree, Removable(d, s, env), git) && (git.None? ==> Reaches(d, d'.hosts, s, tree))
  }

  /** The full removal of what the GitOps path made: the Flux resources, then the units'
      manifests. Nil only if both resources are gone and the repository the clone works
      on, or at least the commit asked for, holds none of the units' files any more. */
  method TeardownKustomization(cluster: Cluster, clone: Clone, r: Resource, i: Intent, s: Setting, env: string)
    returns (errs: seq<string>, ghost git: Option<string>)
    modifies cluster, clone
    ensures var o, f := old(cluster.Contents()), cluster.fault;
            var gone := FluxGone(o, f, r);
            if FluxErrors(f, o.calls) != [] then
              errs == FluxErrors(f, o.calls) && cluster.Contents() == gone && clone.State() == old(clone.State())
            else if f(gone.calls).Some? then
              errs == ["resolve git ssh credentials: " + f(gone.calls).value.text]
              && cluster.Contents() == gone.(calls := gone.calls + 1) && clone.State() == old(clone.State())
            else
              && cluster.Contents() == gone.(calls := gone.calls + 1)
              && Withdrawn(clone.fault, old(clone.State()), clone.State(), s, env, i.units, git)
              && (errs == [] <==> git.None?)
    ensures errs == [] ==>
              Key(r.namespace, r.name + "-kustomize") !in cluster.kustomizations && Key(r.namespace, r.name + "-source") !in cluster.sources
    ensures errs == [] ==> git.None? && Withdrawn(clone.fault, old(clone.State()), clone.State(), s, env, i.units, git)
  {
    git := None;
    ghost var o := cluster.Contents();
    errs := TeardownFluxResources(cluster, r);
    if errs != [] {
      return;
    }
    BothAreGone(o, cluster.fault, r);
    errs, git := TeardownRepository(cluster, clone, i, s, env);
  }

  lemma BothAreGone(o: Objects, f: Faults, r: Resource)
    requires FluxErrors(f, o.calls) == []
    ensures var gone := FluxGone(o, f, r); KustomizationKey(r) !in gone.kustomizations && SourceKey(r) !in gone.sources
  {
  }

  /** The credentials, then the clone and the removal. */
  method TeardownRepository(cluster: Cluster, clone: Clone, i: Intent, s: Setting, env: string)
    returns (errs: seq<string>, ghost git: Option<string>)
    modifies cluster, clone
    ensures var o, f := old(cluster.Contents()), cluster.fault;
            && cluster.Contents() == o.(calls := o.calls + 1)
            && if f(o.calls).Some? then
                 errs == ["resolve git ssh credentials: " + f(o.calls).value.text] && clone.State() == old(clone.State())
               else
                 Withdrawn(clone.fault, old(clone.State()), clone.State(), s, env, i.units, git) && (errs == [] <==> git.None?)
  {
    git := None;
    var err, done := cluster.Call();
    if err.Some? {
      return ["resolve git ssh credentials: " + err.value], git;
    }
    ghost var d := clone.State();
    err := clone.Withdraw(s, env, i.units);
    git := err;
    if err.Some? {
      return [err.value], git;
    }
    UrlHoldsTheRenderingIff(d, s, RemovedTree(d, s, env, i.units), "");
    return [], git;
  }

  lemma EnsuringFluxTouchesItsTwoResources(o: Objects, f: Faults, r: Resource, repo: IntentRepo, git: Option<string>)
    ensures var mid := FluxReconciled(o, f, r, repo, git).0;
            && mid.deployments == o.deployments && mid.services == o.services
            && (mid.sources == o.sources || mid.sources == o.sources[SourceKey(r) := FluxSource(repo.url, repo.commit, r.name + "-flux-ssh")])
            && (mid.kustomizations == o.kustomizations || mid.kustomizations == o.kustomizations[KustomizationKey(r) := KustomizationFor(r, repo)])
  {
    FluxReconciledObjects(o, f, r, repo, git);
    FluxEnsuredTouches(o.(calls := o.calls + 1), f, r, repo);
  }

  lemma FluxReconciledObjects(o: Objects, f: Faults, r: Resource, repo: IntentRepo, git: Option<string>)
    ensures var end, mid := FluxReconciled(o, f, r, repo, git).0, o.(calls := o.calls + 1);
            end == o || end == mid || end == FluxEnsured(mid, f, r, repo).0
  {
  }

  lemma FluxEnsuredTouches(o: Objects, f: Faults, r: Resource, repo: IntentRepo)
    ensures var mid, source := FluxEnsured(o, f, r, repo).0, FluxSource(repo.url, repo.commit, r.name + "-flux-ssh");
            || mid == o.(calls := mid.calls)
            || mid == o.(calls := mid.calls, sources := o.sources[SourceKey(r) := source])
            || mid == o.(calls := mid.calls, sources := o.sources[SourceKey(r) := source],
                         kustomizations := o.kustomizations[KustomizationKey(r) := KustomizationFor(r, repo)])
  {
  }

  /** The Flux path: after an error-free teardown both resources are gone, whatever
      failed while they were being ensured, and nothing else changed. */
  lemma TeardownRemovesFluxResources(o: Objects, f: Faults, g: Faults, r: Resource, repo: IntentRepo, git: Option<string>)
    requires FluxErrors(g, FluxReconciled(o, f, r, repo, git).0.calls) == []
    ensures var o' := FluxGone(FluxReconciled(o, f, r, repo, git).0, g, r);
            && o'.deployments == o.deployments && o'.services == o.services
            && o'.sources == o.sources - {SourceKey(r)}
            && o'.kustomizations == o.kustomizations - {KustomizationKey(r)}
  {
    EnsuringFluxTouchesItsTwoResources(o, f, r, repo, git);
  }
}
