/**
The imperative path: applying the Deployment and Service object of every
ServiceUnit, and deleting them again from their names alone.

The cluster is four maps and a count of API calls. Which calls fail and how, and
what the rollout controller has reported when a Deployment is read, are functions
of the call number; a statement for all such functions is a statement for every
pattern of failures and every pace of rollout.
*/
module Rollout {
  import opened Prelude
  import opened DeploymentDomain

  datatype Key = Key(namespace: string, name: string)

  /** A ServiceUnitIntent. */
  datatype Unit = Unit(name: string, image: string, imagePullSecret: string, port: int, size: int)

  /** unit names the object, its selector, its labels and its container. */
  datatype Workload = Workload(unit: string, replicas: int, image: string, port: int, pullSecrets: seq<string>)

  /** labelled: the object carries the label that it selects by. */
  datatype Svc = Svc(unit: string, labelled: bool, portName: string, port: int, targetPort: int)

  /** An empty commit stands for the branch. */
  datatype FluxSource = FluxSource(url: string, commit: string, secret: string)

  datatype FluxKustomization = FluxKustomization(path: string, prune: bool, targetNamespace: string, source: string)

  datatype Objects = Objects(
    deployments: map<Key, Workload>, services: map<Key, Svc>,
    sources: map<Key, FluxSource>, kustomizations: map<Key, FluxKustomization>, calls: nat)

  type ReadyReplicas = nat -> int

  function WorkloadOf(u: Unit): Workload {
    Workload(u.name, u.size, u.image, u.port, if u.imagePullSecret == "" then [] else [u.imagePullSecret])
  }

  function ServiceOf(u: Unit): Svc {
    Svc(u.name, false, "", u.port, u.port)
  }

  /** The Deployment runs the unit: its image, as many replicas as its size, its port,
      and its pull secret if it has one. */
  predicate RunsUnit(w: Workload, u: Unit) {
    && w.unit == u.name && w.replicas == u.size && w.image == u.image && w.port == u.port
    && (u.imagePullSecret == "" ==> w.pullSecrets == []) && (u.imagePullSecret != "" ==> w.pullSecrets == [u.imagePullSecret])
  }

  /** The Service leads to the unit's port. */
  predicate ServesUnit(s: Svc, u: Unit) {
    s.unit == u.name && s.port == u.port && s.targetPort == u.port && !s.labelled && s.portName == ""
  }

  // ---------------------------------------------------------------------------
  // One unit
  // ---------------------------------------------------------------------------

  /** The first of the three calls (apply Deployment, apply Service, read back)
      that fails, if any does. */
  function FirstFault(f: Faults, n: nat): Option<(nat, string)> {
    if f(n).Some? then Some((0, f(n).value.text))
    else if f(n + 1).Some? then Some((1, f(n + 1).value.text))
    else if f(n + 2).Some? then Some((2, f(n + 2).value.text))
    else None
  }

  function CallsMade(f: Faults, n: nat): nat {
    match FirstFault(f, n) case None => 3 case Some((k, _)) => k + 1
  }

  /** Call number which (0 for the Deployment, 1 for the Service) of a unit attempted
      at call n was made, and carried out. */
  predicate Reached(f: Faults, n: nat, which: nat) {
    if which == 0 then CarriedOut(f(n)) else f(n).None? && CarriedOut(f(n + 1))
  }

  /** The objects after a unit was attempted at call n: what was carried out is in
      place, what came after the failing call is untouched. */
  function UnitApplied(o: Objects, f: Faults, namespace: string, u: Unit): Objects {
    var key := Key(namespace, u.name);
    o.(deployments := if Reached(f, o.calls, 0) then o.deployments[key := WorkloadOf(u)] else o.deployments,
       services := if Reached(f, o.calls, 1) then o.services[key := ServiceOf(u)] else o.services,
       calls := o.calls + CallsMade(f, o.calls))
  }

  function UnitOutcome(o: Objects, f: Faults, ready: ReadyReplicas, runtime: string, u: Unit): UnitResult {
    match FirstFault(f, o.calls)
    case Some((_, text)) => UnitResult(u.name, UnitFailed, u.image, runtime, text)
    case None => UnitResult(u.name, if ready(o.calls + 2) == u.size then UnitReady else UnitDeploying, u.image, runtime, "")
  }

  // ---------------------------------------------------------------------------
  // All units
  // ---------------------------------------------------------------------------

  function UnitsApplied(o: Objects, f: Faults, namespace: string, units: seq<Unit>): Objects
    decreases |units|
  {
    if units == [] then o
    else UnitApplied(UnitsApplied(o, f, namespace, units[..|units| - 1]), f, namespace, units[|units| - 1])
  }

  function Outcomes(o: Objects, f: Faults, ready: ReadyReplicas, namespace: string, runtime: string, units: seq<Unit>): (r: seq<UnitResult>)
    ensures |r| == |units|
    decreases |units|
  {
    if units == [] then []
    else
      Outcomes(o, f, ready, namespace, runtime, units[..|units| - 1])
      + [UnitOutcome(UnitsApplied(o, f, namespace, units[..|units| - 1]), f, ready, runtime, units[|units| - 1])]
  }

  /** One result per unit, in order: unit i is attempted once, after all before
      it, whatever became of those. */
  lemma {:induction false} OutcomeAt(
      o: Objects, f: Faults, ready: ReadyReplicas, namespace: string, runtime: string, units: seq<Unit>, i: nat)
    requires i < |units|
    ensures Outcomes(o, f, ready, namespace, runtime, units)[i]
            == UnitOutcome(UnitsApplied(o, f, namespace, units[..i]), f, ready, runtime, units[i])
    decreases |units|
  {
    var front := units[..|units| - 1];
    if i < |front| {
      OutcomeAt(o, f, ready, namespace, runtime, front, i);
      assert front[..i] == units[..i];
    }
  }

  ghost predicate AppliedUpTo(
      start: Objects, f: Faults, ready: ReadyReplicas, namespace: string, runtime: string, units: seq<Unit>, i: nat,
      now: Objects, results: seq<UnitResult>)
    requires i <= |units|
  {
    now == UnitsApplied(start, f, namespace, units[..i]) && results == Outcomes(start, f, ready, namespace, runtime, units[..i])
  }

  lemma OneMoreApplied(
      start: Objects, f: Faults, ready: ReadyReplicas, namespace: string, runtime: string, units: seq<Unit>, i: nat,
      now: Objects, results: seq<UnitResult>)
    requires i < |units| && AppliedUpTo(start, f, ready, namespace, runtime, units, i, now, results)
    ensures AppliedUpTo(start, f, ready, namespace, runtime, units, i + 1,
                        UnitApplied(now, f, namespace, units[i]), results + [UnitOutcome(now, f, ready, runtime, units[i])])
  {
    assert units[..i + 1][..i] == units[..i];
  }

  /** The number of the call that applies unit i's Deployment, when the first unit's is
      n: a unit makes three calls, or as many as it takes until one fails. */
  function FirstCall(f: Faults, n: nat, i: nat): nat {
    if i == 0 then n
    else
      var m := FirstCall(f, n, i - 1);
      if f(m).Some? then m + 1 else if f(m + 1).Some? then m + 2 else m + 3
  }

  lemma {:induction false} FirstCallOf(o: Objects, f: Faults, namespace: string, units: seq<Unit>, i: nat)
    requires i <= |units|
    ensures UnitsApplied(o, f, namespace, units[..i]).calls == FirstCall(f, o.calls, i)
    decreases i
  {
    if i > 0 {
      FirstCallOf(o, f, namespace, units, i - 1);
      assert units[..i][..i - 1] == units[..i - 1];
    }
  }

  /** What a result says of its unit, whose calls begin at n: failed exactly when one of
      its three calls failed, and then with the text of the first that did; ready exactly
      when none failed and as many replicas were reported ready as were asked for. */
  ghost predicate Tells(res: UnitResult, f: Faults, ready: ReadyReplicas, n: nat, runtime: string, u: Unit) {
    && res.name == u.name && res.image == u.image && res.runtime == runtime
    && (res.phase.UnitFailed? || res.phase.UnitReady? || res.phase.UnitDeploying?)
    && (res.phase.UnitFailed? <==> !NoFaults(f, n, n + 3))
    && (res.phase.UnitReady? <==> NoFaults(f, n, n + 3) && ready(n + 2) == u.size)
    && (NoFaults(f, n, n + 3) ==> res.error == "")
    && (f(n).Some? ==> res.error == f(n).value.text)
    && (f(n).None? && f(n + 1).Some? ==> res.error == f(n + 1).value.text)
    && (f(n).None? && f(n + 1).None? && f(n + 2).Some? ==> res.error == f(n + 2).value.text)
  }

  /** One result per unit, and each tells what the cluster answered for that unit. */
  lemma OutcomesTell(o: Objects, f: Faults, ready: ReadyReplicas, namespace: string, runtime: string, units: seq<Unit>, i: nat)
    requires i < |units|
    ensures Tells(Outcomes(o, f, ready, namespace, runtime, units)[i], f, ready, FirstCall(f, o.calls, i), runtime, units[i])
  {
    OutcomeAt(o, f, ready, namespace, runtime, units, i);
    FirstCallOf(o, f, namespace, units, i);
    OutcomeTells(UnitsApplied(o, f, namespace, units[..i]), f, ready, runtime, units[i]);
  }

  lemma OutcomeTells(o: Objects, f: Faults, ready: ReadyReplicas, runtime: string, u: Unit)
    ensures Tells(UnitOutcome(o, f, ready, runtime, u), f, ready, o.calls, runtime, u)
  {
    var n := o.calls;
    assert NoFaults(f, n, n + 3) <==> f(n).None? && f(n + 1).None? && f(n + 2).None?;
  }

  predicate Named(units: seq<Unit>, namespace: string, key: Key) {
    key.namespace == namespace && exists i :: 0 <= i < |units| && units[i].name == key.name
  }

  /** Applying touches no object that is not named after a unit, and a unit that
      did not fail has both of its objects at the end, built from a unit of its name. */
  lemma {:induction false} ApplyTouchesOnlyItsUnits(o: Objects, f: Faults, namespace: string, units: seq<Unit>, key: Key)
    ensures var o' := UnitsApplied(o, f, namespace, units);
            && o'.sources == o.sources && o'.kustomizations == o.kustomizations
            && (!Named(units, namespace, key) ==> SameAt(o, o', key))
  {
    if units != [] {
      var front := units[..|units| - 1];
      ApplyTouchesOnlyItsUnits(o, f, namespace, front, key);
      if !Named(units, namespace, key) {
        assert units[|units| - 1].name != key.name || key.namespace != namespace;
        assert forall i :: 0 <= i < |front| ==> front[i] == units[i];
      }
    }
  }

  lemma {:induction false} NotFailedMeansApplied(
      o: Objects, f: Faults, ready: ReadyReplicas, namespace: string, runtime: string, units: seq<Unit>, i: nat)
    requires i < |units|
    requires !Outcomes(o, f, ready, namespace, runtime, units)[i].phase.UnitFailed?
    ensures var o', key := UnitsApplied(o, f, namespace, units), Key(namespace, units[i].name);
            key in o'.deployments && key in o'.services
  {
    var front := units[..|units| - 1];
    if i < |units| - 1 {
      NotFailedMeansApplied(o, f, ready, namespace, runtime, front, i);
    }
  }

  /** A unit that did not fail, and whose name no later unit has, runs as it was asked for:
      its own image, replicas and port behind its own Service. */
  lemma {:induction false} NotFailedMeansRunning(
      o: Objects, f: Faults, ready: ReadyReplicas, namespace: string, runtime: string, units: seq<Unit>, i: nat)
    requires i < |units| && forall j :: i < j < |units| ==> units[j].name != units[i].name
    requires !Outcomes(o, f, ready, namespace, runtime, units)[i].phase.UnitFailed?
    ensures var o', key := UnitsApplied(o, f, namespace, units), Key(namespace, units[i].name);
            && key in o'.deployments && RunsUnit(o'.deployments[key], units[i])
            && key in o'.services && ServesUnit(o'.services[key], units[i])
    decreases |units|
  {
    var last := |units| - 1;
    if i < last {
      var front := units[..last];
      assert front[i] == units[i];
      NotFailedMeansRunning(o, f, ready, namespace, runtime, front, i);
    } else {
      OutcomeAt(o, f, ready, namespace, runtime, units, i);
    }
  }

  /** The last unit of that name whose call number which was carried out. */
  function LastApplied(o: Objects, f: Faults, namespace: string, units: seq<Unit>, key: Key, which: nat): Option<Unit>
    decreases |units|
  {
    if units == [] then None
    else
      var front, last := units[..|units| - 1], units[|units| - 1];
      if key == Key(namespace, last.name) && Reached(f, UnitsApplied(o, f, namespace, front).calls, which) then Some(last)
      else LastApplied(o, f, namespace, front, key, which)
  }

  /** What stands under every key after any units were applied with any failures. */
  lemma {:induction false} AppliedLookup(o: Objects, f: Faults, namespace: string, units: seq<Unit>, key: Key)
    ensures var o' := UnitsApplied(o, f, namespace, units);
            && (match LastApplied(o, f, namespace, units, key, 0)
                case Some(u) => key in o'.deployments && RunsUnit(o'.deployments[key], u)
                case None => (key in o'.deployments <==> key in o.deployments)
                             && (key in o.deployments ==> o'.deployments[key] == o.deployments[key]))
            && (match LastApplied(o, f, namespace, units, key, 1)
                case Some(u) => key in o'.services && ServesUnit(o'.services[key], u)
                case None => (key in o'.services <==> key in o.services)
                             && (key in o.services ==> o'.services[key] == o.services[key]))
    decreases |units|
  {
    if units != [] {
      AppliedLookup(o, f, namespace, units[..|units| - 1], key);
    }
  }

  /** The Deployment's runs one after the other, each with the units it had then. */
  function RunsApplied(o: Objects, f: Faults, namespace: string, runs: seq<seq<Unit>>): Objects
    decreases |runs|
  {
    if runs == [] then o
    else UnitsApplied(RunsApplied(o, f, namespace, runs[..|runs| - 1]), f, namespace, runs[|runs| - 1])
  }

  function AllUnits(runs: seq<seq<Unit>>): seq<Unit> {
    if runs == [] then [] else AllUnits(runs[..|runs| - 1]) + runs[|runs| - 1]
  }

  lemma {:induction false} AppliesCompose(o: Objects, f: Faults, namespace: string, xs: seq<Unit>, ys: seq<Unit>)
    ensures UnitsApplied(o, f, namespace, xs + ys) == UnitsApplied(UnitsApplied(o, f, namespace, xs), f, namespace, ys)
    decreases |ys|
  {
    if ys == [] {
      assert xs + ys == xs;
    } else {
      var front, last, zs := ys[..|ys| - 1], ys[|ys| - 1], xs + ys;
      AppliesCompose(o, f, namespace, xs, front);
      assert zs != [] && zs[..|zs| - 1] == xs + front && zs[|zs| - 1] == last;
      assert UnitsApplied(o, f, namespace, zs) == UnitApplied(UnitsApplied(o, f, namespace, zs[..|zs| - 1]), f, namespace, last);
    }
  }

  lemma {:induction false} RunsAreOneApply(o: Objects, f: Faults, namespace: string, runs: seq<seq<Unit>>)
    ensures RunsApplied(o, f, namespace, runs) == UnitsApplied(o, f, namespace, AllUnits(runs))
    decreases |runs|
  {
    if runs != [] {
      var front := runs[..|runs| - 1];
      RunsAreOneApply(o, f, namespace, front);
      AppliesCompose(o, f, namespace, AllUnits(front), runs[|runs| - 1]);
    }
  }

  // ---------------------------------------------------------------------------
  // Teardown
  // ---------------------------------------------------------------------------

  function DeploymentGone(o: Objects, f: Faults, key: Key): Objects {
    o.(deployments := if CarriedOut(f(o.calls)) then o.deployments - {key} else o.deployments, calls := o.calls + 1)
  }

  function ServiceGone(o: Objects, f: Faults, key: Key): Objects {
    o.(services := if CarriedOut(f(o.calls)) then o.services - {key} else o.services, calls := o.calls + 1)
  }

  function UnitsGone(o: Objects, f: Faults, namespace: string, units: seq<Unit>): Objects
    decreases |units|
  {
    if units == [] then o
    else
      var key := Key(namespace, units[|units| - 1].name);
      ServiceGone(DeploymentGone(UnitsGone(o, f, namespace, units[..|units| - 1]), f, key), f, key)
  }

  function DeleteError(f: Faults, n: nat, kind: string, name: string): seq<string> {
    match f(n) case None => [] case Some(fault) => ["delete " + kind + " " + name + ": " + fault.text]
  }

  /** Unit i uses calls n + 2i and n + 2i + 1, whatever happened to those before. */
  function TeardownErrors(f: Faults, n: nat, units: seq<Unit>): seq<string>
    decreases |units|
  {
    if units == [] then []
    else
      var last := |units| - 1;
      TeardownErrors(f, n, units[..last])
      + DeleteError(f, n + 2 * last, "deployment", units[last].name)
      + DeleteError(f, n + 2 * last + 1, "service", units[last].name)
  }

  ghost predicate TornDownUpTo(start: Objects, f: Faults, namespace: string, units: seq<Unit>, i: nat, now: Objects, errs: seq<string>)
    requires i <= |units|
  {
    && now == UnitsGone(start, f, namespace, units[..i]) && now.calls == start.calls + 2 * i
    && errs == TeardownErrors(f, start.calls, units[..i])
  }

  lemma OneMoreTornDown(start: Objects, f: Faults, namespace: string, units: seq<Unit>, i: nat, now: Objects, errs: seq<string>)
    requires i < |units| && TornDownUpTo(start, f, namespace, units, i, now, errs)
    ensures var key := Key(namespace, units[i].name);
            TornDownUpTo(start, f, namespace, units, i + 1, ServiceGone(DeploymentGone(now, f, key), f, key),
                         errs + (DeleteError(f, now.calls, "deployment", units[i].name)
                                 + DeleteError(f, now.calls + 1, "service", units[i].name)))
  {
    assert units[..i + 1][..i] == units[..i];
  }

  predicate DeletedBy(f: Faults, n: nat, namespace: string, units: seq<Unit>, key: Key, offset: nat) {
    key.namespace == namespace && exists i :: 0 <= i < |units| && units[i].name == key.name && CarriedOut(f(n + 2 * i + offset))
  }

  /** Exactly what teardown removes: the objects named after a unit one of whose
      delete calls was carried out. All the rest stays as it is. */
  lemma {:induction false} TeardownRemovesExactly(o: Objects, f: Faults, namespace: string, units: seq<Unit>, key: Key)
    ensures var o' := UnitsGone(o, f, namespace, units);
            && o'.calls == o.calls + 2 * |units| && o'.sources == o.sources && o'.kustomizations == o.kustomizations
            && (key in o'.deployments <==> key in o.deployments && !DeletedBy(f, o.calls, namespace, units, key, 0))
            && (key in o'.services <==> key in o.services && !DeletedBy(f, o.calls, namespace, units, key, 1))
            && (key in o'.deployments ==> o'.deployments[key] == o.deployments[key])
            && (key in o'.services ==> o'.services[key] == o.services[key])
  {
    if units != [] {
      var last := |units| - 1;
      var front := units[..last];
      TeardownRemovesExactly(o, f, namespace, front, key);
      DeletedByOneMore(f, o.calls, namespace, units, key, 0);
      DeletedByOneMore(f, o.calls, namespace, units, key, 1);
    }
  }

  lemma DeletedByOneMore(f: Faults, n: nat, namespace: string, units: seq<Unit>, key: Key, offset: nat)
    requires units != []
    ensures var last := |units| - 1;
            DeletedBy(f, n, namespace, units, key, offset)
            <==> (DeletedBy(f, n, namespace, units[..last], key, offset)
                  || (key == Key(namespace, units[last].name) && CarriedOut(f(n + 2 * last + offset))))
  {
    var front := units[..|units| - 1];
    if DeletedBy(f, n, namespace, front, key, offset) {
      var i :| 0 <= i < |front| && front[i].name == key.name && CarriedOut(f(n + 2 * i + offset));
      assert units[i].name == key.name;
    }
    if DeletedBy(f, n, namespace, units, key, offset) {
      var i :| 0 <= i < |units| && units[i].name == key.name && CarriedOut(f(n + 2 * i + offset));
      assert i < |front| ==> front[i].name == key.name;
    }
  }

  lemma {:induction false} NoErrorMeansNoFault(f: Faults, n: nat, units: seq<Unit>)
    ensures TeardownErrors(f, n, units) == [] <==> forall k :: n <= k < n + 2 * |units| ==> f(k).None?
  {
    if units != [] {
      NoErrorMeansNoFault(f, n, units[..|units| - 1]);
    }
  }

  /** The error of call n + 2i, or n + 2i + 1, with the object it was to delete. */
  ghost predicate DeleteFailed(f: Faults, n: nat, units: seq<Unit>, i: nat, e: string) {
    && i < |units|
    && ((f(n + 2 * i).Some? && e == "delete deployment " + units[i].name + ": " + f(n + 2 * i).value.text)
        || (f(n + 2 * i + 1).Some? && e == "delete service " + units[i].name + ": " + f(n + 2 * i + 1).value.text))
  }

  lemma DeleteErrorsOf(f: Faults, n: nat, units: seq<Unit>, i: nat, e: string)
    requires i < |units|
    ensures e in DeleteError(f, n + 2 * i, "deployment", units[i].name) + DeleteError(f, n + 2 * i + 1, "service", units[i].name)
            <==> DeleteFailed(f, n, units, i, e)
  {
    assert "delete " + "deployment" + " " == "delete deployment " && "delete " + "service" + " " == "delete service ";
  }

  /** The errors are those of the failing deletes, and no others. */
  lemma {:induction false} TeardownErrorsTell(f: Faults, n: nat, units: seq<Unit>, e: string)
    ensures e in TeardownErrors(f, n, units) <==> exists i :: DeleteFailed(f, n, units, i, e)
    decreases |units|
  {
    if units != [] {
      var last := |units| - 1;
      var front := units[..last];
      TeardownErrorsTell(f, n, front, e);
      DeleteErrorsOf(f, n, units, last, e);
      forall i | 0 <= i < last ensures DeleteFailed(f, n, front, i, e) <==> DeleteFailed(f, n, units, i, e) { }
      if e in TeardownErrors(f, n, front) {
        var i: nat :| DeleteFailed(f, n, front, i, e);
        assert DeleteFailed(f, n, units, i, e);
      }
    }
  }

  /** An error-free teardown leaves nothing named after its units, and nothing else changed. */
  lemma CleanTeardown(o: Objects, g: Faults, namespace: string, named: seq<Unit>, key: Key)
    requires TeardownErrors(g, o.calls, named) == []
    ensures var o' := UnitsGone(o, g, namespace, named);
            if Named(named, namespace, key) then key !in o'.deployments && key !in o'.services
            else SameAt(o, o', key)
  {
    NoErrorMeansNoFault(g, o.calls, named);
    TeardownRemovesExactly(o, g, namespace, named, key);
    if Named(named, namespace, key) {
      var i :| 0 <= i < |named| && named[i].name == key.name;
      assert g(o.calls + 2 * i + 0).None? && g(o.calls + 2 * i + 1).None?;
      assert DeletedBy(g, o.calls, namespace, named, key, 0);
      assert DeletedBy(g, o.calls, namespace, named, key, 1);
    }
  }

  predicate SameAt(o: Objects, o': Objects, key: Key) {
    && (key in o'.deployments <==> key in o.deployments) && (key in o'.services <==> key in o.services)
    && (key in o.deployments ==> o'.deployments[key] == o.deployments[key])
    && (key in o.services ==> o'.services[key] == o.services[key])
  }

  /** Apply with any failures, then an error-free teardown whose names include
      every applied unit: nothing applied is left, and every object of another
      name is as it was before the apply. */
  lemma TeardownUndoesApply(
      o: Objects, f: Faults, g: Faults, namespace: string, applied: seq<Unit>, named: seq<Unit>, key: Key)
    requires Named(applied, namespace, key) ==> Named(named, namespace, key)
    requires TeardownErrors(g, UnitsApplied(o, f, namespace, applied).calls, named) == []
    ensures var o' := UnitsGone(UnitsApplied(o, f, namespace, applied), g, namespace, named);
            if Named(named, namespace, key) then key !in o'.deployments && key !in o'.services
            else SameAt(o, o', key)
  {
    CleanTeardown(UnitsApplied(o, f, namespace, applied), g, namespace, named, key);
    ApplyTouchesOnlyItsUnits(o, f, namespace, applied, key);
  }

  /** Over any history of runs whose units changed from run to run: what an
      error-free teardown leaves of a key is exactly what the names it is given do
      not cover, whether some run applied it or it was there before. */
  lemma LeftoverIff(
      o: Objects, f: Faults, g: Faults, namespace: string, runs: seq<seq<Unit>>, named: seq<Unit>, key: Key)
    requires TeardownErrors(g, RunsApplied(o, f, namespace, runs).calls, named) == []
    ensures var o' := UnitsGone(RunsApplied(o, f, namespace, runs), g, namespace, named);
            var units := AllUnits(runs);
            && (key in o'.deployments <==>
                !Named(named, namespace, key)
                && (key in o.deployments || LastApplied(o, f, namespace, units, key, 0).Some?))
            && (key in o'.services <==>
                !Named(named, namespace, key)
                && (key in o.services || LastApplied(o, f, namespace, units, key, 1).Some?))
  {
    RunsAreOneApply(o, f, namespace, runs);
    AppliedLookup(o, f, namespace, AllUnits(runs), key);
    CleanTeardown(RunsApplied(o, f, namespace, runs), g, namespace, named, key);
  }

  /** For instance a unit that a second run no longer has: a teardown from the names the
      contract has then leaves both its objects. */
  lemma DroppedUnitIsLeft(kept: Unit, dropped: Unit, namespace: string)
    requires kept.name != dropped.name
    ensures var f: Faults := (n: nat) => None;
            var o := RunsApplied(Objects(map[], map[], map[], map[], 0), f, namespace, [[kept, dropped], [kept]]);
            var key := Key(namespace, dropped.name);
            && TeardownErrors(f, o.calls, [kept]) == []
            && key in UnitsGone(o, f, namespace, [kept]).deployments && key in UnitsGone(o, f, namespace, [kept]).services
  {
    var f: Faults := (n: nat) => None;
    var empty := Objects(map[], map[], map[], map[], 0);
    var runs, key := [[kept, dropped], [kept]], Key(namespace, dropped.name);
    assert runs[..1] == [[kept, dropped]] && runs[..1][..0] == [];
    assert AllUnits(runs[..1]) == [kept, dropped];
    var units := AllUnits(runs);
    assert units == [kept, dropped, kept] && units[..2] == [kept, dropped];
    assert LastApplied(empty, f, namespace, units[..2], key, 0) == Some(dropped);
    assert LastApplied(empty, f, namespace, units[..2], key, 1) == Some(dropped);
    var n := RunsApplied(empty, f, namespace, runs).calls;
    NoErrorMeansNoFault(f, n, [kept]);
    LeftoverIff(empty, f, f, namespace, runs, [kept], key);
  }

  lemma TeardownIdempotent(o: Objects, f: Faults, g: Faults, namespace: string, units: seq<Unit>)
    requires TeardownErrors(f, o.calls, units) == []
    ensures var once := UnitsGone(o, f, namespace, units);
            var twice := UnitsGone(once, g, namespace, units);
            twice.deployments == once.deployments && twice.services == once.services
  {
    var once := UnitsGone(o, f, namespace, units);
    var twice := UnitsGone(once, g, namespace, units);
    forall key: Key
      ensures key in twice.deployments <==> key in once.deployments
      ensures key in twice.deployments ==> twice.deployments[key] == once.deployments[key]
      ensures key in twice.services <==> key in once.services
      ensures key in twice.services ==> twice.services[key] == once.services[key]
    {
      CleanTeardown(o, f, namespace, units, key);
      TeardownRemovesExactly(once, g, namespace, units, key);
    }
    assert twice.deployments.Keys == once.deployments.Keys && twice.services.Keys == once.services.Keys;
  }

  // ---------------------------------------------------------------------------
  // The provider
  // ---------------------------------------------------------------------------

  class Cluster {
    const fault: Faults
    const ready: ReadyReplicas
    var deployments: map<Key, Workload>
    var services: map<Key, Svc>
    var sources: map<Key, FluxSource>
    var kustomizations: map<Key, FluxKustomization>
    var calls: nat

    constructor (fault: Faults, ready: ReadyReplicas)
      ensures this.fault == fault && this.ready == ready
      ensures Contents() == Objects(map[], map[], map[], map[], 0)
    {
      this.fault, this.ready := fault, ready;
      deployments, services, sources, kustomizations, calls := map[], map[], map[], map[], 0;
    }

    function Contents(): Objects
      reads this
    {
      Objects(deployments, services, sources, kustomizations, calls)
    }

    /** The next API call: the error the caller sees, and whether it took effect. */
    method Call() returns (err: Option<string>, done: bool)
      modifies this`calls
      ensures err == ErrorText(fault(old(calls))) && done == CarriedOut(fault(old(calls))) && calls == old(calls) + 1
    {
      err, done := ErrorText(fault(calls)), CarriedOut(fault(calls));
      calls := calls + 1;
    }

    method ApplyDeployment(namespace: string, u: Unit) returns (err: Option<string>)
      modifies this`calls, this`deployments
      ensures err == ErrorText(fault(old(calls))) && calls == old(calls) + 1
      ensures deployments == if CarriedOut(fault(old(calls))) then old(deployments)[Key(namespace, u.name) := WorkloadOf(u)]
                             else old(deployments)
    {
      var done;
      err, done := Call();
      if done {
        deployments := deployments[Key(namespace, u.name) := WorkloadOf(u)];
      }
    }

    method ApplyService(namespace: string, u: Unit) returns (err: Option<string>)
      modifies this`calls, this`services
      ensures err == ErrorText(fault(old(calls))) && calls == old(calls) + 1
      ensures services == if CarriedOut(fault(old(calls))) then old(services)[Key(namespace, u.name) := ServiceOf(u)]
                          else old(services)
    {
      var done;
      err, done := Call();
      if done {
        services := services[Key(namespace, u.name) := ServiceOf(u)];
      }
    }

    /** A Deployment that is gone when it is read is an error. */
    method IsDeploymentReady(namespace: string, u: Unit) returns (r: Result<bool, string>)
      modifies this`calls
      ensures calls == old(calls) + 1
      ensures r == match fault(old(calls))
                   case Some(f) => Err(f.text)
                   case None =>
                     if Key(namespace, u.name) in deployments
                     then Ok(ready(old(calls)) == deployments[Key(namespace, u.name)].replicas)
                     else Err("not found")
    {
      var at := calls;
      var err, done := Call();
      if err.Some? {
        return Err(err.value);
      }
      if Key(namespace, u.name) !in deployments {
        return Err("not found");
      }
      return Ok(ready(at) == deployments[Key(namespace, u.name)].replicas);
    }

    method ApplyServiceUnit(namespace: string, runtime: string, u: Unit) returns (r: Result<UnitResult, string>)
      modifies this`calls, this`deployments, this`services
      ensures Contents() == UnitApplied(old(Contents()), fault, namespace, u)
      ensures match r
              case Err(text) => UnitOutcome(old(Contents()), fault, ready, runtime, u) == UnitResult(u.name, UnitFailed, u.image, runtime, text)
              case Ok(result) => result == UnitOutcome(old(Contents()), fault, ready, runtime, u) && !result.phase.UnitFailed?
      ensures r.Ok? <==> NoFaults(fault, old(calls), old(calls) + 3)
      ensures r.Ok? ==>
                var key := Key(namespace, u.name);
                && key in deployments && RunsUnit(deployments[key], u) && key in services && ServesUnit(services[key], u)
                && (r.value.phase.UnitReady? <==> ready(old(calls) + 2) == deployments[key].replicas)
                && (r.value.phase.UnitReady? || r.value.phase.UnitDeploying?)
                && r.value.name == u.name && r.value.image == u.image && r.value.runtime == runtime && r.value.error == ""
      ensures fault(old(calls)).Some? ==> r == Err(fault(old(calls)).value.text) && services == old(services)
      ensures fault(old(calls)).None? && fault(old(calls) + 1).Some? ==> r == Err(fault(old(calls) + 1).value.text)
    {
      var err := ApplyDeployment(namespace, u);
      if err.Some? {
        return Err(err.value);
      }
      err := ApplyService(namespace, u);
      if err.Some? {
        return Err(err.value);
      }
      var isReady := IsDeploymentReady(namespace, u);
      if isReady.Err? {
        return Err(isReady.error);
      }
      var phase := UnitDeploying;
      if isReady.value {
        phase := UnitReady;
      }
      return Ok(UnitResult(u.name, phase, u.image, runtime, ""));
    }

    /** Every unit is attempted once, in order, and has one result. */
    method ExecuteRolling(namespace: string, runtime: string, strategy: string, units: seq<Unit>) returns (r: DeploymentResult)
      modifies this`calls, this`deployments, this`services
      ensures Contents() == UnitsApplied(old(Contents()), fault, namespace, units)
      ensures r.units == Outcomes(old(Contents()), fault, ready, namespace, runtime, units)
      ensures forall i :: 0 <= i < |units| ==> Tells(r.units[i], fault, ready, FirstCall(fault, old(calls), i), runtime, units[i])
      ensures r.phase == PhaseOf(r.units)
      ensures r.runtime == runtime && r.strategy == strategy && r.message == ""
    {
      var results: seq<UnitResult> := [];
      ghost var start := Contents();
      for i := 0 to |units|
        invariant AppliedUpTo(start, fault, ready, namespace, runtime, units, i, Contents(), results)
      {
        OneMoreApplied(start, fault, ready, namespace, runtime, units, i, Contents(), results);
        var res := ApplyServiceUnit(namespace, runtime, units[i]);
        if res.Err? {
          results := results + [UnitResult(units[i].name, UnitFailed, units[i].image, runtime, res.error)];
        } else {
          results := results + [res.value];
        }
      }
      assert units[..|units|] == units;
      forall i | 0 <= i < |units| ensures Tells(results[i], fault, ready, FirstCall(fault, start.calls, i), runtime, units[i]) {
        OutcomesTell(start, fault, ready, namespace, runtime, units, i);
      }
      var phase := DeriveDeploymentPhase(results);
      return DeploymentResult(phase, "", runtime, strategy, results);
    }

    method TeardownUnit(namespace: string, u: Unit) returns (errs: seq<string>)
      modifies this`calls, this`deployments, this`services
      ensures var key := Key(namespace, u.name);
              Contents() == ServiceGone(DeploymentGone(old(Contents()), fault, key), fault, key)
      ensures errs == DeleteError(fault, old(calls), "deployment", u.name) + DeleteError(fault, old(calls) + 1, "service", u.name)
      ensures calls == old(calls) + 2 && (errs == [] <==> NoFaults(fault, old(calls), old(calls) + 2))
      ensures fault(old(calls)).Some? ==> ("delete deployment " + u.name + ": " + fault(old(calls)).value.text) in errs
      ensures fault(old(calls) + 1).Some? ==> ("delete service " + u.name + ": " + fault(old(calls) + 1).value.text) in errs
      ensures errs == [] ==> Key(namespace, u.name) !in deployments && Key(namespace, u.name) !in services
    {
      errs := [];
      var key := Key(namespace, u.name);
      var err, done := Call();
      if done {
        deployments := deployments - {key};
      }
      if err.Some? {
        assert "delete " + "deployment" + " " == "delete deployment ";
        errs := errs + ["delete deployment " + u.name + ": " + err.value];
      }
      err, done := Call();
      if done {
        services := services - {key};
      }
      if err.Some? {
        assert "delete " + "service" + " " == "delete service ";
        errs := errs + ["delete service " + u.name + ": " + err.value];
      }
    }

    /** Both deletes are attempted for every unit, whatever fails. */
    method Teardown(namespace: string, units: seq<Unit>) returns (errs: seq<string>)
      modifies this`calls, this`deployments, this`services
      ensures Contents() == UnitsGone(old(Contents()), fault, namespace, units)
      ensures errs == TeardownErrors(fault, old(calls), units)
    {
      errs := [];
      ghost var start := Contents();
      for i := 0 to |units|
        invariant TornDownUpTo(start, fault, namespace, units, i, Contents(), errs)
      {
        OneMoreTornDown(start, fault, namespace, units, i, Contents(), errs);
        var more := TeardownUnit(namespace, units[i]);
        errs := errs + more;
      }
      assert units[..|units|] == units;
    }
  }
}
