/** What a run of a Deployment leaves in its stored conditions, over every history
    of runs and of writes by others. */
module DeploymentStatus {
  import opened Prelude
  import opened Conditions
  import opened DeploymentDomain
  import opened StatusServer

  function DeriveCondition(result: Option<DeploymentResult>, runErr: Option<Error>, now: int): Option<Condition> {
    if runErr.Some? then
      Some(Condition("Ready", Status.False, "DeploymentFailed", Text(runErr.value), 0, now))
    else match result
      case None => None
      case Some(r) =>
        if r.phase.PhaseReady? then Some(Condition("Ready", Status.True, "DeploymentReady", r.message, 0, now))
        else Some(Condition("Reconciling", Status.True, "DeploymentReconciling", r.message, 0, now))
  }

  /** For every result and run error: a failure's text stands under Ready=False, whatever
      the result; without one, Ready=True stands for phase Ready and Reconciling=True for
      any other, each with the result's message. */
  lemma ConditionTellsTheRun(result: Option<DeploymentResult>, runErr: Option<Error>, now: int)
    ensures var c := DeriveCondition(result, runErr, now);
            && (c.None? <==> result.None? && runErr.None?)
            && (c.Some? ==> c.value.transitioned == now && c.value.observedGeneration == 0)
            && (runErr.Some? ==> c.value.ctype == "Ready" && c.value.status.False? && c.value.message == Text(runErr.value))
            && (runErr.None? && result.Some? ==>
                && c.value.status.True? && c.value.message == result.value.message
                && (c.value.ctype == "Ready" <==> result.value.phase.PhaseReady?)
                && (c.value.ctype == "Reconciling" <==> !result.value.phase.PhaseReady?))
  {
    assert |"Ready"| != |"Reconciling"|;
  }

  /** One attempt's change: the contract when there is a result, and the condition. */
  function Applied(result: Option<DeploymentResult>, c: Condition): Stored<DeploymentResult> -> Stored<DeploymentResult> {
    (s: Stored<DeploymentResult>) =>
      Stored(if result.Some? then result else s.contract, Merge(s.conditions, c))
  }

  method WriteDeploymentResult(
      server: Server<DeploymentResult>, me: nat, result: Option<DeploymentResult>, runErr: Option<Error>, now: int)
    returns (err: Option<ApiError>, ghost landed: Option<nat>)
    requires server.Valid()
    modifies server
    ensures server.Valid()
    ensures result.None? && runErr.None? ==>
              err.None? && landed.None? && server.history == old(server.history) && server.current == old(server.current)
    ensures result.Some? || runErr.Some? ==>
              && DeriveCondition(result, runErr, now).Some?
              && WroteAt(old(server.history), server.history, me, Applied(result, DeriveCondition(result, runErr, now).value), landed)
              && (landed.Some? <==> (err.None? || err == Some(ReplyLost)))
              && Answered(old(server.answers), server.answers, err)
    ensures landed.Some? ==>
              var c := server.history[landed.value];
              && c.before.Some? && c.after.Some? && (result.Some? || runErr.Some?)
              && c.after.value.contract == (if result.Some? then result else c.before.value.contract)
              && (runErr.Some? ==>
                  var ready := Lookup(c.after.value.conditions, "Ready");
                  ready.Some? && ready.value.status.False? && ready.value.message == Text(runErr.value) && ready.value.transitioned == now)
              && (runErr.None? ==>
                  var told := Lookup(c.after.value.conditions, if result.value.phase.PhaseReady? then "Ready" else "Reconciling");
                  told.Some? && told.value.status.True? && told.value.message == result.value.message && told.value.transitioned == now)
  {
    var condition := DeriveCondition(result, runErr, now);
    if condition.None? {
      return None, None;
    }
    err, landed := server.UpdateWithRetry(me, Applied(result, condition.value));
    if landed.Some? {
      MergeLookup(server.history[landed.value].before.value.conditions, condition.value, condition.value.ctype);
    }
  }

  // ---------------------------------------------------------------------------
  // Histories
  // ---------------------------------------------------------------------------

  /** What made a change of the stored object: a run whose write landed, or anyone else. */
  datatype Step = Run(result: Option<DeploymentResult>, err: Option<Error>, at: int) | Foreign

  /** The change is what that step makes of whatever was stored. Others may do
      anything that leaves this writer's two types as they are. */
  ghost predicate Explains(step: Step, c: Commit<DeploymentResult>) {
    match step
    case Foreign => LeavesType(c, "Ready") && LeavesType(c, "Reconciling")
    case Run(result, err, at) =>
      && DeriveCondition(result, err, at).Some? && c.before.Some?
      && c.after == Some(Applied(result, DeriveCondition(result, err, at).value)(c.before.value))
  }

  /** A server's whole history, step by step. */
  ghost predicate Explained(
      steps: seq<Step>, origin: Option<Stored<DeploymentResult>>, history: seq<Commit<DeploymentResult>>, current: Option<Stored<DeploymentResult>>)
  {
    && origin.Some? && Chained(origin, history, current)
    && |steps| == |history| && forall i :: 0 <= i < |steps| ==> Explains(steps[i], history[i])
  }

  /** A run is conclusive when it ended in an error or in phase Ready. */
  predicate Conclusive(step: Step) {
    step.Run? && (step.err.Some? || (step.result.Some? && step.result.value.phase.PhaseReady?))
  }

  predicate Unfinished(step: Step) {
    step.Run? && step.err.None? && step.result.Some? && !step.result.value.phase.PhaseReady?
  }

  function LastWhere(steps: seq<Step>, p: Step -> bool): Option<Step> {
    if steps == [] then None
    else if p(steps[|steps| - 1]) then Some(steps[|steps| - 1])
    else LastWhere(steps[..|steps| - 1], p)
  }

  function ConditionOf(step: Step): Option<Condition> {
    if step.Run? then DeriveCondition(step.result, step.err, step.at) else None
  }

  /** What one change does to the two types. */
  lemma StepOnTypes(step: Step, c: Commit<DeploymentResult>)
    requires Explains(step, c)
    ensures c.before.Some? && c.after.Some?
    ensures Lookup(c.after.value.conditions, "Ready") ==
            if Conclusive(step) then ConditionOf(step) else Lookup(c.before.value.conditions, "Ready")
    ensures Lookup(c.after.value.conditions, "Reconciling") ==
            if Unfinished(step) then ConditionOf(step) else Lookup(c.before.value.conditions, "Reconciling")
  {
    if step.Run? {
      var written := ConditionOf(step).value;
      MergeLookup(c.before.value.conditions, written, "Ready");
      MergeLookup(c.before.value.conditions, written, "Reconciling");
    }
  }

  /** Over every history of the stored object, its Ready condition is the one derived
      from the most recent conclusive run, and its Reconciling condition the one
      derived from the most recent unfinished run. */
  lemma {:induction false} StoredConditionsTellTheLastRuns(
      steps: seq<Step>, origin: Option<Stored<DeploymentResult>>, history: seq<Commit<DeploymentResult>>, current: Option<Stored<DeploymentResult>>)
    requires Explained(steps, origin, history, current)
    ensures current.Some?
    ensures Lookup(current.value.conditions, "Ready") ==
            match LastWhere(steps, Conclusive) case None => Lookup(origin.value.conditions, "Ready") case Some(run) => ConditionOf(run)
    ensures Lookup(current.value.conditions, "Reconciling") ==
            match LastWhere(steps, Unfinished) case None => Lookup(origin.value.conditions, "Reconciling") case Some(run) => ConditionOf(run)
    decreases |steps|
  {
    if steps != [] {
      var n := |steps| - 1;
      StepOnTypes(steps[n], history[n]);
      StoredConditionsTellTheLastRuns(steps[..n], origin, history[..n], history[n].before);
    }
  }

  /** So when the last conclusive run failed, that is what is stored, in its own words; and
      an unfinished last run is told with its message. */
  lemma StoredConditionsSpeakForTheirRuns(
      steps: seq<Step>, origin: Option<Stored<DeploymentResult>>, history: seq<Commit<DeploymentResult>>, current: Option<Stored<DeploymentResult>>)
    requires Explained(steps, origin, history, current)
    ensures current.Some?
    ensures var ready, run := Lookup(current.value.conditions, "Ready"), LastWhere(steps, Conclusive);
            run.Some? ==>
              && run.value.Run? && ready.Some? && ready.value.transitioned == run.value.at
              && (run.value.err.Some? ==> ready.value.status.False? && ready.value.message == Text(run.value.err.value))
              && (run.value.err.None? ==>
                  ready.value.status.True? && run.value.result.Some? && ready.value.message == run.value.result.value.message)
    ensures var reconciling, run := Lookup(current.value.conditions, "Reconciling"), LastWhere(steps, Unfinished);
            run.Some? ==>
              && run.value.Run? && run.value.result.Some? && reconciling.Some? && reconciling.value.status.True?
              && reconciling.value.transitioned == run.value.at && reconciling.value.message == run.value.result.value.message
  {
    StoredConditionsTellTheLastRuns(steps, origin, history, current);
    LastWhereIsListed(steps, Conclusive);
    LastWhereIsListed(steps, Unfinished);
  }

  predicate HasResult(step: Step) {
    step.Run? && step.result.Some?
  }

  /** And where others leave the contract alone, the stored contract is the result of the
      last run that had one. */
  lemma {:induction false} StoredContractIsTheLastResult(
      steps: seq<Step>, origin: Option<Stored<DeploymentResult>>, history: seq<Commit<DeploymentResult>>, current: Option<Stored<DeploymentResult>>)
    requires Explained(steps, origin, history, current)
    requires forall i :: 0 <= i < |steps| && steps[i].Foreign? ==> history[i].after.value.contract == history[i].before.value.contract
    ensures current.Some?
    ensures current.value.contract ==
            match LastWhere(steps, HasResult) case None => origin.value.contract case Some(run) => if run.Run? then run.result else None
    decreases |steps|
  {
    if steps != [] {
      var n := |steps| - 1;
      StepOnTypes(steps[n], history[n]);
      StoredContractIsTheLastResult(steps[..n], origin, history[..n], history[n].before);
    }
  }

  /** What DeploymentService.Reconcile hands over: the failure of the result is its
      error, and the phase is folded from the units or says GitOps is reconciling. */
  predicate FromService(step: Step) {
    step.Run? ==>
      && (step.err.None? ==> step.result.Some? && !step.result.value.phase.PhaseFailed?)
      && (step.result.Some? ==> step.result.value.phase == PhaseOf(step.result.value.units) || step.result.value.phase.PhaseReconciling?)
  }

  /** The stored Ready is True only for a conclusive run that had units, all of them
      ready: never for one with a failed unit. */
  lemma ReadyMeansEveryUnitWasReady(
      steps: seq<Step>, origin: Option<Stored<DeploymentResult>>, history: seq<Commit<DeploymentResult>>, current: Option<Stored<DeploymentResult>>)
    requires Explained(steps, origin, history, current)
    requires forall i :: 0 <= i < |steps| ==> FromService(steps[i])
    ensures current.Some?
    ensures var ready, run := Lookup(current.value.conditions, "Ready"), LastWhere(steps, Conclusive);
            ready.Some? && ready.value.status.True? ==>
              || (run.None? && ready == Lookup(origin.value.conditions, "Ready"))
              || (run.Some? && run.value.Run? && run.value.err.None? && run.value.result.Some?
                  && var units := run.value.result.value.units;
                     units != [] && AllReady(units) && !AnyFailed(units))
  {
    StoredConditionsTellTheLastRuns(steps, origin, history, current);
    LastWhereIsListed(steps, Conclusive);
  }

  lemma {:induction false} LastWhereIsListed(steps: seq<Step>, p: Step -> bool)
    ensures LastWhere(steps, p).Some? ==> LastWhere(steps, p).value in steps && p(LastWhere(steps, p).value)
  {
    if steps != [] {
      LastWhereIsListed(steps[..|steps| - 1], p);
    }
  }

  /** An unfinished run leaves an older Ready as it is, True included. */
  lemma UnfinishedRunKeepsReady(run: Step, c: Commit<DeploymentResult>)
    requires Explains(run, c) && Unfinished(run)
    ensures LeavesType(c, "Ready")
  {
    StepOnTypes(run, c);
  }
}
