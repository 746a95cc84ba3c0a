/** From the conditions kapp-controller reports on a Package's App to the status
    stored on the Package. */
module PackageStatus {
  import opened Prelude
  import opened Conditions
  import opened StatusServer

  // ---------------------------------------------------------------------------
  // What the App reports
  // ---------------------------------------------------------------------------

  datatype ReportType = ReconcileSucceeded | ReconcileFailed | OtherType(text: string)

  /** One condition of the App. A status that is none of the three Kubernetes
      values is None. */
  datatype Report = Report(rtype: ReportType, status: Option<Status>, message: string)

  /** Times are opaque; an unset time is None. */
  datatype Deploy = Deploy(startedAt: Option<int>, updatedAt: Option<int>, finished: bool, exitCode: int, error: string)

  datatype App = App(
    namespace: string, name: string, reports: seq<Report>, usefulErrorMessage: string, deploy: Option<Deploy>)

  datatype ApplicationPhase = AppPending | AppReady | AppFailed

  datatype ApplicationState = ApplicationState(
    name: string, namespace: string, phase: ApplicationPhase, message: string,
    deployStartedAt: Option<int>, deployUpdatedAt: Option<int>, deployFinished: bool, deployExitCode: Option<int>)

  predicate Decisive(r: Report) {
    || (r.rtype.ReconcileSucceeded? && r.status.Some?)
    || (r.rtype.ReconcileFailed? && r.status == Some(Status.True))
  }

  predicate Failing(r: Report) {
    || (r.rtype.ReconcileSucceeded? && r.status == Some(Status.False))
    || (r.rtype.ReconcileFailed? && r.status == Some(Status.True))
  }

  predicate Succeeding(r: Report) {
    r.rtype.ReconcileSucceeded? && r.status == Some(Status.True)
  }

  /** The last report in list order that satisfies p. */
  function LastReport(reports: seq<Report>, p: Report -> bool): Option<Report> {
    if reports == [] then None
    else if p(reports[|reports| - 1]) then Some(reports[|reports| - 1])
    else LastReport(reports[..|reports| - 1], p)
  }

  lemma {:induction false} LastReportIsLast(reports: seq<Report>, p: Report -> bool)
    ensures LastReport(reports, p).None? <==> forall i :: 0 <= i < |reports| ==> !p(reports[i])
    ensures LastReport(reports, p).Some? ==>
              exists i :: 0 <= i < |reports| && reports[i] == LastReport(reports, p).value && p(reports[i])
                          && forall j :: i < j < |reports| ==> !p(reports[j])
  {
    if reports != [] {
      var front := reports[..|reports| - 1];
      LastReportIsLast(front, p);
      assert forall i :: 0 <= i < |front| ==> front[i] == reports[i];
    }
  }

  /** Of a decisive report. */
  function Meaning(r: Report): ApplicationPhase {
    if Succeeding(r) then AppReady else if Failing(r) then AppFailed else AppPending
  }

  function PhaseOfReports(reports: seq<Report>): ApplicationPhase {
    match LastReport(reports, Decisive) case None => AppPending case Some(r) => Meaning(r)
  }

  /** The text of the last failing report: nothing later clears it. */
  function MessageOfReports(reports: seq<Report>, useful: string): string {
    match LastReport(reports, Failing)
    case None => ""
    case Some(r) => if r.rtype.ReconcileFailed? && useful != "" then useful else r.message
  }

  /** The loop over the conditions. */
  method FoldReports(reports: seq<Report>, useful: string) returns (phase: ApplicationPhase, message: string)
    ensures phase == PhaseOfReports(reports)
    ensures message == MessageOfReports(reports, useful)
  {
    phase, message := AppPending, "";
    for i := 0 to |reports|
      invariant phase == PhaseOfReports(reports[..i])
      invariant message == MessageOfReports(reports[..i], useful)
    {
      assert reports[..i + 1][..i] == reports[..i];
      var cond := reports[i];
      match cond.rtype {
        case ReconcileSucceeded =>
          match cond.status {
            case Some(True) => phase := AppReady;
            case Some(False) => phase, message := AppFailed, cond.message;
            case Some(Unknown) => phase := AppPending;
            case None =>
          }
        case ReconcileFailed =>
          if cond.status == Some(Status.True) {
            phase, message := AppFailed, cond.message;
            if useful != "" {
              message := useful;
            }
          }
        case OtherType(_) =>
      }
    }
    assert reports[..|reports|] == reports;
  }

  /** The deploy error stands in for the reports' text when there is no useful message. */
  predicate ShowsDeployError(app: App) {
    app.deploy.Some? && app.deploy.value.error != "" && app.usefulErrorMessage == ""
  }

  function MessageOf(app: App): string {
    if ShowsDeployError(app) then app.deploy.value.error else MessageOfReports(app.reports, app.usefulErrorMessage)
  }

  method ApplicationStateFromApp(app: App) returns (state: ApplicationState)
    ensures state.name == app.name && state.namespace == app.namespace
    ensures state.phase == PhaseOfReports(app.reports)
    ensures state.message == MessageOf(app)
    ensures app.deploy.None? ==> state.deployStartedAt == state.deployUpdatedAt == None
                                 && !state.deployFinished && state.deployExitCode == None
    ensures app.deploy.Some? ==>
              var d := app.deploy.value;
              && state.deployStartedAt == d.startedAt && state.deployUpdatedAt == d.updatedAt
              && state.deployFinished == d.finished
              && state.deployExitCode == (if d.exitCode != 0 then Some(d.exitCode) else None)
  {
    var phase, message := FoldReports(app.reports, app.usefulErrorMessage);
    state := ApplicationState(app.name, app.namespace, phase, message, None, None, false, None);
    if app.deploy.Some? {
      var d := app.deploy.value;
      if d.startedAt.Some? {
        state := state.(deployStartedAt := d.startedAt);
      }
      if d.updatedAt.Some? {
        state := state.(deployUpdatedAt := d.updatedAt);
      }
      state := state.(deployFinished := d.finished);
      if d.exitCode != 0 {
        state := state.(deployExitCode := Some(d.exitCode));
      }
      if d.error != "" && app.usefulErrorMessage == "" {
        state := state.(message := d.error);
      }
    }
  }

  lemma {:induction false} LastReportConcat(xs: seq<Report>, ys: seq<Report>, p: Report -> bool)
    ensures LastReport(xs + ys, p) == if LastReport(ys, p).Some? then LastReport(ys, p) else LastReport(xs, p)
    decreases |ys|
  {
    if ys == [] {
      assert xs + ys == xs;
    } else {
      LastReportConcat(xs, ys[..|ys| - 1], p);
      assert (xs + ys)[..|xs| + |ys| - 1] == xs + ys[..|ys| - 1];
    }
  }

  /** Reports that are not decisive can stand anywhere in the list. */
  lemma OnlyDecisiveReportsCount(xs: seq<Report>, ys: seq<Report>, extra: Report)
    requires !Decisive(extra)
    ensures PhaseOfReports(xs + [extra] + ys) == PhaseOfReports(xs + ys)
  {
    LastReportConcat(xs, [extra], Decisive);
    LastReportConcat(xs + [extra], ys, Decisive);
    LastReportConcat(xs, ys, Decisive);
  }

  /** Report i is the last of its list that satisfies p. */
  ghost predicate LastAt(reports: seq<Report>, p: Report -> bool, i: nat) {
    i < |reports| && p(reports[i]) && forall j :: i < j < |reports| ==> !p(reports[j])
  }

  /** An App is Ready exactly when a success is listed after every other decisive
      report, the failures among them included. */
  lemma ReadyIffSuccessComesLast(reports: seq<Report>)
    ensures PhaseOfReports(reports).AppReady? <==>
            exists i :: 0 <= i < |reports| && Succeeding(reports[i]) && LastAt(reports, Decisive, i)
  {
    LastReportIsLast(reports, Decisive);
    if last :| 0 <= last < |reports| && LastAt(reports, Decisive, last) && reports[last] == LastReport(reports, Decisive).value {
      assert forall i :: 0 <= i < |reports| && LastAt(reports, Decisive, i) ==> i == last;
    }
  }

  /** For every App, whatever its phase: the message is not empty exactly when a
      deploy error is shown, or the last failing report has a text of its own, or is
      a ReconcileFailed beside a useful message; and it is just that text, the useful
      one first. */
  lemma MessageIff(app: App)
    ensures MessageOf(app) != "" <==>
            || ShowsDeployError(app)
            || exists i :: 0 <= i < |app.reports| && LastAt(app.reports, Failing, i)
                           && (app.reports[i].message != "" || (app.reports[i].rtype.ReconcileFailed? && app.usefulErrorMessage != ""))
    ensures ShowsDeployError(app) ==> app.deploy.Some? && MessageOf(app) == app.deploy.value.error != ""
    ensures !ShowsDeployError(app) ==>
              forall i :: 0 <= i < |app.reports| && LastAt(app.reports, Failing, i) ==>
                MessageOf(app) == if app.reports[i].rtype.ReconcileFailed? && app.usefulErrorMessage != "" then app.usefulErrorMessage
                                  else app.reports[i].message
  {
    LastReportIsLast(app.reports, Failing);
    if last :| 0 <= last < |app.reports| && LastAt(app.reports, Failing, last) && app.reports[last] == LastReport(app.reports, Failing).value {
      assert forall i :: 0 <= i < |app.reports| && LastAt(app.reports, Failing, i) ==> i == last;
    }
  }

  /** So an App that is Ready still carries a failure's text exactly when it failed
      earlier in its list with such a text, or shows a deploy error. */
  lemma SuccessAfterFailureKeepsItsText(app: App)
    requires PhaseOfReports(app.reports).AppReady?
    ensures MessageOf(app) != "" <==>
            || ShowsDeployError(app)
            || exists i, k :: 0 <= i < k < |app.reports| && LastAt(app.reports, Failing, i) && LastAt(app.reports, Decisive, k)
                              && (app.reports[i].message != "" || (app.reports[i].rtype.ReconcileFailed? && app.usefulErrorMessage != ""))
  {
    MessageIff(app);
    ReadyIffSuccessComesLast(app.reports);
    var k :| 0 <= k < |app.reports| && Succeeding(app.reports[k]) && LastAt(app.reports, Decisive, k);
    forall i | 0 <= i < |app.reports| && LastAt(app.reports, Failing, i) ensures i < k {
      assert Decisive(app.reports[i]) && !Failing(app.reports[k]);
    }
  }

  // ---------------------------------------------------------------------------
  // From the observed state to a result
  // ---------------------------------------------------------------------------

  datatype PackagePhase =
    | PackagePending | PackageApplied | PackageDrifted | PackageFailed | PackageDisabled
    | PackageReconciling | PackageReady | PackageSucceeded | PackageUnknown

  datatype KappResult = KappResult(
    name: string, namespace: string, executed: bool,
    deployStartedAt: Option<int>, deployUpdatedAt: Option<int>, deployFinished: bool, deployExitCode: Option<int>,
    action: string, diff: string)

  datatype PackageResult = PackageResult(
    success: bool, phase: PackagePhase, message: string, desiredRef: string, desiredCommit: string,
    kapp: KappResult, startedAt: Option<int>, finishedAt: Option<int>)

  const NO_KAPP := KappResult("", "", false, None, None, false, None, "", "")

  function PackageResultFromApplicationState(state: ApplicationState): PackageResult {
    PackageResult(
      state.phase.AppReady?,
      match state.phase case AppReady => PackageSucceeded case AppFailed => PackageFailed case AppPending => PackagePending,
      state.message, "", "",
      KappResult(state.name, state.namespace, false, state.deployStartedAt, state.deployUpdatedAt,
                 state.deployFinished, state.deployExitCode, "", ""),
      None, None)
  }

  function FailedResult(start: int, text: string, finish: int): PackageResult {
    PackageResult(false, PackageFailed, text, "", "", NO_KAPP, Some(start), Some(finish))
  }

  // ---------------------------------------------------------------------------
  // From a result to the stored status
  // ---------------------------------------------------------------------------

  datatype ContractStatus = ContractStatus(
    phase: PackagePhase, success: bool, message: string, desiredRef: string, desiredCommit: string,
    action: string, diff: string, executed: bool, startedAt: Option<int>, finishedAt: Option<int>)

  /** A provider that fails may return no result. */
  function Given(result: Option<PackageResult>): PackageResult {
    match result
    case Some(r) => r
    case None => PackageResult(false, PackageUnknown, "", "", "", NO_KAPP, None, None)
  }

  function ContractOf(result: Option<PackageResult>, runErr: Option<string>): ContractStatus {
    var r := Given(result);
    var c := ContractStatus(r.phase, r.success, r.message, r.desiredRef, r.desiredCommit,
                            r.kapp.action, r.kapp.diff, r.kapp.executed, r.startedAt, r.finishedAt);
    match runErr
    case None => c
    case Some(text) => c.(phase := PackageFailed, success := false, message := text)
  }

  /** The contract keeps what the provider told of the desired state and of the run, and
      its times; a run error overrides phase, success and message alone. */
  lemma ContractKeepsTheRest(result: Option<PackageResult>, runErr: Option<string>)
    ensures var c := ContractOf(result, runErr);
            && (result.Some? ==>
                var r := result.value;
                && c.desiredRef == r.desiredRef && c.desiredCommit == r.desiredCommit
                && c.action == r.kapp.action && c.diff == r.kapp.diff && c.executed == r.kapp.executed
                && c.startedAt == r.startedAt && c.finishedAt == r.finishedAt
                && (runErr.None? ==> c.phase == r.phase && c.success == r.success && c.message == r.message))
            && (result.None? ==> !c.success && !c.executed && c.startedAt == c.finishedAt == None && c.desiredRef == c.desiredCommit == "")
            && (runErr.Some? ==> c.phase.PackageFailed? && !c.success && c.message == runErr.value)
  {
  }

  predicate Running(result: Option<PackageResult>) {
    Given(result).kapp.executed && !Given(result).kapp.deployFinished
  }

  function ConditionOf(result: Option<PackageResult>, runErr: Option<string>, now: int): Condition {
    var r := Given(result);
    if Running(result) then
      Condition("Running", Status.True, "PackageDeploying", "Package deployment in progress", 0, now)
    else if runErr.Some? then
      Condition("Succeeded", Status.False, "PackageFailed", runErr.value, 0, now)
    else if r.success then
      Condition("Succeeded", Status.True, "PackageApplied", r.message, 0, now)
    else if r.phase.PackagePending? || r.phase.PackageUnknown? then
      Condition("Succeeded", Status.Unknown, "PackagePending", "Package is being applied", 0, now)
    else
      Condition("Succeeded", Status.False, "PackageFailed", r.message, 0, now)
  }

  function Applied(result: Option<PackageResult>, runErr: Option<string>, now: int): Stored<ContractStatus> -> Stored<ContractStatus> {
    (s: Stored<ContractStatus>) => Stored(Some(ContractOf(result, runErr)), Merge(s.conditions, ConditionOf(result, runErr, now)))
  }

  /** pkg is the caller's copy of the Package's status: it is changed first, and
      stays changed when the stored status could not be written. */
  method Write(
      server: Server<ContractStatus>, me: nat, pkg: Stored<ContractStatus>,
      result: Option<PackageResult>, runErr: Option<string>, now: int)
    returns (err: Option<ApiError>, pkg': Stored<ContractStatus>, ghost landed: Option<nat>)
    requires server.Valid()
    modifies server
    ensures pkg' == Applied(result, runErr, now)(pkg)
    ensures server.Valid() && WroteAt(old(server.history), server.history, me, Applied(result, runErr, now), landed)
    ensures landed.Some? <==> (err.None? || err == Some(ReplyLost))
    ensures Answered(old(server.answers), server.answers, err)
  {
    var contract, condition := ContractOf(result, runErr), ConditionOf(result, runErr, now);
    pkg' := Stored(Some(contract), Merge(pkg.conditions, condition));
    err, landed := server.UpdateWithRetry(me, Applied(result, runErr, now));
  }

  // ---------------------------------------------------------------------------
  // What the condition says
  // ---------------------------------------------------------------------------

  /** For every result and run error. */
  lemma ConditionTellsTheOutcome(result: Option<PackageResult>, runErr: Option<string>, now: int)
    ensures var c, contract := ConditionOf(result, runErr, now), ContractOf(result, runErr);
            && (contract.success <==> result.Some? && result.value.success && runErr.None?)
            && (c.ctype == "Succeeded" <==> !Running(result))
            && (c.ctype == "Succeeded" && c.status.True? <==> contract.success && !Running(result))
            && (c.ctype == "Succeeded" && c.status.Unknown? <==>
                !contract.success && !Running(result) && (contract.phase.PackagePending? || contract.phase.PackageUnknown?))
            && c.transitioned == now
            && (c.ctype == "Succeeded" && !c.status.Unknown? ==> c.message == contract.message)
            && (runErr.Some? ==> contract.message == runErr.value && contract.phase.PackageFailed?)
            && (runErr.None? && result.Some? ==> contract.message == result.value.message && contract.phase == result.value.phase)
  {
    assert "Running" != "Succeeded" by { assert |"Running"| != |"Succeeded"|; }
  }

  /** Carried through from the App: True, False and Unknown each mean exactly one
      thing about the last decisive report. */
  lemma SucceededFollowsTheLastDecisiveReport(app: App, state: ApplicationState, stamps: (int, int), runErr: Option<string>, now: int)
    requires state.phase == PhaseOfReports(app.reports)
    ensures var result := PackageResultFromApplicationState(state).(startedAt := Some(stamps.0), finishedAt := Some(stamps.1));
            var contract, c := ContractOf(Some(result), runErr), ConditionOf(Some(result), runErr, now);
            var last := LastReport(app.reports, Decisive);
            && c.ctype == "Succeeded"
            && (contract.success <==> runErr.None? && last.Some? && Succeeding(last.value))
            && (c.status.True? <==> contract.success)
            && (c.status.False? <==> runErr.Some? || (last.Some? && Failing(last.value)))
            && (c.status.Unknown? <==> runErr.None? && (last.None? || last.value.status == Some(Status.Unknown)))
  {
    var last := LastReport(app.reports, Decisive);
    LastReportIsLast(app.reports, Decisive);
    if last.Some? {
      assert Decisive(last.value);
      match last.value.status.value {
        case True =>
        case False =>
        case Unknown =>
      }
    }
  }

  // ---------------------------------------------------------------------------
  // Histories
  // ---------------------------------------------------------------------------

  /** What made a change of the stored object: a run whose write landed, or anyone else. */
  datatype Step = Run(result: Option<PackageResult>, err: Option<string>, at: int) | Foreign

  /** Others do not write the contract or the Succeeded condition. */
  ghost predicate Explains(step: Step, c: Commit<ContractStatus>) {
    match step
    case Foreign => LeavesType(c, "Succeeded") && c.after.value.contract == c.before.value.contract
    case Run(result, err, at) => c.before.Some? && c.after == Some(Applied(result, err, at)(c.before.value))
  }

  predicate SaysSucceeded(s: Stored<ContractStatus>) {
    var c := Lookup(s.conditions, "Succeeded");
    c.Some? && c.value.status.True?
  }

  /** The two halves of the status tell the same story. */
  predicate Agree(s: Stored<ContractStatus>) {
    s.contract.Some? ==> (s.contract.value.success <==> SaysSucceeded(s))
  }

  /** One write keeps or restores agreement, unless it reports a running deploy
      over an older Succeeded that says something else. */
  lemma WriteAgreesIff(s: Stored<ContractStatus>, result: Option<PackageResult>, err: Option<string>, at: int)
    ensures Agree(Applied(result, err, at)(s)) <==>
            !Running(result) || (ContractOf(result, err).success <==> SaysSucceeded(s))
  {
    MergeLookup(s.conditions, ConditionOf(result, err, at), "Succeeded");
    ConditionTellsTheOutcome(result, err, at);
  }

  /** Over every history of the stored object in which no run reports a running
      deploy (none of the providers ever does), contract success and the Succeeded
      condition agree. */
  lemma {:induction false} ContractAndConditionAgree(
      steps: seq<Step>, origin: Option<Stored<ContractStatus>>, history: seq<Commit<ContractStatus>>, current: Option<Stored<ContractStatus>>)
    requires origin.Some? && Agree(origin.value) && Chained(origin, history, current)
    requires |steps| == |history| && forall i :: 0 <= i < |steps| ==> Explains(steps[i], history[i])
    requires forall i :: 0 <= i < |steps| ==> steps[i].Run? ==> !Running(steps[i].result)
    ensures current.Some? && Agree(current.value)
    decreases |steps|
  {
    if steps != [] {
      var n := |steps| - 1;
      ContractAndConditionAgree(steps[..n], origin, history[..n], history[n].before);
      match steps[n] {
        case Foreign =>
        case Run(result, err, at) => WriteAgreesIff(history[n].before.value, result, err, at);
      }
    }
  }

  // ---------------------------------------------------------------------------
  // PackageProvider.Execute and PackageService.Reconcile
  // ---------------------------------------------------------------------------

  /** The App object of one Package. kapp-controller writes its status; how the
      provider's own calls end is up to the API server. */
  class AppObject {
    var app: Option<App>

    method Patch(namespace: string, name: string, failure: Option<Fault>)
      modifies this
      ensures CarriedOut(failure) ==>
                && app.Some? && app.value.namespace == namespace && app.value.name == name
                && (old(app).Some? ==> app.value == old(app).value.(namespace := namespace, name := name))
      ensures !CarriedOut(failure) ==> app == old(app)
    {
      if CarriedOut(failure) {
        app := Some(match app
                    case Some(a) => a.(namespace := namespace, name := name)
                    case None => App(namespace, name, [], "", None));
      }
    }

    /** kapp-controller reports anything, or someone deletes the App. */
    method ControllerActs()
      modifies this
    {
      var reports: seq<Report> := *;
      var useful: string := *;
      var deploy: Option<Deploy> := *;
      var gone: bool := *;
      if gone {
        app := None;
      } else if app.Some? {
        app := Some(app.value.(reports := reports, usefulErrorMessage := useful, deploy := deploy));
      }
    }

    method Fetch(failure: Option<Fault>) returns (r: Result<App, string>)
      ensures r == match failure
                   case Some(f) => Err(f.text)
                   case None => match app case Some(a) => Ok(a) case None => Err("not found")
    {
      if failure.Some? {
        return Err(failure.value.text);
      }
      return match app case Some(a) => Ok(a) case None => Err("not found");
    }
  }

  /** seen is the App the result was read from, when there was no error. */
  method Execute(obj: AppObject, namespace: string, name: string, start: int, finish: int, patchErr: Option<Fault>, getErr: Option<Fault>)
    returns (result: PackageResult, err: Option<string>, ghost seen: Option<App>)
    modifies obj
    ensures err == if patchErr.Some? then ErrorText(patchErr)
                   else if getErr.Some? then ErrorText(getErr)
                   else if obj.app.None? then Some("not found") else None
    ensures patchErr.Some? && !CarriedOut(patchErr) ==> obj.app == old(obj.app)
    ensures err.Some? ==> seen.None? && result == FailedResult(start, err.value, finish)
    ensures err.Some? ==> !result.success && result.phase.PackageFailed? && result.message == err.value && !result.kapp.executed
    ensures result.startedAt == Some(start) && result.finishedAt == Some(finish)
    ensures err.None? ==>
              && seen.Some?
              && var app := seen.value;
              && result.message == MessageOf(app) && result.kapp.name == app.name && result.kapp.namespace == app.namespace
              && result.kapp.deployFinished == (app.deploy.Some? && app.deploy.value.finished)
              && result.kapp.deployExitCode == (if app.deploy.Some? && app.deploy.value.exitCode != 0 then Some(app.deploy.value.exitCode) else None)
              && result.kapp.deployStartedAt == (if app.deploy.Some? then app.deploy.value.startedAt else None)
              && result.kapp.deployUpdatedAt == (if app.deploy.Some? then app.deploy.value.updatedAt else None)
    ensures err.None? ==>
              && seen.Some? && seen == obj.app
              && !result.kapp.executed
              && (result.success <==> PhaseOfReports(seen.value.reports).AppReady?)
              && (result.phase.PackageFailed? <==> PhaseOfReports(seen.value.reports).AppFailed?)
              && (result.phase.PackagePending? <==> PhaseOfReports(seen.value.reports).AppPending?)
  {
    seen := None;
    obj.Patch(namespace, name, patchErr);
    if patchErr.Some? {
      return FailedResult(start, patchErr.value.text, finish), ErrorText(patchErr), None;
    }
    obj.ControllerActs();
    var fetched := obj.Fetch(getErr);
    if fetched.Err? {
      return FailedResult(start, fetched.error, finish), Some(fetched.error), None;
    }
    err, seen := None, Some(fetched.value);
    var state := ApplicationStateFromApp(fetched.value);
    result := PackageResultFromApplicationState(state).(startedAt := Some(start), finishedAt := Some(finish));
  }

  /** The stored contract has the times of this run, and the error of the first call that
      failed or else what the observed App says. */
  predicate Tells(
      contract: Option<ContractStatus>, app: Option<App>, patchErr: Option<Fault>, getErr: Option<Fault>, start: int, finish: int)
  {
    && contract.Some? && contract.value.startedAt == Some(start) && contract.value.finishedAt == Some(finish)
    && !contract.value.executed
    && contract.value.message ==
       (if patchErr.Some? then patchErr.value.text
        else if getErr.Some? then getErr.value.text
        else if app.None? then "not found" else MessageOf(app.value))
    && (patchErr.Some? || getErr.Some? || app.None? ==> contract.value.phase.PackageFailed? && !contract.value.success)
  }

  datatype ServiceError = InvalidSpec | NoProvider | WriteFailed(error: ApiError)

  /** Without a Package, an intent or a provider nothing happens. Otherwise a status
      write that landed leaves contract success and the Succeeded condition agreeing,
      and True exactly when no call failed and the last decisive report of the App it
      saw is a success; it is one step of the histories above. A failed execution is
      told by the status only: the service returns the error of the write alone. */
  method Reconcile(
      obj: AppObject, server: Server<ContractStatus>, me: nat, pkg: Option<Stored<ContractStatus>>, intent: Option<(string, string)>,
      configured: bool, start: int, finish: int, patchErr: Option<Fault>, getErr: Option<Fault>)
    returns (err: Option<ServiceError>, pkg': Option<Stored<ContractStatus>>, ghost step: Option<Step>, ghost landed: Option<nat>)
    requires server.Valid()
    modifies obj, server
    ensures server.Valid()
    ensures err == Some(InvalidSpec) <==> pkg.None? || intent.None?
    ensures err == Some(NoProvider) <==> pkg.Some? && intent.Some? && !configured
    ensures step.None? <==> err == Some(InvalidSpec) || err == Some(NoProvider)
    ensures step.None? ==> obj.app == old(obj.app) && server.history == old(server.history) && pkg' == pkg && landed.None?
    ensures step.Some? ==>
              && step.value.Run? && !Running(step.value.result)
              && WroteAt(old(server.history), server.history, me, Applied(step.value.result, step.value.err, step.value.at), landed)
              && (landed.Some? <==> (err.None? || err == Some(WriteFailed(ReplyLost))))
              && Answered(old(server.answers), server.answers,
                          match err case Some(WriteFailed(e)) => Some(e) case _ => None)
              && pkg' == Some(Applied(step.value.result, step.value.err, step.value.at)(pkg.value))
    ensures landed.Some? ==>
              var c := server.history[landed.value];
              && Explains(step.value, c) && Agree(c.after.value)
              && (SaysSucceeded(c.after.value) <==>
                  patchErr.None? && getErr.None? && obj.app.Some? && PhaseOfReports(obj.app.value.reports).AppReady?)
              && Tells(c.after.value.contract, obj.app, patchErr, getErr, start, finish)
  {
    pkg', step, landed := pkg, None, None;
    if pkg.None? || intent.None? {
      return Some(InvalidSpec), pkg', None, None;
    }
    if !configured {
      return Some(NoProvider), pkg', None, None;
    }
    var result, runErr, copy, writeErr;
    ghost var seen;
    result, runErr, seen := Execute(obj, intent.value.0, intent.value.1, start, finish, patchErr, getErr);
    writeErr, copy, landed := Write(server, me, pkg.value, Some(result), runErr, finish);
    step := Some(Step.Run(Some(result), runErr, finish));
    if landed.Some? {
      WriteAgreesIff(server.history[landed.value].before.value, Some(result), runErr, finish);
    }
    return match writeErr case None => None case Some(e) => Some(WriteFailed(e)), Some(copy), step, landed;
  }
}
