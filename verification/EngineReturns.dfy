/** What a call of the engine returns, and what the engine is configured to, told from
    the actions of a run alone. */
module EngineReturns {
  import opened Prelude
  import opened EngineModel
  import opened EngineInvariant

  // ---------------------------------------------------------------------------
  // Why a call returned
  // ---------------------------------------------------------------------------

  /** Action a, made in state s, is what ends call c with this result: Handle returned
      it, the breaker said no, no Domain was registered, or the context was done. */
  predicate Ends(s: State, a: Action, c: nat, err: Option<Error>) {
    match err
    case None => a == HandleReturns(c, None)
    case Some(HandleFailed(reason)) => a == HandleReturns(c, Some(reason))
    case Some(CircuitOpen(gvk)) => a == Check(c, false) && c < |s.calls| && gvk == s.calls[c].cmd.gvk
    case Some(NoDomain(gvk)) => a == LookUp(c) && c < |s.calls| && gvk == s.calls[c].cmd.gvk && gvk !in s.registry
    case Some(ContextDone) => a == Cancel(c)
  }

  lemma {:induction false} PrefixRuns(s: State, actions: seq<Action>, i: nat)
    requires Run(s, actions).Some? && i <= |actions|
    ensures Run(s, actions[..i]).Some?
    decreases i
  {
    if i > 0 {
      PrefixRuns(Step(s, actions[0]).value, actions[1..], i - 1);
      assert actions[..i][1..] == actions[1..][..i - 1];
    }
  }

  lemma LastStep(actions: seq<Action>)
    requires actions != [] && Run(INITIAL, actions).Some?
    ensures var last := |actions| - 1;
            && Run(INITIAL, actions[..last]).Some?
            && Step(Run(INITIAL, actions[..last]).value, actions[last]) == Run(INITIAL, actions)
  {
    var last := |actions| - 1;
    PrefixRuns(INITIAL, actions, last);
    var s := Run(INITIAL, actions[..last]).value;
    RunConcat(INITIAL, actions[..last], [actions[last]]);
    assert actions[..last] + [actions[last]] == actions;
    assert Step(s, actions[last]).Some? ==> Run(Step(s, actions[last]).value, []) == Step(s, actions[last]);
  }

  ghost predicate EndedBy(actions: seq<Action>, i: nat, c: nat, err: Option<Error>) {
    && i < |actions| && Run(INITIAL, actions[..i]).Some?
    && Ends(Run(INITIAL, actions[..i]).value, actions[i], c, err)
  }

  ghost predicate ReturnedWith(s: State, c: nat, err: Option<Error>) {
    c < |s.calls| && s.calls[c].stage == Returned(err)
  }

  /** A call that has just been made, or was taken by a worker, has not returned. */
  lemma NewCallRuns(s: State, a: Action, c: nat)
    requires Step(s, a).Some? && c >= |s.calls| && c < |Step(s, a).value.calls|
    ensures !Step(s, a).value.calls[c].stage.Returned?
  {
  }

  lemma TakenCallRuns(s: State, w: nat)
    requires Step(s, Take(w)).Some?
    ensures s.queue[0] < |s.calls| && Step(s, Take(w)).value.calls[s.queue[0]].stage.Entered?
  {
  }

  lemma ForeignStepReturns(s: State, a: Action, c: nat, err: Option<Error>)
    requires Channel(s) && Step(s, a).Some? && !OnCall(a, c)
    ensures ReturnedWith(Step(s, a).value, c, err) <==> ReturnedWith(s, c, err)
  {
    if c >= |s.calls| {
      if c < |Step(s, a).value.calls| {
        NewCallRuns(s, a, c);
      }
    } else if a.Take? && s.queue != [] && s.queue[0] == c {
      FrontIsQueued(s);
      TakenCallRuns(s, a.w);
    } else {
      OnlyOneCallMoves(s, a, c);
    }
  }

  lemma OwnStepIsOfACall(s: State, a: Action, c: nat)
    requires Step(s, a).Some? && OnCall(a, c)
    ensures c < |s.calls|
  {
  }

  /** One step: a result is final, and a new one is what the step ends the call with. */
  lemma StepReturns(s: State, a: Action, c: nat, err: Option<Error>)
    requires Channel(s) && Step(s, a).Some?
    ensures ReturnedWith(Step(s, a).value, c, err) <==> ReturnedWith(s, c, err) || Ends(s, a, c, err)
  {
    EndsIsOwn(s, a, c, err);
    if OnCall(a, c) {
      OwnStepIsOfACall(s, a, c);
      OwnStepReturns(s, a, c, err);
    } else {
      ForeignStepReturns(s, a, c, err);
    }
  }

  lemma EndsIsOwn(s: State, a: Action, c: nat, err: Option<Error>)
    ensures Ends(s, a, c, err) ==> OnCall(a, c)
  {
  }

  lemma MoveReturns(s: State, a: Action, c: nat, err: Option<Error>)
    requires c < |s.calls| && OnCall(a, c) && CallMoves(s, a, c).Some?
    ensures !s.calls[c].stage.Returned?
    ensures CallMoves(s, a, c).value.1 == Returned(err) <==> Ends(s, a, c, err)
  {
  }

  lemma OwnStepReturns(s: State, a: Action, c: nat, err: Option<Error>)
    requires c < |s.calls| && OnCall(a, c) && Step(s, a).Some?
    ensures !s.calls[c].stage.Returned?
    ensures ReturnedWith(Step(s, a).value, c, err) <==> Ends(s, a, c, err)
  {
    if !a.Send? {
      assert Step(s, a) == CallStep(s, a, c);
      MoveReturns(s, a, c, err);
    }
  }

  lemma EndedOneLater(actions: seq<Action>, c: nat, err: Option<Error>)
    requires actions != [] && Run(INITIAL, actions[..|actions| - 1]).Some?
    ensures var last := |actions| - 1;
            (exists i :: EndedBy(actions, i, c, err))
            <==> (exists i :: EndedBy(actions[..last], i, c, err)) || Ends(Run(INITIAL, actions[..last]).value, actions[last], c, err)
  {
    var last := |actions| - 1;
    var front := actions[..last];
    forall i | 0 <= i < last ensures EndedBy(front, i, c, err) <==> EndedBy(actions, i, c, err) {
      assert front[..i] == actions[..i];
    }
    assert EndedBy(actions, last, c, err) <==> Ends(Run(INITIAL, front).value, actions[last], c, err);
  }

  /** Over every run, a call has returned err exactly when some action of the run ended
      it so. In particular Handle's own result, error or nil, is what comes back. */
  lemma {:induction false} ReturnedIff(actions: seq<Action>, c: nat, err: Option<Error>)
    requires Run(INITIAL, actions).Some?
    ensures ReturnedWith(Run(INITIAL, actions).value, c, err) <==> exists i :: EndedBy(actions, i, c, err)
    decreases |actions|
  {
    if actions != [] {
      var last := |actions| - 1;
      var front := actions[..last];
      LastStep(actions);
      RunKeepsInv(INITIAL, front);
      ReturnedIff(front, c, err);
      StepReturns(Run(INITIAL, front).value, actions[last], c, err);
      EndedOneLater(actions, c, err);
    }
  }

  /** What Handle returns for a call is what that call has returned ever after. */
  lemma HandleDecides(actions: seq<Action>, i: nat, c: nat, failure: Option<string>)
    requires Run(INITIAL, actions).Some? && i < |actions| && actions[i] == HandleReturns(c, failure)
    ensures c < |Run(INITIAL, actions).value.calls|
    ensures failure.None? ==> Run(INITIAL, actions).value.calls[c].stage == Returned(None)
    ensures failure.Some? ==> Run(INITIAL, actions).value.calls[c].stage == Returned(Some(HandleFailed(failure.value)))
  {
    PrefixRuns(INITIAL, actions, i);
    var err := if failure.Some? then Some(HandleFailed(failure.value)) else None;
    assert EndedBy(actions, i, c, err);
    ReturnedIff(actions, c, err);
  }

  // ---------------------------------------------------------------------------
  // Configuration and commands
  // ---------------------------------------------------------------------------

  function LastWorkers(actions: seq<Action>): int {
    if actions == [] then 0
    else match actions[|actions| - 1]
      case SetWorkers(n) => n
      case _ => LastWorkers(actions[..|actions| - 1])
  }

  function LastBreaker(actions: seq<Action>): Option<Breaker> {
    if actions == [] then None
    else match actions[|actions| - 1]
      case SetBreaker(b) => b
      case _ => LastBreaker(actions[..|actions| - 1])
  }

  function LastRegistered(actions: seq<Action>, gvk: Gvk): Option<Domain> {
    if actions == [] then None
    else match actions[|actions| - 1]
      case Register(g, d) => if g == gvk then Some(d) else LastRegistered(actions[..|actions| - 1], gvk)
      case _ => LastRegistered(actions[..|actions| - 1], gvk)
  }

  /** The commands handed to Execute and Queue, in order, and which it was. */
  function MadeBy(a: Action): seq<(Command, bool)> {
    match a
    case CallExecute(cmd) => [(cmd, false)]
    case CallQueue(cmd) => [(cmd, true)]
    case _ => []
  }

  function CallsMade(actions: seq<Action>): seq<(Command, bool)> {
    if actions == [] then [] else CallsMade(actions[..|actions| - 1]) + MadeBy(actions[|actions| - 1])
  }

  ghost predicate MadeAs(s: State, made: seq<(Command, bool)>) {
    |s.calls| == |made| && forall c :: 0 <= c < |made| ==> s.calls[c].cmd == made[c].0 && s.calls[c].viaQueue == made[c].1
  }

  lemma StepConfigures(s: State, a: Action, gvk: Gvk)
    requires Step(s, a).Some?
    ensures var t := Step(s, a).value;
            && t.workers == (if a.SetWorkers? then a.n else s.workers)
            && t.breaker == (if a.SetBreaker? then a.breaker else s.breaker)
            && Entry(t.registry, gvk) == (if a.Register? && a.gvk == gvk then Some(a.domain) else Entry(s.registry, gvk))
  {
  }

  lemma StepMakes(s: State, a: Action, made: seq<(Command, bool)>)
    requires Step(s, a).Some? && MadeAs(s, made)
    ensures MadeAs(Step(s, a).value, made + MadeBy(a))
  {
    var t := Step(s, a).value;
    if a.CallExecute? || a.CallQueue? {
      assert t.calls[..|s.calls|] == s.calls;
    } else {
      CommandsStay(s, a);
      assert made + MadeBy(a) == made;
    }
  }

  lemma CommandsStay(s: State, a: Action)
    requires Step(s, a).Some? && !a.CallExecute? && !a.CallQueue?
    ensures var t := Step(s, a).value;
            |t.calls| == |s.calls|
            && forall c :: 0 <= c < |s.calls| ==> t.calls[c].cmd == s.calls[c].cmd && t.calls[c].viaQueue == s.calls[c].viaQueue
  {
    if a.ReadConfig? || a.Check? || a.Cancel? || a.LookUp? || a.Invoke? || a.HandleReturns? {
      assert Step(s, a) == CallStep(s, a, a.c);
      CallStepMovesStages(s, a, a.c);
    }
  }

  lemma CallStepMovesStages(s: State, a: Action, c: nat)
    requires CallStep(s, a, c).Some?
    ensures var t := CallStep(s, a, c).value;
            |t.calls| == |s.calls| && c < |s.calls| && t.calls == s.calls[c := s.calls[c].(stage := t.calls[c].stage)]
  {
  }

  /** In every reachable state the pool size, the breaker and each registration are those
      set last, and every call is for the command it was made with. */
  lemma {:induction false} ConfiguredAsLastSet(actions: seq<Action>, gvk: Gvk)
    requires Run(INITIAL, actions).Some?
    ensures var s := Run(INITIAL, actions).value;
            && s.workers == LastWorkers(actions) && s.breaker == LastBreaker(actions)
            && Entry(s.registry, gvk) == LastRegistered(actions, gvk)
            && MadeAs(s, CallsMade(actions))
    decreases |actions|
  {
    if actions != [] {
      var last := |actions| - 1;
      LastStep(actions);
      ConfiguredAsLastSet(actions[..last], gvk);
      var s := Run(INITIAL, actions[..last]).value;
      StepConfigures(s, actions[last], gvk);
      StepMakes(s, actions[last], CallsMade(actions[..last]));
    }
  }
}
