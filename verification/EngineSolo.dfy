/** What a call returns whose breaker answers and Handle are given: Queue against
    Execute. */
module EngineSolo {
  import opened Prelude
  import opened EngineModel
  import opened EngineInvariant

  /** A run in which call c makes its steps, with the breaker giving these answers
      in turn and Handle ending as given, while any other goroutines make any steps
      of theirs that do not reconfigure the engine. */
  predicate Follows(s: State, c: nat, actions: seq<Action>, answers: seq<bool>, failure: Option<string>)
    decreases |actions|
  {
    actions != [] ==>
      var a := actions[0];
      && Step(s, a).Some?
      && (Own(a, c, answers, failure) || Bystander(a, c))
      && Follows(Step(s, a).value, c, actions[1..], if Own(a, c, answers, failure) then Rest(a, answers) else answers, failure)
  }

  predicate Bystander(a: Action, c: nat) {
    !OnCall(a, c) && !a.SetWorkers? && !a.SetBreaker? && !a.Register?
  }

  function AfterAllowed(registry: map<Gvk, Domain>, gvk: Gvk, failure: Option<string>): Option<Error> {
    if gvk !in registry then Some(NoDomain(gvk)) else AfterHandle(failure)
  }

  /** The result a call is heading for, from any stage of a synchronous call. */
  function Outcome(registry: map<Gvk, Domain>, call: Call, answers: seq<bool>, failure: Option<string>): Option<Error> {
    var gvk := call.cmd.gvk;
    var blocked := Some(CircuitOpen(gvk));
    var allowed := |answers| > 0 && answers[0];
    match call.stage
    case QueueEntered => if allowed && |answers| > 1 && answers[1] then AfterAllowed(registry, gvk, failure) else blocked
    case QueueRead(_, _) => if allowed && |answers| > 1 && answers[1] then AfterAllowed(registry, gvk, failure) else blocked
    case Entered => if allowed then AfterAllowed(registry, gvk, failure) else blocked
    case Read(_) => if allowed then AfterAllowed(registry, gvk, failure) else blocked
    case Allowed => AfterAllowed(registry, gvk, failure)
    case Found(_) => AfterHandle(failure)
    case Handling(_) => AfterHandle(failure)
    case Returned(err) => err
    case _ => None
  }

  predicate Synchronous(s: State, c: nat) {
    && s.workers <= 0 && c < |s.calls|
    && match s.calls[c].stage
       case QueueRead(workers, _) => workers <= 0
       case Sending => false
       case Queued => false
       case _ => true
  }

  /** The answers left after an action, and whether the action is c's own. */
  predicate Own(a: Action, c: nat, answers: seq<bool>, failure: Option<string>) {
    match a
    case ReadConfig(d) => d == c
    case Check(d, allowed) => d == c && answers != [] && allowed == answers[0]
    case LookUp(d) => d == c
    case Invoke(d) => d == c
    case HandleReturns(d, f) => d == c && f == failure
    case _ => false
  }

  function Rest(a: Action, answers: seq<bool>): seq<bool> {
    if a.Check? && answers != [] then answers[1..] else answers
  }

  lemma MoveKeepsOutcome(s: State, c: nat, a: Action, answers: seq<bool>, failure: Option<string>)
    requires Synchronous(s, c) && Own(a, c, answers, failure) && CallMoves(s, a, c).Some?
    ensures var stage := CallMoves(s, a, c).value.1;
            && !stage.Sending? && !stage.Queued? && (stage.QueueRead? ==> stage.workers <= 0)
            && Outcome(s.registry, s.calls[c].(stage := stage), Rest(a, answers), failure)
               == Outcome(s.registry, s.calls[c], answers, failure)
  {
  }

  lemma StepKeepsOutcome(s: State, c: nat, a: Action, answers: seq<bool>, failure: Option<string>)
    requires Synchronous(s, c) && Own(a, c, answers, failure) && Step(s, a).Some?
    ensures var t := Step(s, a).value;
            && Synchronous(t, c)
            && Outcome(t.registry, t.calls[c], Rest(a, answers), failure) == Outcome(s.registry, s.calls[c], answers, failure)
  {
    assert Step(s, a) == CallStep(s, a, c);
    MoveKeepsOutcome(s, c, a, answers, failure);
  }

  lemma BystanderKeepsConfiguration(s: State, c: nat, a: Action)
    requires Bystander(a, c) && Step(s, a).Some?
    ensures Step(s, a).value.workers == s.workers && Step(s, a).value.registry == s.registry
  {
  }

  lemma SameCallSameOutcome(s: State, t: State, c: nat, answers: seq<bool>, failure: Option<string>)
    requires Synchronous(s, c) && c < |t.calls| && t.calls[c] == s.calls[c]
    requires t.workers == s.workers && t.registry == s.registry
    ensures Synchronous(t, c)
    ensures Outcome(t.registry, t.calls[c], answers, failure) == Outcome(s.registry, s.calls[c], answers, failure)
  {
  }

  lemma BystanderKeepsOutcome(s: State, c: nat, a: Action, answers: seq<bool>, failure: Option<string>)
    requires Delivery(s) && Synchronous(s, c) && Bystander(a, c) && Step(s, a).Some?
    ensures var t := Step(s, a).value;
            && Synchronous(t, c)
            && Outcome(t.registry, t.calls[c], answers, failure) == Outcome(s.registry, s.calls[c], answers, failure)
  {
    if s.queue != [] {
      FrontIsQueued(s);
    }
    OnlyOneCallMoves(s, a, c);
    BystanderKeepsConfiguration(s, c, a);
    SameCallSameOutcome(s, Step(s, a).value, c, answers, failure);
  }

  lemma {:induction false} ReturnsItsOutcome(s: State, c: nat, actions: seq<Action>, answers: seq<bool>, failure: Option<string>)
    requires Delivery(s) && Synchronous(s, c) && Follows(s, c, actions, answers, failure) && Run(s, actions).Some?
    requires c < |Run(s, actions).value.calls| && Run(s, actions).value.calls[c].stage.Returned?
    ensures Run(s, actions).value.calls[c].stage.err == Outcome(s.registry, s.calls[c], answers, failure)
    decreases |actions|
  {
    if actions != [] {
      var a := actions[0];
      var t := Step(s, a).value;
      StepKeepsDelivery(s, a);
      if Own(a, c, answers, failure) {
        StepKeepsOutcome(s, c, a, answers, failure);
        ReturnsItsOutcome(t, c, actions[1..], Rest(a, answers), failure);
      } else {
        BystanderKeepsOutcome(s, c, a, answers, failure);
        ReturnsItsOutcome(t, c, actions[1..], answers, failure);
      }
    }
  }

  /** With no workers Queue returns what Execute returns for the same command,
      whatever other goroutines do in between, exactly unless the breaker allows the
      first time it is asked and not the second. A breaker that is a function of the
      command never does that. And what that is: blocked, the missing Domain, or just
      what Handle returned. */
  lemma SynchronousQueueIsExecute(
      s: State, q: nat, x: nat, queueRun: seq<Action>, executeRun: seq<Action>,
      first: bool, second: bool, failure: Option<string>)
    requires Delivery(s) && s.workers <= 0 && q < |s.calls| && x < |s.calls|
    requires s.calls[q].stage == QueueEntered && s.calls[x].stage == Entered && s.calls[q].cmd == s.calls[x].cmd
    requires Follows(s, q, queueRun, [first, second], failure) && Run(s, queueRun).Some?
    requires Follows(s, x, executeRun, [first], failure) && Run(s, executeRun).Some?
    requires q < |Run(s, queueRun).value.calls| && Run(s, queueRun).value.calls[q].stage.Returned?
    requires x < |Run(s, executeRun).value.calls| && Run(s, executeRun).value.calls[x].stage.Returned?
    ensures Run(s, queueRun).value.calls[q].stage == Run(s, executeRun).value.calls[x].stage
            <==> !(first && !second)
    ensures var gvk := s.calls[x].cmd.gvk;
            Run(s, executeRun).value.calls[x].stage.err ==
            if !first then Some(CircuitOpen(gvk))
            else if gvk !in s.registry then Some(NoDomain(gvk))
            else if failure.Some? then Some(HandleFailed(failure.value)) else None
  {
    ReturnsItsOutcome(s, q, queueRun, [first, second], failure);
    ReturnsItsOutcome(s, x, executeRun, [first], failure);
  }
}
