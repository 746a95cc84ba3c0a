/**
The command engine as a transition system.

Every atomic step a goroutine can take is an action: the critical sections of
Queue and Execute, the two branches of each select, the calls into the breaker,
the registry and a Domain, and the steps of a worker. What Go leaves open (which
branch a select takes, what a breaker answers, what Handle returns, who runs
next) is carried by the action, so a run is a list of actions and a statement
over all lists is a statement over all interleavings.
*/
module EngineModel {
  import opened Prelude

  const QUEUE_CAPACITY: nat := 1024

  datatype Gvk = Gvk(group: string, version: string, kind: string)

  datatype CommandType = CmdCreate | CmdUpdate | CmdDelete

  datatype Command = Command(ctype: CommandType, gvk: Gvk, name: string)

  datatype Error = CircuitOpen(gvk: Gvk) | NoDomain(gvk: Gvk) | HandleFailed(reason: string) | ContextDone

  /** A breaker and a Domain are objects; here they are identified by number. */
  type Breaker = nat
  type Domain = nat

  /** How far one call of Queue or Execute has come. From Queued to Returned the
      call of Queue is over and the stage is that of the command it left behind. */
  datatype Stage =
    | QueueEntered
    | QueueRead(workers: int, breaker: Option<Breaker>)
    | Sending
    | Queued
    | Entered
    | Read(breaker: Option<Breaker>)
    | Allowed
    | Found(domain: Domain)
    | Handling(domain: Domain)
    | Returned(err: Option<Error>)

  datatype Call = Call(cmd: Command, viaQueue: bool, stage: Stage)

  datatype Worker = Idle | Busy(call: nat) | Exited

  /** What a call did that a breaker or a Domain could notice. */
  datatype Mark =
    | ReadBreaker(breaker: Option<Breaker>)
    | Verdict(allowed: bool)
    | LookedUp(domain: Domain)
    | Invoked(domain: Domain)

  datatype Event =
    | Installed(breaker: Option<Breaker>)
    | Registered(gvk: Gvk, domain: Domain)
    | Did(call: nat, mark: Mark)

  /** The engine's fields, the goroutines at work, and the history so far.
      A call is known by its position in calls, a worker by its position in pool. */
  datatype State = State(
    workers: int,
    breaker: Option<Breaker>,
    registry: map<Gvk, Domain>,
    queue: seq<nat>,
    stopped: bool,
    closes: nat,
    pool: seq<Worker>,
    calls: seq<Call>,
    accepted: seq<nat>,
    taken: seq<nat>,
    finished: seq<nat>,
    log: seq<Event>)

  const INITIAL: State :=
    State(0, None, map[], [], false, 0, [], [], [], [], [], [])

  datatype Action =
    | SetWorkers(n: int)
    | SetBreaker(breaker: Option<Breaker>)
    | Register(gvk: Gvk, domain: Domain)
    | Spawn
    | CloseStop
    | CallExecute(cmd: Command)
    | CallQueue(cmd: Command)
    | ReadConfig(c: nat)
    | Check(c: nat, allowed: bool)
    | Send(c: nat)
    | Cancel(c: nat)
    | LookUp(c: nat)
    | Invoke(c: nat)
    | HandleReturns(c: nat, failure: Option<string>)
    | Take(w: nat)
    | Finish(w: nat)
    | Exit(w: nat)

  /** The action is a step of the goroutine that runs call c. */
  predicate OnCall(a: Action, c: nat) {
    match a
    case ReadConfig(d) => c == d
    case Check(d, _) => c == d
    case Send(d) => c == d
    case Cancel(d) => c == d
    case LookUp(d) => c == d
    case Invoke(d) => c == d
    case HandleReturns(d, _) => c == d
    case _ => false
  }

  function At(s: State, c: nat, stage: Stage): State
    requires c < |s.calls|
  {
    s.(calls := s.calls[c := s.calls[c].(stage := stage)])
  }

  function Marked(s: State, c: nat, mark: Mark, stage: Stage): State
    requires c < |s.calls|
  {
    At(s, c, stage).(log := s.log + [Did(c, mark)])
  }

  /** The error a call returns when Handle ended like this. */
  function AfterHandle(failure: Option<string>): Option<Error> {
    match failure case None => None case Some(m) => Some(HandleFailed(m))
  }

  // What each kind of goroutine can do. None: the action is not possible.

  /** Configuring the engine, starting and stopping the pool, making a call. */
  function OutsideStep(s: State, a: Action): Option<State> {
    match a
    case SetWorkers(n) => Some(s.(workers := n))
    case SetBreaker(b) => Some(s.(breaker := b, log := s.log + [Installed(b)]))
    case Register(gvk, d) => Some(s.(registry := s.registry[gvk := d], log := s.log + [Registered(gvk, d)]))
    case Spawn => Some(s.(pool := s.pool + [Idle]))
    case CloseStop => Some(if s.stopped then s else s.(stopped := true, closes := s.closes + 1))
    case CallExecute(cmd) => Some(s.(calls := s.calls + [Call(cmd, false, Entered)]))
    case CallQueue(cmd) => Some(s.(calls := s.calls + [Call(cmd, true, QueueEntered)]))
    case _ => None
  }

  /** The next stage of call c, with what others could notice. */
  function CallMoves(s: State, a: Action, c: nat): Option<(Option<Mark>, Stage)>
    requires c < |s.calls|
  {
    var gvk := s.calls[c].cmd.gvk;
    match (a, s.calls[c].stage)
    case (ReadConfig(_), QueueEntered) => Some((Some(ReadBreaker(s.breaker)), QueueRead(s.workers, s.breaker)))
    case (ReadConfig(_), Entered) => Some((Some(ReadBreaker(s.breaker)), Read(s.breaker)))
    case (Check(_, allowed), QueueRead(workers, b)) =>
      if b.None? && !allowed then None
      else Some((Some(Verdict(allowed)), if !allowed then Returned(Some(CircuitOpen(gvk))) else if workers <= 0 then Entered else Sending))
    case (Check(_, allowed), Read(b)) =>
      if b.None? && !allowed then None
      else Some((Some(Verdict(allowed)), if !allowed then Returned(Some(CircuitOpen(gvk))) else Allowed))
    case (Cancel(_), Sending) => Some((None, Returned(Some(ContextDone))))
    case (LookUp(_), Allowed) =>
      if gvk in s.registry then Some((Some(LookedUp(s.registry[gvk])), Found(s.registry[gvk])))
      else Some((None, Returned(Some(NoDomain(gvk)))))
    case (Invoke(_), Found(d)) => Some((Some(Invoked(d)), Handling(d)))
    case (HandleReturns(_, failure), Handling(_)) => Some((None, Returned(AfterHandle(failure))))
    case _ => None
  }

  function CallStep(s: State, a: Action, c: nat): Option<State> {
    if c >= |s.calls| then None
    else match CallMoves(s, a, c)
      case None => None
      case Some((None, stage)) => Some(At(s, c, stage))
      case Some((Some(mark), stage)) => Some(Marked(s, c, mark, stage))
  }

  function SendStep(s: State, c: nat): Option<State> {
    if c < |s.calls| && s.calls[c].stage.Sending? && |s.queue| < QUEUE_CAPACITY
    then Some(At(s, c, Queued).(queue := s.queue + [c], accepted := s.accepted + [c]))
    else None
  }

  function TakeStep(s: State, w: nat): Option<State> {
    if w < |s.pool| && s.pool[w].Idle? && s.queue != [] && s.queue[0] < |s.calls|
    then Some(At(s, s.queue[0], Entered).(queue := s.queue[1..], taken := s.taken + [s.queue[0]],
                                          pool := s.pool[w := Busy(s.queue[0])]))
    else None
  }

  function FinishStep(s: State, w: nat): Option<State> {
    if w < |s.pool| && s.pool[w].Busy? && s.pool[w].call < |s.calls| && s.calls[s.pool[w].call].stage.Returned?
    then Some(s.(pool := s.pool[w := Idle], finished := s.finished + [s.pool[w].call]))
    else None
  }

  function ExitStep(s: State, w: nat): Option<State> {
    if w < |s.pool| && s.pool[w].Idle? && s.stopped then Some(s.(pool := s.pool[w := Exited])) else None
  }

  /** The state after the action. */
  function Step(s: State, a: Action): Option<State> {
    match a
    case Send(c) => SendStep(s, c)
    case Take(w) => TakeStep(s, w)
    case Finish(w) => FinishStep(s, w)
    case Exit(w) => ExitStep(s, w)
    case ReadConfig(c) => CallStep(s, a, c)
    case Check(c, _) => CallStep(s, a, c)
    case Cancel(c) => CallStep(s, a, c)
    case LookUp(c) => CallStep(s, a, c)
    case Invoke(c) => CallStep(s, a, c)
    case HandleReturns(c, _) => CallStep(s, a, c)
    case _ => OutsideStep(s, a)
  }

  function Run(s: State, actions: seq<Action>): Option<State>
    decreases |actions|
  {
    if actions == [] then Some(s)
    else match Step(s, actions[0])
      case None => None
      case Some(next) => Run(next, actions[1..])
  }

  lemma {:induction false} RunConcat(s: State, xs: seq<Action>, ys: seq<Action>)
    requires Run(s, xs).Some?
    ensures Run(s, xs + ys) == Run(Run(s, xs).value, ys)
    decreases |xs|
  {
    if xs == [] {
      assert xs + ys == ys;
    } else {
      RunConcat(Step(s, xs[0]).value, xs[1..], ys);
      assert (xs + ys)[1..] == xs[1..] + ys;
    }
  }

  ghost predicate Reaches(s: State, t: State) {
    exists actions: seq<Action> :: Run(s, actions) == Some(t)
  }

  lemma ReachesSelf(s: State)
    ensures Reaches(s, s)
  {
    assert Run(s, []) == Some(s);
  }

  lemma ReachesTransitive(s: State, t: State, u: State)
    requires Reaches(s, t) && Reaches(t, u)
    ensures Reaches(s, u)
  {
    var xs: seq<Action> :| Run(s, xs) == Some(t);
    var ys: seq<Action> :| Run(t, ys) == Some(u);
    RunConcat(s, xs, ys);
  }

  lemma ReachesStep(s: State, t: State, a: Action)
    requires Reaches(s, t) && Step(t, a).Some?
    ensures Reaches(s, Step(t, a).value)
  {
    assert Run(Step(t, a).value, []) == Step(t, a);
    assert Run(t, [a]) == Step(t, a);
    ReachesTransitive(s, t, Step(t, a).value);
  }
}
