/** Shutdown: after the stop channel is closed the worker pool runs dry. */
module EngineShutdown {
  import opened Prelude
  import opened EngineModel
  import opened EngineInvariant

  /** Steps a command still owes the worker that holds it, Finish included. */
  function StepsLeft(stage: Stage): nat {
    match stage
    case Entered => 6
    case Read(_) => 5
    case Allowed => 4
    case Found(_) => 3
    case Handling(_) => 2
    case _ => 1
  }

  /** Steps a worker still owes, its own exit included. */
  function Owes(worker: Worker, calls: seq<Call>): nat {
    match worker
    case Exited => 0
    case Idle => 1
    case Busy(c) => 1 + if c < |calls| then StepsLeft(calls[c].stage) else 0
  }

  function Owed(pool: seq<Worker>, calls: seq<Call>): nat {
    if pool == [] then 0 else Owes(pool[0], calls) + Owed(pool[1..], calls)
  }

  /** The termination measure: seven steps for every command in the channel (to
      take it, and the six it then owes), and what the workers owe. */
  function Measure(s: State): nat {
    7 * |s.queue| + Owed(s.pool, s.calls)
  }

  /** The number the wait group has reached. */
  function LiveWorkers(pool: seq<Worker>): nat {
    if pool == [] then 0 else (if pool[0].Exited? then 0 else 1) + LiveWorkers(pool[1..])
  }

  /** The action is a step of a worker goroutine. */
  ghost predicate OfWorker(s: State, a: Action) {
    match a
    case Take(_) => true
    case Finish(_) => true
    case Exit(_) => true
    case ReadConfig(c) => AtWorker(s, c)
    case Check(c, _) => AtWorker(s, c)
    case LookUp(c) => AtWorker(s, c)
    case Invoke(c) => AtWorker(s, c)
    case HandleReturns(c, _) => AtWorker(s, c)
    case _ => false
  }

  /** Producers have ceased: nothing is sent and no worker is started. */
  predicate Ceased(actions: seq<Action>) {
    forall i :: 0 <= i < |actions| ==> !actions[i].Send? && !actions[i].Spawn?
  }

  lemma {:induction false} OwedFrame(pool: seq<Worker>, calls: seq<Call>, calls': seq<Call>)
    requires forall w :: 0 <= w < |pool| ==> Owes(pool[w], calls) == Owes(pool[w], calls')
    ensures Owed(pool, calls) == Owed(pool, calls')
  {
    if pool != [] {
      assert Owes(pool[0], calls) == Owes(pool[0], calls');
      OwedFrame(pool[1..], calls, calls');
    }
  }

  lemma {:induction false} OwedUpdate(pool: seq<Worker>, calls: seq<Call>, w: nat, worker: Worker)
    requires w < |pool|
    ensures Owed(pool[w := worker], calls) + Owes(pool[w], calls) == Owed(pool, calls) + Owes(worker, calls)
  {
    if w == 0 {
      assert pool[w := worker][1..] == pool[1..];
    } else {
      OwedUpdate(pool[1..], calls, w - 1, worker);
      assert pool[w := worker][1..] == pool[1..][w - 1 := worker];
    }
  }

  /** A step of the call that worker w holds lowers the debt by the steps made. */
  lemma OwedWhenCallMoves(s: State, w: nat, stage: Stage)
    requires Delivery(s) && w < |s.pool| && s.pool[w].Busy?
    ensures s.pool[w].call < |s.calls|
    ensures Owed(s.pool, At(s, s.pool[w].call, stage).calls) + StepsLeft(s.calls[s.pool[w].call].stage)
            == Owed(s.pool, s.calls) + StepsLeft(stage)
  {
    var c := s.pool[w].call;
    assert c in s.accepted;
    var calls' := At(s, c, stage).calls;
    var rest := s.pool[w := Exited];
    OwedUpdate(s.pool, s.calls, w, Exited);
    OwedUpdate(s.pool, calls', w, Exited);
    forall v | 0 <= v < |rest| ensures Owes(rest[v], s.calls) == Owes(rest[v], calls') {
      if v != w && s.pool[v].Busy? {
        assert s.pool[v].call != c;
      }
    }
    OwedFrame(rest, s.calls, calls');
  }

  predicate OfCall(a: Action, c: nat) {
    a == ReadConfig(c) || (a.Check? && a.c == c) || a == LookUp(c) || a == Invoke(c) || (a.HandleReturns? && a.c == c)
  }

  lemma CallStepLowersItsDebt(s: State, a: Action, c: nat)
    requires Step(s, a).Some? && OfCall(a, c)
    ensures var t := Step(s, a).value;
            && c < |s.calls| && |t.calls| == |s.calls|
            && t.pool == s.pool && t.queue == s.queue
            && t.calls == At(s, c, t.calls[c].stage).calls
            && (!InQueueCall(s.calls[c].stage) ==> StepsLeft(t.calls[c].stage) < StepsLeft(s.calls[c].stage))
  {
    assert Step(s, a) == CallStep(s, a, c);
    if !InQueueCall(s.calls[c].stage) {
      MoveLowersDebt(s, a, c);
    }
  }

  lemma MoveLowersDebt(s: State, a: Action, c: nat)
    requires c < |s.calls| && OfCall(a, c) && CallMoves(s, a, c).Some? && !InQueueCall(s.calls[c].stage)
    ensures StepsLeft(CallMoves(s, a, c).value.1) < StepsLeft(s.calls[c].stage)
  {
  }

  lemma CallStepOfWorkerDecreases(s: State, a: Action, c: nat)
    requires Delivery(s) && AtWorker(s, c) && Step(s, a).Some? && OfCall(a, c)
    ensures Measure(Step(s, a).value) < Measure(s)
  {
    CallStepLowersItsDebt(s, a, c);
    var w :| 0 <= w < |s.pool| && s.pool[w] == Busy(c);
    assert c in s.taken && s.accepted == s.taken + s.queue && c in s.accepted;
    OwedWhenCallMoves(s, w, Step(s, a).value.calls[c].stage);
  }

  lemma TakeDecreases(s: State, w: nat)
    requires Delivery(s) && Step(s, Take(w)).Some?
    ensures Measure(Step(s, Take(w)).value) < Measure(s)
  {
    var t := Step(s, Take(w)).value;
    DeliveryWhenTaken(s, w);
    OwedUpdate(s.pool, t.calls, w, Busy(s.queue[0]));
    forall v | 0 <= v < |s.pool| ensures Owes(s.pool[v], s.calls) == Owes(s.pool[v], t.calls) {
      if s.pool[v].Busy? {
        assert t.pool[v].Busy? && t.pool[w].Busy?;
      }
    }
    OwedFrame(s.pool, s.calls, t.calls);
  }

  /** Every step of a worker goroutine strictly lowers the measure. */
  lemma WorkerStepDecreases(s: State, a: Action)
    requires Delivery(s) && OfWorker(s, a) && Step(s, a).Some?
    ensures Measure(Step(s, a).value) < Measure(s)
  {
    match a
    case Take(w) => TakeDecreases(s, w);
    case Finish(w) => OwedUpdate(s.pool, s.calls, w, Idle);
    case Exit(w) => OwedUpdate(s.pool, s.calls, w, Exited);
    case ReadConfig(c) => CallStepOfWorkerDecreases(s, a, c);
    case Check(c, _) => CallStepOfWorkerDecreases(s, a, c);
    case LookUp(c) => CallStepOfWorkerDecreases(s, a, c);
    case Invoke(c) => CallStepOfWorkerDecreases(s, a, c);
    case HandleReturns(c, _) => CallStepOfWorkerDecreases(s, a, c);
  }

  lemma PoolAndQueueStay(s: State, a: Action)
    requires Step(s, a).Some? && !a.Send? && !a.Spawn? && !a.Take? && !a.Finish? && !a.Exit?
    ensures Step(s, a).value.pool == s.pool && Step(s, a).value.queue == s.queue
  {
  }

  /** Once producers have ceased, no other step raises it. */
  lemma OtherStepKeepsMeasure(s: State, a: Action)
    requires Delivery(s) && !OfWorker(s, a) && !a.Send? && !a.Spawn? && Step(s, a).Some?
    ensures Measure(Step(s, a).value) == Measure(s)
  {
    var t := Step(s, a).value;
    PoolAndQueueStay(s, a);
    forall v | 0 <= v < |s.pool| ensures Owes(s.pool[v], s.calls) == Owes(s.pool[v], t.calls) {
      if s.pool[v].Busy? {
        OtherStepLeavesWorkersCall(s, a, v);
      }
    }
    OwedFrame(s.pool, s.calls, t.calls);
  }

  lemma OtherStepLeavesWorkersCall(s: State, a: Action, v: nat)
    requires Delivery(s) && !OfWorker(s, a) && !a.Send? && !a.Spawn? && Step(s, a).Some?
    requires v < |s.pool| && s.pool[v].Busy?
    ensures var c := s.pool[v].call; c < |s.calls| && c < |Step(s, a).value.calls| && Step(s, a).value.calls[c] == s.calls[c]
  {
    var c := s.pool[v].call;
    assert c in s.taken && c in s.accepted && AtWorker(s, c);
    assert !InQueueCall(s.calls[c].stage);
    OnlyOneCallMoves(s, a, c);
  }

  /** The steps of a run that worker goroutines made. */
  ghost function WorkerSteps(s: State, actions: seq<Action>): nat
    requires Run(s, actions).Some?
    decreases |actions|
  {
    if actions == [] then 0
    else (if OfWorker(s, actions[0]) then 1 else 0) + WorkerSteps(Step(s, actions[0]).value, actions[1..])
  }

  /** However a run continues after the producers have ceased, its workers make
      no more steps than the measure says. */
  lemma {:induction false} WorkersMakeBoundedlyManySteps(s: State, actions: seq<Action>)
    requires Delivery(s) && Ceased(actions) && Run(s, actions).Some?
    ensures WorkerSteps(s, actions) + Measure(Run(s, actions).value) <= Measure(s)
    decreases |actions|
  {
    if actions != [] {
      var a := actions[0];
      StepKeepsDelivery(s, a);
      if OfWorker(s, a) { WorkerStepDecreases(s, a); } else { OtherStepKeepsMeasure(s, a); }
      WorkersMakeBoundedlyManySteps(Step(s, a).value, actions[1..]);
    }
  }

  /** A step worker w can make, taking every Handle to return. */
  function NextOf(s: State, w: nat): Action
    requires w < |s.pool| && !s.pool[w].Exited?
    requires s.pool[w].Busy? ==> s.pool[w].call < |s.calls|
  {
    match s.pool[w]
    case Idle => Exit(w)
    case Busy(c) =>
      match s.calls[c].stage {
        case Entered => ReadConfig(c)
        case Read(_) => Check(c, true)
        case Allowed => LookUp(c)
        case Found(_) => Invoke(c)
        case Handling(_) => HandleReturns(c, None)
        case _ => Finish(w)
      }
  }

  /** After the stop channel is closed no live worker is ever stuck. */
  lemma LiveWorkerCanStep(s: State, w: nat)
    requires Delivery(s) && s.stopped && w < |s.pool| && !s.pool[w].Exited?
    ensures s.pool[w].Busy? ==> s.pool[w].call < |s.calls|
    ensures OfWorker(s, NextOf(s, w)) && Step(s, NextOf(s, w)).Some?
  {
    if s.pool[w].Busy? {
      var c := s.pool[w].call;
      assert s.accepted[..|s.taken|] == s.taken;
      assert c in s.accepted && s.pool[w] == Busy(c);
      assert AtWorker(s, c);
      forall j | 0 <= j < |s.queue| ensures s.queue[j] != c {
        assert s.accepted[|s.taken| + j] == s.queue[j];
      }
    }
  }

  lemma {:induction false} NoneLiveIffAllExited(pool: seq<Worker>)
    ensures LiveWorkers(pool) == 0 <==> forall w :: 0 <= w < |pool| ==> pool[w].Exited?
  {
    if pool != [] {
      NoneLiveIffAllExited(pool[1..]);
      if LiveWorkers(pool) == 0 {
        forall w | 0 <= w < |pool| ensures pool[w].Exited? {
          if w > 0 { assert pool[w] == pool[1..][w - 1]; }
        }
      }
    }
  }

  /** One more step of some worker, while one is live. */
  lemma SomeWorkerSteps(s: State) returns (a: Action)
    requires Delivery(s) && s.stopped && LiveWorkers(s.pool) > 0
    ensures OfWorker(s, a) && Step(s, a).Some? && !a.Send? && !a.Spawn?
    ensures var t := Step(s, a).value; Delivery(t) && t.stopped && Measure(t) < Measure(s) && t.queue == s.queue
  {
    NoneLiveIffAllExited(s.pool);
    var w :| 0 <= w < |s.pool| && !s.pool[w].Exited?;
    LiveWorkerCanStep(s, w);
    a := NextOf(s, w);
    WorkerStepDecreases(s, a);
    StepKeepsDelivery(s, a);
    NextLeavesChannel(s, w);
  }

  lemma NextLeavesChannel(s: State, w: nat)
    requires w < |s.pool| && !s.pool[w].Exited? && (s.pool[w].Busy? ==> s.pool[w].call < |s.calls|)
    requires Step(s, NextOf(s, w)).Some?
    ensures Step(s, NextOf(s, w)).value.queue == s.queue && Step(s, NextOf(s, w)).value.stopped == s.stopped
  {
  }

  ghost predicate Completes(s: State, actions: seq<Action>) {
    && Run(s, actions).Some? && Ceased(actions) && |actions| <= Measure(s)
    && LiveWorkers(Run(s, actions).value.pool) == 0
    && Run(s, actions).value.queue == s.queue
  }

  lemma StepThenCompletes(s: State, a: Action, rest: seq<Action>)
    requires Step(s, a).Some? && !a.Send? && !a.Spawn? && Measure(Step(s, a).value) < Measure(s)
    requires Step(s, a).value.queue == s.queue && Completes(Step(s, a).value, rest)
    ensures Completes(s, [a] + rest)
  {
    assert ([a] + rest)[1..] == rest;
    assert forall i :: 1 <= i < |[a] + rest| ==> ([a] + rest)[i] == rest[i - 1];
  }

  /** From every state with the delivery invariant, so from every reachable one,
      whose stop channel is closed: workers alone bring the wait group to zero,
      within the number of steps the measure gives, and without taking anything more
      from the channel. */
  lemma {:induction false} ShutdownCompletes(s: State)
    requires Delivery(s) && s.stopped
    ensures exists actions: seq<Action> :: Completes(s, actions)
    decreases Measure(s)
  {
    if LiveWorkers(s.pool) == 0 {
      assert Run(s, []) == Some(s);
      assert Completes(s, []);
    } else {
      var a := SomeWorkerSteps(s);
      ShutdownCompletes(Step(s, a).value);
      var rest: seq<Action> :| Completes(Step(s, a).value, rest);
      StepThenCompletes(s, a, rest);
    }
  }

  lemma StuckOnlyWhenAllExited(s: State)
    requires Delivery(s) && s.stopped
    requires forall a :: OfWorker(s, a) ==> Step(s, a).None?
    ensures LiveWorkers(s.pool) == 0
  {
    NoneLiveIffAllExited(s.pool);
    if w :| 0 <= w < |s.pool| && !s.pool[w].Exited? {
      LiveWorkerCanStep(s, w);
    }
  }

  /** When the pool has gone, what is unfinished is what waits in the channel. */
  lemma AllFinishedIffChannelEmpty(s: State)
    requires Delivery(s) && LiveWorkers(s.pool) == 0
    ensures (forall c :: c in s.accepted ==> c in s.finished) <==> s.queue == []
  {
    NoneLiveIffAllExited(s.pool);
    if s.queue == [] {
      assert s.accepted == s.taken;
    } else {
      var c := s.queue[0];
      assert s.accepted[|s.taken|] == c;
      forall i | 0 <= i < |s.taken| ensures s.taken[i] != c {
        assert s.accepted[i] == s.taken[i];
      }
      assert c in s.accepted && c !in s.taken && c !in s.finished;
    }
  }

  /** Producers have ceased and nothing waits: nothing will. */
  lemma {:induction false} EmptyChannelStaysEmpty(s: State, actions: seq<Action>)
    requires Delivery(s) && Ceased(actions) && Run(s, actions).Some?
    ensures Delivery(Run(s, actions).value)
    ensures s.queue == [] ==> Run(s, actions).value.queue == []
    decreases |actions|
  {
    if actions != [] {
      StepKeepsDelivery(s, actions[0]);
      EmptyChannelStaysEmpty(Step(s, actions[0]).value, actions[1..]);
    }
  }

  ghost predicate AllFinished(s: State) {
    forall c :: c in s.accepted ==> c in s.finished
  }

  /** The continuation ends with all workers gone, after producers have ceased. */
  ghost predicate Ends(s: State, actions: seq<Action>) {
    Ceased(actions) && Run(s, actions).Some? && LiveWorkers(Run(s, actions).value.pool) == 0
  }

  /** Whether stopping drains the engine can be told when it is stopped: every way
      the workers can come to an end finishes all that was accepted, exactly when
      nothing waits in the channel at that moment. */
  lemma DrainedIffNothingWaits(s: State)
    requires Delivery(s) && s.stopped
    ensures (forall actions: seq<Action> :: Ends(s, actions) ==> AllFinished(Run(s, actions).value)) <==> s.queue == []
  {
    forall actions: seq<Action> | s.queue == [] && Ends(s, actions)
      ensures AllFinished(Run(s, actions).value)
    {
      EmptyChannelStaysEmpty(s, actions);
      AllFinishedIffChannelEmpty(Run(s, actions).value);
    }
    if s.queue != [] {
      ShutdownCompletes(s);
      var actions: seq<Action> :| Completes(s, actions);
      EmptyChannelStaysEmpty(s, actions);
      AllFinishedIffChannelEmpty(Run(s, actions).value);
      assert Ends(s, actions) && !AllFinished(Run(s, actions).value);
    }
  }

  /** And it does happen: a worker may see the stop signal first. */
  lemma AcceptedCommandCanBeLeftBehind(cmd: Command)
    ensures exists s :: Reaches(INITIAL, s) && LiveWorkers(s.pool) == 0 && s.accepted == [0] && s.finished == [] && s.queue == [0]
  {
    SentIsReachable(cmd);
    var sent := SentState(cmd);
    var stopped := sent.(stopped := true, closes := 1);
    ReachesStep(INITIAL, sent, CloseStop);
    assert Step(sent, CloseStop) == Some(stopped);
    var gone := stopped.(pool := [Exited]);
    assert stopped.pool[0 := Exited] == [Exited];
    ReachesStep(INITIAL, stopped, Exit(0));
    assert Reaches(INITIAL, gone);
  }

  function SentState(cmd: Command): State {
    INITIAL.(workers := 1, pool := [Idle], calls := [Call(cmd, true, Queued)], queue := [0], accepted := [0],
             log := [Did(0, ReadBreaker(None)), Did(0, Verdict(true))])
  }

  lemma SentIsReachable(cmd: Command)
    ensures Reaches(INITIAL, SentState(cmd))
  {
    var sending := SendingState(cmd);
    SendingIsReachable(cmd);
    assert sending.calls[0 := Call(cmd, true, Queued)] == SentState(cmd).calls;
    assert [] + [0] == SentState(cmd).queue;
    assert Step(sending, Send(0)) == Some(SentState(cmd));
    ReachesStep(INITIAL, sending, Send(0));
  }

  function SendingState(cmd: Command): State {
    SentState(cmd).(calls := [Call(cmd, true, Sending)], queue := [], accepted := [])
  }

  lemma SendingIsReachable(cmd: Command)
    ensures Reaches(INITIAL, SendingState(cmd))
  {
    var waiting := INITIAL.(workers := 1, pool := [Idle], calls := [Call(cmd, true, QueueEntered)]);
    WaitingIsReachable(cmd);
    var read := waiting.(calls := [Call(cmd, true, QueueRead(1, None))], log := [Did(0, ReadBreaker(None))]);
    assert waiting.calls[0 := Call(cmd, true, QueueRead(1, None))] == read.calls;
    assert waiting.log + [Did(0, ReadBreaker(None))] == read.log;
    assert Step(waiting, ReadConfig(0)) == Some(read);
    ReachesStep(INITIAL, waiting, ReadConfig(0));
    assert read.calls[0 := Call(cmd, true, Sending)] == SendingState(cmd).calls;
    assert read.log + [Did(0, Verdict(true))] == SendingState(cmd).log;
    assert Step(read, Check(0, true)) == Some(SendingState(cmd));
    ReachesStep(INITIAL, read, Check(0, true));
  }

  lemma WaitingIsReachable(cmd: Command)
    ensures Reaches(INITIAL, INITIAL.(workers := 1, pool := [Idle], calls := [Call(cmd, true, QueueEntered)]))
  {
    ReachesSelf(INITIAL);
    ReachesStep(INITIAL, INITIAL, SetWorkers(1));
    var one := INITIAL.(workers := 1);
    ReachesStep(INITIAL, one, Spawn);
    var two := one.(pool := [Idle]);
    assert one.pool + [Idle] == [Idle];
    assert Step(one, Spawn) == Some(two);
    ReachesStep(INITIAL, two, CallQueue(cmd));
    assert two.calls + [Call(cmd, true, QueueEntered)] == [Call(cmd, true, QueueEntered)];
  }
}
