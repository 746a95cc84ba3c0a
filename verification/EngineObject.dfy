/**
The Engine object. Its methods have the control flow of the Go methods and change
the fields themselves; between two atomic steps any other goroutines may run
(Interfere). Each method is proved to make only steps of the transition system, so
what holds over every run holds whatever mixture of these methods executes.
*/
module EngineObject {
  import opened Prelude
  import opened EngineModel
  import opened EngineInvariant
  import opened EngineShutdown

  predicate OnWorker(a: Action, w: nat) {
    a == Take(w) || a == Finish(w) || a == Exit(w)
  }

  /** Another goroutine cannot move a call that is not in the channel. */
  lemma ForeignStepKeepsCall(s: State, a: Action, c: nat)
    requires Reaches(INITIAL, s) && Step(s, a).Some?
    requires c < |s.calls| && !s.calls[c].stage.Queued? && !OnCall(a, c)
    ensures c < |Step(s, a).value.calls| && Step(s, a).value.calls[c] == s.calls[c]
  {
    if a.Take? {
      ReachableInv(s);
      FrontIsQueued(s);
    }
    OnlyOneCallMoves(s, a, c);
  }

  lemma ReachableInv(s: State)
    requires Reaches(INITIAL, s)
    ensures Inv(s)
  {
    var actions: seq<Action> :| Run(INITIAL, actions) == Some(s);
    RunKeepsInv(INITIAL, actions);
  }

  /** Nor a worker. */
  lemma ForeignStepKeepsWorker(s: State, a: Action, w: nat)
    requires Step(s, a).Some? && w < |s.pool| && !OnWorker(a, w)
    ensures w < |Step(s, a).value.pool| && Step(s, a).value.pool[w] == s.pool[w]
  {
  }

  lemma QueueHoldsCalls(s: State)
    requires Reaches(INITIAL, s)
    ensures forall i :: 0 <= i < |s.queue| ==> s.queue[i] < |s.calls|
  {
    ReachableInv(s);
    assert forall i :: 0 <= i < |s.queue| ==> s.queue[i] in s.accepted;
  }

  /** The pool never shrinks, and nothing takes the stop signal back. */
  lemma PoolAndStopStay(s: State, a: Action)
    requires Step(s, a).Some?
    ensures |Step(s, a).value.pool| >= |s.pool| && (s.stopped ==> Step(s, a).value.stopped)
  {
  }

  function Idles(n: nat): (r: seq<Worker>)
    ensures |r| == n && forall i :: 0 <= i < n ==> r[i] == Idle
  {
    seq(n, i => Idle)
  }

  class Engine {
    var registry: map<Gvk, Domain>
    var workers: int
    var circuitBreaker: Option<Breaker>
    /** The channel's buffer: the calls whose commands wait in it. */
    var queue: seq<nat>
    /** Whether workerStop is closed, and how often close ran. */
    var stopped: bool
    var closes: nat
    /** The worker goroutines behind workerGroup. */
    var pool: seq<Worker>
    /** History. */
    var calls: seq<Call>
    var accepted: seq<nat>
    var taken: seq<nat>
    var finished: seq<nat>
    var log: seq<Event>

    function State(): State
      reads this
    {
      EngineModel.State(workers, circuitBreaker, registry, queue, stopped, closes, pool, calls, accepted, taken, finished, log)
    }

    /** The engine is in a state some run from its construction reaches. */
    ghost predicate Valid()
      reads this
    {
      Reaches(INITIAL, State())
    }

    constructor ()
      ensures State() == INITIAL && Valid()
    {
      registry, workers, circuitBreaker, queue := map[], 0, None, [];
      stopped, closes, pool := false, 0, [];
      calls, accepted, taken, finished, log := [], [], [], [], [];
      new;
      ReachesSelf(INITIAL);
    }

    /** One atomic step of some other goroutine. */
    method Do(ghost start: State, a: Action)
      requires Valid() && Reaches(start, State()) && Step(State(), a).Some?
      modifies this
      ensures State() == Step(old(State()), a).value
      ensures Valid() && Reaches(start, State())
    {
      ReachesStep(start, State(), a);
      ReachesStep(INITIAL, State(), a);
      Become(start, Step(State(), a).value);
    }

    method Become(ghost start: State, t: State)
      requires Reaches(start, t) && Reaches(INITIAL, t)
      modifies this
      ensures State() == t && Valid() && Reaches(start, State())
    {
      SetFields(t);
      SetHistory(t);
    }

    method SetFields(t: State)
      modifies this`registry, this`workers, this`circuitBreaker, this`queue, this`stopped, this`closes, this`pool
      ensures registry == t.registry && workers == t.workers && circuitBreaker == t.breaker && queue == t.queue
      ensures stopped == t.stopped && closes == t.closes && pool == t.pool
    {
      registry, workers, circuitBreaker, queue := t.registry, t.workers, t.breaker, t.queue;
      stopped, closes, pool := t.stopped, t.closes, t.pool;
    }

    method SetHistory(t: State)
      modifies this`calls, this`accepted, this`taken, this`finished, this`log
      ensures calls == t.calls && accepted == t.accepted && taken == t.taken && finished == t.finished && log == t.log
    {
      calls, accepted, taken, finished, log := t.calls, t.accepted, t.taken, t.finished, t.log;
    }

    /** Any number of steps of any other goroutines: none of call c (if given),
        none of worker w (if given). */
    method Interfere(ghost start: State, c: Option<nat>, w: Option<nat>)
      requires Valid() && Reaches(start, State())
      requires c.Some? ==> c.value < |calls| && !calls[c.value].stage.Queued?
      requires w.Some? ==> w.value < |pool|
      modifies this
      ensures Valid() && Reaches(start, State())
      ensures c.Some? ==> c.value < |calls| && calls[c.value] == old(calls[c.value])
      ensures w.Some? ==> w.value < |pool| && pool[w.value] == old(pool[w.value])
      ensures old(stopped) ==> stopped
      ensures |pool| >= |old(pool)|
    {
      var n: nat := *;
      var i := 0;
      while i < n
        invariant Valid() && Reaches(start, State())
        invariant c.Some? ==> c.value < |calls| && calls[c.value] == old(calls[c.value])
        invariant w.Some? ==> w.value < |pool| && pool[w.value] == old(pool[w.value])
        invariant old(stopped) ==> stopped
        invariant |pool| >= |old(pool)|
      {
        var a: Action := *;
        if Step(State(), a).Some? && (c.Some? ==> !OnCall(a, c.value)) && (w.Some? ==> !OnWorker(a, w.value)) {
          if c.Some? { ForeignStepKeepsCall(State(), a, c.value); }
          if w.Some? { ForeignStepKeepsWorker(State(), a, w.value); }
          PoolAndStopStay(State(), a);
          Do(start, a);
        }
        i := i + 1;
      }
    }

    /** One own step of call c: its new stage, and what it did that others could
        notice. Then interference. */
    method Then(ghost start: State, c: nat, w: Option<nat>, ghost a: Action, mark: Option<Mark>, stage: Stage)
      requires Valid() && Reaches(start, State())
      requires c < |calls| && OnCall(a, c) && !stage.Queued?
      requires w.Some? ==> w.value < |pool|
      requires Step(State(), a) == Some(if mark.Some? then Marked(State(), c, mark.value, stage) else At(State(), c, stage))
      modifies this
      ensures Valid() && Reaches(start, State())
      ensures c < |calls| && calls[c] == old(calls[c]).(stage := stage)
      ensures w.Some? ==> w.value < |pool| && pool[w.value] == old(pool[w.value])
    {
      ReachesStep(start, State(), a);
      ReachesStep(INITIAL, State(), a);
      calls := calls[c := calls[c].(stage := stage)];
      if mark.Some? {
        log := log + [Did(c, mark.value)];
      }
      Interfere(start, Some(c), w);
    }

    method SetWorkers(n: int)
      requires Valid()
      modifies this
      ensures State() == Step(old(State()), EngineModel.SetWorkers(n)).value && Valid()
      ensures State() == old(State()).(workers := n)
    {
      ReachesStep(INITIAL, State(), EngineModel.SetWorkers(n));
      workers := n;
    }

    method SetCircuitBreaker(cb: Option<Breaker>)
      requires Valid()
      modifies this
      ensures State() == Step(old(State()), SetBreaker(cb)).value && Valid()
      ensures State() == old(State()).(breaker := cb, log := old(log) + [Installed(cb)])
    {
      ReachesStep(INITIAL, State(), SetBreaker(cb));
      circuitBreaker := cb;
      log := log + [Installed(cb)];
    }

    /** The guard of Execute: the breaker installed now is asked, if there is one.
        allowed is what it would answer. */
    method Admit(ghost start: State, c: nat, w: Option<nat>, allowed: bool) returns (err: Option<Error>)
      requires Valid() && Reaches(start, State()) && c < |calls| && calls[c].stage.Entered?
      requires w.Some? ==> w.value < |pool|
      modifies this
      ensures Valid() && Reaches(start, State())
      ensures err == if old(circuitBreaker).Some? && !allowed then Some(CircuitOpen(old(calls[c].cmd.gvk))) else None
      ensures c < |calls| && calls[c] == old(calls[c]).(stage := if err.None? then Allowed else Returned(err))
      ensures w.Some? ==> w.value < |pool| && pool[w.value] == old(pool[w.value])
    {
      var cb := circuitBreaker;
      Then(start, c, w, ReadConfig(c), Some(ReadBreaker(cb)), Read(cb));
      if cb.Some? && !allowed {
        err := Some(CircuitOpen(calls[c].cmd.gvk));
        Then(start, c, w, Check(c, false), Some(Verdict(false)), Returned(err));
      } else {
        err := None;
        Then(start, c, w, Check(c, true), Some(Verdict(true)), Allowed);
      }
    }

    /** Execute for call c, run by worker w or by its caller. allowed and failure are
        what the breaker and Handle would answer. seen is the engine as it was when
        the Domain was looked up, between entry and return. */
    method Execute(ghost start: State, c: nat, w: Option<nat>, allowed: bool, failure: Option<string>)
      returns (err: Option<Error>, ghost seen: State)
      requires Valid() && Reaches(start, State()) && c < |calls| && calls[c].stage.Entered?
      requires w.Some? ==> w.value < |pool|
      modifies this
      ensures Valid() && Reaches(start, State())
      ensures Reaches(old(State()), seen) && Reaches(seen, State())
      ensures var gvk := old(calls[c].cmd.gvk);
              if old(circuitBreaker).Some? && !allowed then err == Some(CircuitOpen(gvk))
              else c < |seen.calls| && seen.calls[c].stage.Allowed?
                   && err == if gvk !in seen.registry then Some(NoDomain(gvk))
                             else if failure.Some? then Some(HandleFailed(failure.value)) else None
      ensures c < |calls| && calls[c] == old(calls[c]).(stage := Returned(err))
      ensures w.Some? ==> w.value < |pool| && pool[w.value] == old(pool[w.value])
    {
      ghost var entry := State();
      var cmd := calls[c].cmd;
      ReachesSelf(entry);
      err := Admit(entry, c, w, allowed);
      seen := State();
      ReachesSelf(seen);
      ReachesTransitive(start, entry, seen);
      if err.Some? {
        return;
      }
      err := Dispatch(seen, c, w, cmd, failure);
      ReachesTransitive(start, seen, State());
    }

    /** The second half of Execute: look the Domain up and hand it the command. */
    method Dispatch(ghost start: State, c: nat, w: Option<nat>, cmd: Command, failure: Option<string>) returns (err: Option<Error>)
      requires Valid() && Reaches(start, State()) && c < |calls| && calls[c].stage.Allowed? && calls[c].cmd == cmd
      requires w.Some? ==> w.value < |pool|
      modifies this
      ensures Valid() && Reaches(start, State())
      ensures cmd.gvk !in old(registry) ==> err == Some(NoDomain(cmd.gvk))
      ensures cmd.gvk in old(registry) ==> err == if failure.Some? then Some(HandleFailed(failure.value)) else None
      ensures c < |calls| && calls[c] == old(calls[c]).(stage := Returned(err))
      ensures w.Some? ==> w.value < |pool| && pool[w.value] == old(pool[w.value])
    {
      if cmd.gvk !in registry {
        err := Some(NoDomain(cmd.gvk));
        Then(start, c, w, LookUp(c), None, Returned(err));
        return;
      }
      var d := registry[cmd.gvk];
      Then(start, c, w, LookUp(c), Some(LookedUp(d)), Found(d));
      err := HandleBy(start, c, w, d, failure);
    }

    method HandleBy(ghost start: State, c: nat, w: Option<nat>, d: Domain, failure: Option<string>) returns (err: Option<Error>)
      requires Valid() && Reaches(start, State()) && c < |calls| && calls[c].stage == Found(d)
      requires w.Some? ==> w.value < |pool|
      modifies this
      ensures Valid() && Reaches(start, State())
      ensures err == if failure.Some? then Some(HandleFailed(failure.value)) else None
      ensures c < |calls| && calls[c] == old(calls[c]).(stage := Returned(err))
      ensures w.Some? ==> w.value < |pool| && pool[w.value] == old(pool[w.value])
    {
      Then(start, c, w, Invoke(c), Some(Invoked(d)), Handling(d));
      err := AfterHandle(failure);
      Then(start, c, w, HandleReturns(c, failure), None, Returned(err));
    }

    /** Queue for call c. first and second are what the breaker would answer at
        ingestion and, without workers, at execution. The send at the end is watched
        for some turns, with the context cancelled from turn doneFrom on; blocked
        means that it still waits after them. */
    method Queue(ghost start: State, c: nat, first: bool, second: bool, failure: Option<string>,
                 turns: nat, doneFrom: nat, preferSend: bool)
      returns (err: Option<Error>, blocked: bool, ghost seen: State)
      requires Valid() && Reaches(start, State()) && c < |calls| && calls[c].stage.QueueEntered?
      modifies this
      ensures Valid() && Reaches(start, State())
      ensures Reaches(old(State()), seen) && Reaches(seen, State())
      ensures c < |calls| && calls[c].cmd == old(calls[c].cmd) && calls[c].viaQueue == old(calls[c].viaQueue)
      ensures calls[c].stage == if blocked then Sending else if err.None? && old(workers) > 0 then Queued else Returned(err)
      ensures var gvk := old(calls[c].cmd.gvk);
              if old(circuitBreaker).Some? && !first then !blocked && err == Some(CircuitOpen(gvk))
              else if old(workers) <= 0 then
                !blocked && ((!second && err == Some(CircuitOpen(gvk)))
                             || err == if gvk !in seen.registry then Some(NoDomain(gvk))
                                       else if failure.Some? then Some(HandleFailed(failure.value)) else None)
              else if blocked then turns <= doneFrom && (turns > 0 ==> |queue| >= 1024)
              else (err.None? && queue != [] && queue[|queue| - 1] == c) || (err == Some(ContextDone) && doneFrom < turns)
    {
      ghost var entry := State();
      ReachesSelf(entry);
      blocked, seen := false, entry;
      var n, cb := workers, circuitBreaker;
      Then(entry, c, None, ReadConfig(c), Some(ReadBreaker(cb)), QueueRead(n, cb));
      if cb.Some? && !first {
        err := Some(CircuitOpen(calls[c].cmd.gvk));
        Then(entry, c, None, Check(c, false), Some(Verdict(false)), Returned(err));
      } else if n <= 0 {
        Then(entry, c, None, Check(c, true), Some(Verdict(true)), Entered);
        ghost var mid := State();
        err, seen := Execute(entry, c, None, second, failure);
        ReachesTransitive(entry, mid, seen);
      } else {
        Then(entry, c, None, Check(c, true), Some(Verdict(true)), Sending);
        err, blocked := TrySend(entry, c, turns, doneFrom, preferSend);
      }
      ReachesTransitive(start, entry, State());
    }

    /** The select at the end of Queue. A turn in which neither case is ready is spent
        waiting; with both ready either may be taken. */
    method TrySend(ghost start: State, c: nat, turns: nat, doneFrom: nat, preferSend: bool) returns (err: Option<Error>, blocked: bool)
      requires Valid() && Reaches(start, State()) && c < |calls| && calls[c].stage.Sending?
      modifies this
      ensures Valid() && Reaches(start, State())
      ensures c < |calls| && calls[c] == old(calls[c]).(stage := if blocked then Sending else if err.None? then Queued else Returned(err))
      ensures blocked ==> turns <= doneFrom && (turns > 0 ==> |queue| >= 1024)
      ensures !blocked ==> (err.None? && queue != [] && queue[|queue| - 1] == c && accepted != [] && accepted[|accepted| - 1] == c)
                           || (err == Some(ContextDone) && doneFrom < turns)
    {
      err, blocked := None, false;
      for i := 0 to turns
        invariant Valid() && Reaches(start, State()) && c < |calls| && calls[c] == old(calls[c])
        invariant i <= doneFrom && (i > 0 ==> |queue| >= 1024)
      {
        Interfere(start, Some(c), None);
        if |queue| < QUEUE_CAPACITY && (i < doneFrom || preferSend) {
          SendNow(start, c);
          return;
        }
        if i >= doneFrom {
          err := Some(ContextDone);
          CancelNow(start, c);
          return;
        }
      }
      blocked := true;
    }

    method SendNow(ghost start: State, c: nat)
      requires Valid() && Reaches(start, State()) && c < |calls| && calls[c].stage.Sending? && |queue| < QUEUE_CAPACITY
      modifies this
      ensures Valid() && Reaches(start, State())
      ensures queue == old(queue) + [c] && accepted == old(accepted) + [c]
      ensures calls == old(calls)[c := old(calls)[c].(stage := Queued)]
    {
      ReachesStep(start, State(), Send(c));
      ReachesStep(INITIAL, State(), Send(c));
      queue, accepted := queue + [c], accepted + [c];
      calls := calls[c := calls[c].(stage := Queued)];
    }

    method CancelNow(ghost start: State, c: nat)
      requires Valid() && Reaches(start, State()) && c < |calls| && calls[c].stage.Sending?
      modifies this
      ensures Valid() && Reaches(start, State())
      ensures queue == old(queue) && accepted == old(accepted)
      ensures calls == old(calls)[c := old(calls)[c].(stage := Returned(Some(ContextDone)))]
    {
      ReachesStep(start, State(), Cancel(c));
      ReachesStep(INITIAL, State(), Cancel(c));
      calls := calls[c := calls[c].(stage := Returned(Some(ContextDone)))];
    }

    /** Starts as many worker goroutines as are configured; mine are their positions
        in the pool. others: whether other goroutines run in between. */
    method StartWorkers(ghost start: State, others: bool) returns (ghost mine: seq<nat>)
      requires Valid() && Reaches(start, State())
      modifies this
      ensures Valid() && Reaches(start, State())
      ensures |mine| == if old(workers) <= 0 then 0 else old(workers)
      ensures forall k :: 0 <= k < |mine| ==> |old(pool)| <= mine[k] < |pool|
      ensures forall k, l :: 0 <= k < l < |mine| ==> mine[k] < mine[l]
      ensures old(workers) <= 0 ==> State() == old(State())
      ensures !others && old(workers) > 0 ==> State() == old(State()).(pool := old(pool) + Idles(old(workers)))
    {
      mine := [];
      var n := workers;
      if n <= 0 {
        return;
      }
      var i := 0;
      while i < n
        invariant 0 <= i <= n && |mine| == i && |pool| >= |old(pool)|
        invariant Valid() && Reaches(start, State())
        invariant forall k :: 0 <= k < |mine| ==> |old(pool)| <= mine[k] < |pool|
        invariant forall k, l :: 0 <= k < l < |mine| ==> mine[k] < mine[l]
        invariant !others ==> State() == old(State()).(pool := old(pool) + Idles(i))
      {
        if others {
          Interfere(start, None, None);
        }
        ReachesStep(start, State(), Spawn);
        ReachesStep(INITIAL, State(), Spawn);
        mine := mine + [|pool|];
        pool := pool + [Idle];
        i := i + 1;
      }
    }

    /** Closes the stop channel once, then waits for the pool until the timeout, which
        comes after so many turns. drained: the pool was seen to be gone. */
    method StopWorkers(ghost start: State, turns: nat) returns (drained: bool)
      requires Valid() && Reaches(start, State())
      modifies this
      ensures Valid() && Reaches(start, State())
      ensures old(workers) <= 0 ==> State() == old(State())
      ensures old(workers) > 0 ==> stopped && (drained ==> LiveWorkers(pool) == 0)
                                   && (!drained && turns > 0 ==> LiveWorkers(pool) > 0)
    {
      if workers <= 0 {
        return false;
      }
      Interfere(start, None, None);
      ReachesStep(start, State(), CloseStop);
      ReachesStep(INITIAL, State(), CloseStop);
      if !stopped {
        stopped, closes := true, closes + 1;
      }
      for i := 0 to turns
        invariant Valid() && Reaches(start, State()) && stopped
        invariant i > 0 ==> LiveWorkers(pool) > 0
      {
        Interfere(start, None, None);
        if LiveWorkers(pool) == 0 {
          return true;
        }
      }
      return false;
    }

    /** The loop of worker w, for as long as it is watched. A turn in which
        neither case of the select is ready is spent waiting. */
    method WorkerLoop(ghost start: State, w: nat, turns: nat)
      requires Valid() && Reaches(start, State()) && w < |pool| && pool[w] == Idle
      modifies this
      ensures Valid() && Reaches(start, State())
      ensures w < |pool| && (pool[w] == Idle || (pool[w] == Exited && stopped))
    {
      for i := 0 to turns
        invariant Valid() && Reaches(start, State()) && w < |pool| && pool[w] == Idle
      {
        Interfere(start, None, Some(w));
        var stopFirst: bool := *;
        if stopped && (stopFirst || queue == []) {
          ReachesStep(start, State(), Exit(w));
          ReachesStep(INITIAL, State(), Exit(w));
          pool := pool[w := Exited];
          return;
        } else if queue != [] {
          WorkOne(start, w);
        }
      }
    }

    /** The front command is taken, executed and finished; the worker is idle again
        whatever the command returned. */
    method WorkOne(ghost start: State, w: nat)
      requires Valid() && Reaches(start, State()) && w < |pool| && pool[w] == Idle && queue != []
      modifies this
      ensures Valid() && Reaches(start, State())
      ensures w < |pool| && pool[w] == Idle
      ensures var c := old(queue)[0];
              && c in taken && finished != [] && finished[|finished| - 1] == c
              && c < |old(calls)| && c < |calls| && calls[c] == old(calls)[c].(stage := calls[c].stage) && calls[c].stage.Returned?
    {
      QueueHoldsCalls(State());
      var c := TakeOne(start, w);
      var allowed: bool := *;
      var failure: Option<string> := *;
      var err;
      ghost var seen;
      err, seen := Execute(start, c, Some(w), allowed, failure);
      FinishOne(start, w);
      ReachableInv(State());
      assert c in finished;
    }

    method TakeOne(ghost start: State, w: nat) returns (c: nat)
      requires Valid() && Reaches(start, State()) && w < |pool| && pool[w] == Idle && queue != []
      modifies this
      ensures Valid() && Reaches(start, State())
      ensures c == old(queue)[0] && queue == old(queue)[1..] && taken == old(taken) + [c]
      ensures c < |old(calls)| && calls == old(calls)[c := old(calls)[c].(stage := Entered)]
      ensures pool == old(pool)[w := Busy(c)]
    {
      c := queue[0];
      QueueHoldsCalls(State());
      ReachesStep(start, State(), Take(w));
      ReachesStep(INITIAL, State(), Take(w));
      queue, taken := queue[1..], taken + [c];
      calls := calls[c := calls[c].(stage := Entered)];
      pool := pool[w := Busy(c)];
    }

    method FinishOne(ghost start: State, w: nat)
      requires Valid() && Reaches(start, State()) && w < |pool| && pool[w].Busy?
      requires pool[w].call < |calls| && calls[pool[w].call].stage.Returned?
      modifies this
      ensures Valid() && Reaches(start, State())
      ensures pool == old(pool)[w := Idle] && finished == old(finished) + [old(pool)[w].call] && calls == old(calls)
    {
      ReachesStep(start, State(), Finish(w));
      ReachesStep(INITIAL, State(), Finish(w));
      finished := finished + [pool[w].call];
      pool := pool[w := Idle];
    }
  }
}
