/** What every reachable state of the engine satisfies. */
module EngineInvariant {
  import opened Prelude
  import opened EngineModel

  // ---------------------------------------------------------------------------
  // Delivery: nothing lost, nothing duplicated, first in first out.
  // ---------------------------------------------------------------------------

  /** The channel: what was accepted is what was taken followed by what waits. */
  ghost predicate Channel(s: State) {
    && s.accepted == s.taken + s.queue
    && |s.queue| <= QUEUE_CAPACITY
    && Distinct(s.accepted)
    && (forall c :: c in s.accepted ==> c < |s.calls| && s.calls[c].viaQueue)
    && (forall c :: 0 <= c < |s.calls| ==> (s.calls[c].stage.Queued? <==> c in s.queue))
    && (forall c :: c in s.accepted ==> !InQueueCall(s.calls[c].stage))
    && (forall c :: 0 <= c < |s.calls| && InQueueCall(s.calls[c].stage) ==> s.calls[c].viaQueue)
  }

  predicate InQueueCall(stage: Stage) {
    stage.QueueEntered? || stage.QueueRead? || stage.Sending?
  }

  /** The workers: every command taken is at exactly one worker or finished once. */
  ghost predicate Jobs(s: State) {
    && (forall w :: 0 <= w < |s.pool| && s.pool[w].Busy? ==> s.pool[w].call in s.taken && s.pool[w].call !in s.finished)
    && (forall v, w :: 0 <= v < w < |s.pool| && s.pool[v].Busy? && s.pool[w].Busy? ==> s.pool[v].call != s.pool[w].call)
    && (forall c :: c in s.taken ==> c in s.finished || AtWorker(s, c))
    && (forall c :: c in s.finished ==> c < |s.calls| && c in s.taken && s.calls[c].stage.Returned?)
    && Distinct(s.finished)
  }

  ghost predicate AtWorker(s: State, c: nat) {
    exists w :: 0 <= w < |s.pool| && s.pool[w] == Busy(c)
  }

  ghost predicate StopOnce(s: State) {
    s.closes == (if s.stopped then 1 else 0)
  }

  ghost predicate Delivery(s: State) {
    Channel(s) && Jobs(s) && StopOnce(s)
  }

  /** Only stages change, and a call that is at a worker or outside the channel
      changes to another such stage. */
  lemma DeliveryWhenCallMoves(s: State, t: State, c: nat, stage: Stage)
    requires Delivery(s) && c < |s.calls|
    requires t == At(s, c, stage).(log := t.log)
    requires !s.calls[c].stage.Queued? && !stage.Queued? && !s.calls[c].stage.Returned?
    requires InQueueCall(stage) ==> InQueueCall(s.calls[c].stage)
    ensures Delivery(t)
  {
    assert forall d :: AtWorker(s, d) ==> AtWorker(t, d);
    assert c !in s.finished;
  }

  lemma DeliveryWhenSent(s: State, c: nat)
    requires Delivery(s) && Step(s, Send(c)).Some?
    ensures Delivery(Step(s, Send(c)).value)
  {
    var t := Step(s, Send(c)).value;
    assert c !in s.accepted;
    assert t.accepted == t.taken + t.queue;
    forall d | 0 <= d < |t.calls| ensures t.calls[d].stage.Queued? <==> d in t.queue { }
    assert forall d :: AtWorker(s, d) ==> AtWorker(t, d);
  }

  /** The front of the channel has not been taken before and waits there once. */
  lemma FrontIsNew(s: State)
    requires Channel(s) && s.queue != []
    ensures s.queue[0] !in s.taken && s.queue[0] !in s.queue[1..] && s.queue[0] in s.accepted
  {
    var c, n := s.queue[0], |s.taken|;
    assert s.accepted[n] == c;
    forall i | 0 <= i < n ensures s.taken[i] != c {
      assert s.accepted[i] == s.taken[i];
    }
    forall i | 0 <= i < |s.queue[1..]| ensures s.queue[1..][i] != c {
      assert s.accepted[n + 1 + i] == s.queue[1..][i];
    }
  }

  lemma DeliveryWhenTaken(s: State, w: nat)
    requires Delivery(s) && Step(s, Take(w)).Some?
    ensures Delivery(Step(s, Take(w)).value)
  {
    var t := Step(s, Take(w)).value;
    FrontIsNew(s);
    FrontIsQueued(s);
    ChannelWhenTaken(s, w);
    JobsWhenTaken(s, w);
  }

  lemma ChannelWhenTaken(s: State, w: nat)
    requires Channel(s) && Step(s, Take(w)).Some? && s.queue[0] !in s.queue[1..]
    ensures Channel(Step(s, Take(w)).value)
  {
    var t := Step(s, Take(w)).value;
    assert t.accepted == t.taken + t.queue;
    assert s.queue == [s.queue[0]] + t.queue;
  }

  lemma JobsWhenTaken(s: State, w: nat)
    requires Jobs(s) && Step(s, Take(w)).Some? && s.queue[0] !in s.taken
    ensures Jobs(Step(s, Take(w)).value)
  {
    var t, c := Step(s, Take(w)).value, s.queue[0];
    assert t.pool[w] == Busy(c);
    forall d | d in t.taken ensures d in t.finished || AtWorker(t, d) {
      if d != c && d !in s.finished {
        var v :| 0 <= v < |s.pool| && s.pool[v] == Busy(d);
        assert t.pool[v] == Busy(d);
      }
    }
  }

  lemma DeliveryWhenFinished(s: State, w: nat)
    requires Delivery(s) && Step(s, Finish(w)).Some?
    ensures Delivery(Step(s, Finish(w)).value)
  {
    var t := Step(s, Finish(w)).value;
    var c := s.pool[w].call;
    forall d | d in t.taken ensures d in t.finished || AtWorker(t, d) {
      if d != c && d !in s.finished {
        var v :| 0 <= v < |s.pool| && s.pool[v] == Busy(d);
        assert t.pool[v] == Busy(d);
      }
    }
  }

  lemma DeliveryWhenPoolChanges(s: State, a: Action)
    requires Delivery(s) && (a.Spawn? || a.Exit?) && Step(s, a).Some?
    ensures Delivery(Step(s, a).value)
  {
    var t := Step(s, a).value;
    forall d | AtWorker(s, d) ensures AtWorker(t, d) {
      var v :| 0 <= v < |s.pool| && s.pool[v] == Busy(d);
      assert t.pool[v] == Busy(d);
    }
  }

  lemma DeliveryWhenCalled(s: State, a: Action)
    requires Delivery(s) && (a.CallExecute? || a.CallQueue?)
    ensures Delivery(Step(s, a).value)
  {
    var t := Step(s, a).value;
    assert forall d :: d in s.queue ==> d in s.accepted;
    assert forall d :: AtWorker(s, d) ==> AtWorker(t, d);
  }

  lemma StepKeepsDelivery(s: State, a: Action)
    requires Delivery(s) && Step(s, a).Some?
    ensures Delivery(Step(s, a).value)
  {
    var t := Step(s, a).value;
    match a
    case Send(c) => DeliveryWhenSent(s, c);
    case Take(w) => DeliveryWhenTaken(s, w);
    case Finish(w) => DeliveryWhenFinished(s, w);
    case Spawn => DeliveryWhenPoolChanges(s, a);
    case Exit(_) => DeliveryWhenPoolChanges(s, a);
    case CallExecute(_) => DeliveryWhenCalled(s, a);
    case CallQueue(_) => DeliveryWhenCalled(s, a);
    case SetWorkers(_) => DeliveryWhenConfigured(s, t);
    case SetBreaker(_) => DeliveryWhenConfigured(s, t);
    case Register(_, _) => DeliveryWhenConfigured(s, t);
    case CloseStop => DeliveryWhenConfigured(s, t);
    case _ => DeliveryWhenCallSteps(s, a, a.c);
  }

  lemma DeliveryWhenConfigured(s: State, t: State)
    requires Delivery(s) && StopOnce(t)
    requires t.queue == s.queue && t.pool == s.pool && t.calls == s.calls
    requires t.accepted == s.accepted && t.taken == s.taken && t.finished == s.finished
    ensures Delivery(t)
  {
    assert forall d :: AtWorker(s, d) ==> AtWorker(t, d);
  }

  lemma DeliveryWhenCallSteps(s: State, a: Action, c: nat)
    requires Delivery(s) && Step(s, a).Some?
    requires (a.ReadConfig? || a.Check? || a.Cancel? || a.LookUp? || a.Invoke? || a.HandleReturns?) && a.c == c
    ensures Delivery(Step(s, a).value)
  {
    var t := Step(s, a).value;
    DeliveryWhenCallMoves(s, t, c, t.calls[c].stage);
  }

  /** A step moves its own call and no other, and Take moves one that waits in the
      channel. */
  lemma OnlyOneCallMoves(s: State, a: Action, c: nat)
    requires Step(s, a).Some? && c < |s.calls| && !OnCall(a, c)
    requires a.Take? ==> s.queue == [] || s.queue[0] != c
    ensures c < |Step(s, a).value.calls| && Step(s, a).value.calls[c] == s.calls[c]
  {
  }

  lemma FrontIsQueued(s: State)
    requires Channel(s) && s.queue != []
    ensures s.queue[0] < |s.calls| && s.calls[s.queue[0]].stage.Queued?
  {
    assert s.queue[0] in s.queue && s.queue[0] in s.accepted;
  }

  // ---------------------------------------------------------------------------
  // Gating: what has to come before a Domain's Handle.
  // ---------------------------------------------------------------------------

  function BreakerAfter(log: seq<Event>): Option<Breaker> {
    if log == [] then None
    else match log[|log| - 1]
      case Installed(b) => b
      case _ => BreakerAfter(log[..|log| - 1])
  }

  function RegistryAfter(log: seq<Event>): map<Gvk, Domain> {
    if log == [] then map[]
    else match log[|log| - 1]
      case Registered(gvk, d) => RegistryAfter(log[..|log| - 1])[gvk := d]
      case _ => RegistryAfter(log[..|log| - 1])
  }

  /** What one call did, in order. */
  function Trace(log: seq<Event>, c: nat): seq<Mark> {
    if log == [] then []
    else
      var before := Trace(log[..|log| - 1], c);
      match log[|log| - 1]
      case Did(d, mark) => if d == c then before + [mark] else before
      case _ => before
  }

  /** The trace is n consultations of an installed breaker, all of which allowed. */
  predicate Passed(t: seq<Mark>, n: nat) {
    |t| == 2 * n && forall i :: 0 <= i < n ==> t[2 * i].ReadBreaker? && t[2 * i + 1] == Verdict(true)
  }

  /** Consultations that precede Execute: Queue makes one of its own. */
  function ChecksBefore(viaQueue: bool): nat { if viaQueue then 1 else 0 }

  predicate GatedLookup(viaQueue: bool, t: seq<Mark>, d: Domain) {
    var n := ChecksBefore(viaQueue) + 1;
    |t| == 2 * n + 1 && Passed(t[..2 * n], n) && t[2 * n] == LookedUp(d)
  }

  predicate TraceFits(call: Call, t: seq<Mark>) {
    var n := ChecksBefore(call.viaQueue);
    match call.stage
    case QueueEntered => call.viaQueue && t == []
    case QueueRead(_, b) => call.viaQueue && t == [ReadBreaker(b)]
    case Sending => call.viaQueue && Passed(t, 1)
    case Queued => call.viaQueue && Passed(t, 1)
    case Entered => Passed(t, n)
    case Read(b) => |t| == 2 * n + 1 && Passed(t[..2 * n], n) && t[2 * n] == ReadBreaker(b)
    case Allowed => Passed(t, n + 1)
    case Found(d) => GatedLookup(call.viaQueue, t, d)
    case Handling(d) => |t| == 2 * n + 4 && GatedLookup(call.viaQueue, t[..2 * n + 3], d) && t[2 * n + 3] == Invoked(d)
    case Returned(_) => true
  }

  /** What the entry at position i of the log promises about the entries before it. */
  predicate EntryLegal(log: seq<Event>, calls: seq<Call>, i: nat)
    requires i < |log|
  {
    match log[i]
    case Did(c, mark) => (
      && c < |calls|
      && match mark
         case ReadBreaker(b) => b == BreakerAfter(log[..i])
         case Verdict(allowed) =>
           var t := Trace(log[..i], c);
           t != [] && t[|t| - 1].ReadBreaker? && (t[|t| - 1].breaker.None? ==> allowed)
         case LookedUp(d) =>
           calls[c].cmd.gvk in RegistryAfter(log[..i]) && RegistryAfter(log[..i])[calls[c].cmd.gvk] == d
         case Invoked(d) => GatedLookup(calls[c].viaQueue, Trace(log[..i], c), d))
    case _ => true
  }

  ghost predicate TracesFit(log: seq<Event>, calls: seq<Call>) {
    && (forall c :: 0 <= c < |calls| ==> TraceFits(calls[c], Trace(log, c)))
    && (forall c :: c >= |calls| ==> Trace(log, c) == [])
  }

  ghost predicate Gates(s: State) {
    && s.breaker == BreakerAfter(s.log)
    && s.registry == RegistryAfter(s.log)
    && TracesFit(s.log, s.calls)
    && (forall i :: 0 <= i < |s.log| ==> EntryLegal(s.log, s.calls, i))
  }

  lemma TraceAfter(log: seq<Event>, e: Event, c: nat)
    ensures Trace(log + [e], c) == if e.Did? && e.call == c then Trace(log, c) + [e.mark] else Trace(log, c)
    ensures BreakerAfter(log + [e]) == if e.Installed? then e.breaker else BreakerAfter(log)
    ensures RegistryAfter(log + [e]) == if e.Registered? then RegistryAfter(log)[e.gvk := e.domain] else RegistryAfter(log)
  {
    assert (log + [e])[..|log|] == log;
  }

  /** Same commands and origins, perhaps more calls: entries stay legal. */
  lemma EntriesStayLegal(log: seq<Event>, more: seq<Event>, calls: seq<Call>, calls': seq<Call>)
    requires forall i :: 0 <= i < |log| ==> EntryLegal(log, calls, i)
    requires |calls| <= |calls'|
    requires forall c :: 0 <= c < |calls| ==> calls'[c].cmd == calls[c].cmd && calls'[c].viaQueue == calls[c].viaQueue
    ensures forall i :: 0 <= i < |log| ==> EntryLegal(log + more, calls', i)
  {
    forall i | 0 <= i < |log| ensures EntryLegal(log + more, calls', i) {
      assert (log + more)[..i] == log[..i];
      assert EntryLegal(log, calls, i);
    }
  }

  lemma GatesWhenMarked(s: State, t: State, c: nat, mark: Mark, stage: Stage)
    requires Gates(s) && c < |s.calls|
    requires t == Marked(s, c, mark, stage)
    requires TraceFits(t.calls[c], Trace(s.log, c) + [mark])
    requires EntryLegal(s.log + [Did(c, mark)], t.calls, |s.log|)
    ensures Gates(t)
  {
    TracesFitWhenMarked(s.log, s.calls, c, mark, t.calls[c]);
    TraceAfter(s.log, Did(c, mark), c);
    EntriesStayLegal(s.log, [Did(c, mark)], s.calls, t.calls);
  }

  lemma TracesFitWhenMarked(log: seq<Event>, calls: seq<Call>, c: nat, mark: Mark, call: Call)
    requires TracesFit(log, calls) && c < |calls| && TraceFits(call, Trace(log, c) + [mark])
    ensures TracesFit(log + [Did(c, mark)], calls[c := call])
  {
    forall d: nat ensures Trace(log + [Did(c, mark)], d) == if d == c then Trace(log, d) + [mark] else Trace(log, d) {
      TraceAfter(log, Did(c, mark), d);
    }
  }

  lemma GatesWhenUnmarked(s: State, t: State, c: nat, stage: Stage)
    requires Gates(s) && c < |s.calls|
    requires t.calls == At(s, c, stage).calls && t.log == s.log && t.breaker == s.breaker && t.registry == s.registry
    requires TraceFits(t.calls[c], Trace(s.log, c))
    ensures Gates(t)
  {
    EntriesStayLegal(s.log, [], s.calls, t.calls);
    assert s.log + [] == s.log;
  }

  lemma GatesWhenConfigured(s: State, t: State, e: Event)
    requires Gates(s) && !e.Did?
    requires t.log == s.log + [e] && t.calls == s.calls
    requires t.breaker == (if e.Installed? then e.breaker else s.breaker)
    requires t.registry == (if e.Registered? then s.registry[e.gvk := e.domain] else s.registry)
    ensures Gates(t)
  {
    forall d: nat ensures Trace(t.log, d) == Trace(s.log, d) { TraceAfter(s.log, e, d); }
    TraceAfter(s.log, e, 0);
    EntriesStayLegal(s.log, [e], s.calls, t.calls);
  }

  lemma GatesWhenCalled(s: State, t: State, call: Call)
    requires Gates(s)
    requires t == s.(calls := s.calls + [call]) && TraceFits(call, [])
    ensures Gates(t)
  {
    EntriesStayLegal(s.log, [], s.calls, t.calls);
    assert s.log + [] == s.log;
  }

  lemma StepKeepsGates(s: State, a: Action)
    requires Gates(s) && Channel(s) && Step(s, a).Some?
    ensures Gates(Step(s, a).value)
  {
    match a
    case Send(_) => UnmarkedStepKeepsGates(s, a);
    case Cancel(_) => UnmarkedStepKeepsGates(s, a);
    case HandleReturns(_, _) => UnmarkedStepKeepsGates(s, a);
    case Take(_) => UnmarkedStepKeepsGates(s, a);
    case ReadConfig(c) => ReadConfigKeepsGates(s, c);
    case Check(c, allowed) => CheckKeepsGates(s, c, allowed);
    case LookUp(c) => LookUpKeepsGates(s, c);
    case Invoke(c) => InvokeKeepsGates(s, c);
    case Finish(_) => GatesWhenSilent(s, Step(s, a).value);
    case Exit(_) => GatesWhenSilent(s, Step(s, a).value);
    case _ => OutsideStepKeepsGates(s, a);
  }

  lemma UnmarkedStepKeepsGates(s: State, a: Action)
    requires Gates(s) && Channel(s) && Step(s, a).Some?
    requires a.Send? || a.Cancel? || a.HandleReturns? || a.Take?
    ensures Gates(Step(s, a).value)
  {
    var t := Step(s, a).value;
    if a.Take? {
      FrontIsQueued(s);
    }
    var c := if a.Take? then s.queue[0] else a.c;
    UnmarkedStep(s, a, c);
    assert TraceFits(s.calls[c], Trace(s.log, c));
    GatesWhenUnmarked(s, t, c, t.calls[c].stage);
  }

  lemma UnmarkedStep(s: State, a: Action, c: nat)
    requires Step(s, a).Some?
    requires if a.Take? then s.queue != [] && c == s.queue[0] && s.queue[0] < |s.calls| && s.calls[c].stage.Queued?
             else (a.Send? || a.Cancel? || a.HandleReturns?) && c == a.c
    ensures var t := Step(s, a).value;
            && c < |s.calls| && |t.calls| == |s.calls| && t.calls == At(s, c, t.calls[c].stage).calls
            && t.log == s.log && t.breaker == s.breaker && t.registry == s.registry
            && (t.calls[c].stage.Returned? || (t.calls[c].stage.Queued? && s.calls[c].stage.Sending?)
                || (t.calls[c].stage.Entered? && s.calls[c].stage.Queued?))
  {
  }

  lemma OutsideStepKeepsGates(s: State, a: Action)
    requires Gates(s) && OutsideStep(s, a).Some?
    ensures Gates(OutsideStep(s, a).value)
  {
    var t := OutsideStep(s, a).value;
    match a
    case SetBreaker(b) => GatesWhenConfigured(s, t, Installed(b));
    case Register(gvk, d) => GatesWhenConfigured(s, t, Registered(gvk, d));
    case CallExecute(cmd) => GatesWhenCalled(s, t, Call(cmd, false, Entered));
    case CallQueue(cmd) => GatesWhenCalled(s, t, Call(cmd, true, QueueEntered));
    case _ => GatesWhenSilent(s, t);
  }

  lemma GatesWhenSilent(s: State, t: State)
    requires Gates(s) && t.calls == s.calls && t.log == s.log && t.breaker == s.breaker && t.registry == s.registry
    ensures Gates(t)
  {
  }

  lemma ReadConfigKeepsGates(s: State, c: nat)
    requires Gates(s) && Step(s, ReadConfig(c)).Some?
    ensures Gates(Step(s, ReadConfig(c)).value)
  {
    var t := Step(s, ReadConfig(c)).value;
    var trace, mark := Trace(s.log, c), ReadBreaker(s.breaker);
    assert TraceFits(s.calls[c], trace);
    assert (trace + [mark])[..|trace|] == trace;
    assert (s.log + [Did(c, mark)])[..|s.log|] == s.log;
    GatesWhenMarked(s, t, c, mark, t.calls[c].stage);
  }

  lemma CheckKeepsGates(s: State, c: nat, allowed: bool)
    requires Gates(s) && Step(s, Check(c, allowed)).Some?
    ensures Gates(Step(s, Check(c, allowed)).value)
  {
    var t := Step(s, Check(c, allowed)).value;
    var trace, mark := Trace(s.log, c), Verdict(allowed);
    assert TraceFits(s.calls[c], trace);
    assert (s.log + [Did(c, mark)])[..|s.log|] == s.log;
    GatesWhenMarked(s, t, c, mark, t.calls[c].stage);
  }

  lemma LookUpKeepsGates(s: State, c: nat)
    requires Gates(s) && Step(s, LookUp(c)).Some?
    ensures Gates(Step(s, LookUp(c)).value)
  {
    var t := Step(s, LookUp(c)).value;
    var trace := Trace(s.log, c);
    assert TraceFits(s.calls[c], trace);
    if s.calls[c].cmd.gvk in s.registry {
      var mark := LookedUp(s.registry[s.calls[c].cmd.gvk]);
      assert (trace + [mark])[..|trace|] == trace;
      assert (s.log + [Did(c, mark)])[..|s.log|] == s.log;
      GatesWhenMarked(s, t, c, mark, t.calls[c].stage);
    } else {
      GatesWhenUnmarked(s, t, c, t.calls[c].stage);
    }
  }

  lemma InvokeKeepsGates(s: State, c: nat)
    requires Gates(s) && Step(s, Invoke(c)).Some?
    ensures Gates(Step(s, Invoke(c)).value)
  {
    var t := Step(s, Invoke(c)).value;
    var trace, mark := Trace(s.log, c), Invoked(s.calls[c].stage.domain);
    assert TraceFits(s.calls[c], trace);
    assert (trace + [mark])[..|trace|] == trace;
    assert (s.log + [Did(c, mark)])[..|s.log|] == s.log;
    GatesWhenMarked(s, t, c, mark, t.calls[c].stage);
  }

  // ---------------------------------------------------------------------------
  // All runs
  // ---------------------------------------------------------------------------

  ghost predicate Inv(s: State) {
    Delivery(s) && Gates(s)
  }

  lemma {:induction false} RunKeepsInv(s: State, actions: seq<Action>)
    requires Inv(s) && Run(s, actions).Some?
    ensures Inv(Run(s, actions).value)
    decreases |actions|
  {
    if actions != [] {
      StepKeepsDelivery(s, actions[0]);
      StepKeepsGates(s, actions[0]);
      RunKeepsInv(Step(s, actions[0]).value, actions[1..]);
    }
  }

  /** First in, first out, nothing lost and nothing duplicated, in every
      reachable state. */
  lemma DeliveryOverEveryRun(actions: seq<Action>)
    requires Run(INITIAL, actions).Some?
    ensures var s := Run(INITIAL, actions).value;
            && s.accepted == s.taken + s.queue && |s.queue| <= 1024 && Distinct(s.accepted)
            && (forall c :: c in s.taken ==> (c in s.finished <==> !AtWorker(s, c)))
            && (forall c :: c in s.finished || AtWorker(s, c) ==> c in s.taken)
            && (forall v, w, c :: 0 <= v < |s.pool| && 0 <= w < |s.pool| && s.pool[v] == Busy(c) && s.pool[w] == Busy(c) ==> v == w)
            && Distinct(s.finished)
            && s.closes <= 1 && (s.closes == 1 <==> s.stopped)
  {
    RunKeepsInv(INITIAL, actions);
  }

  /** Over every run: where a Domain is invoked, the same call has before that
      consulted the breaker installed at that moment as often as its origin
      demands, was allowed every time, and has then found this Domain registered
      for its GVK. */
  lemma HandleOnlyThroughTheGates(actions: seq<Action>, i: nat)
    requires Run(INITIAL, actions).Some?
    requires i < |Run(INITIAL, actions).value.log|
    ensures var s := Run(INITIAL, actions).value;
            EntryLegal(s.log, s.calls, i)
  {
    RunKeepsInv(INITIAL, actions);
  }

  lemma {:induction false} TraceGrows(log: seq<Event>, i: nat, j: nat, c: nat)
    requires i <= j <= |log|
    ensures |Trace(log[..i], c)| <= |Trace(log[..j], c)|
    decreases j
  {
    if i < j {
      assert log[..j][..j - 1] == log[..j - 1];
      TraceGrows(log, i, j - 1, c);
    }
  }

  lemma OneMoreMark(log: seq<Event>, i: nat, c: nat)
    requires i < |log| && log[i].Did? && log[i].call == c
    ensures |Trace(log[..i + 1], c)| == |Trace(log[..i], c)| + 1
  {
    assert log[..i + 1][..i] == log[..i];
  }

  /** Where a Domain is invoked, the call has left exactly the marks of its checks and
      of the lookup. */
  lemma MarksBeforeInvoked(s: State, i: nat)
    requires Gates(s) && i < |s.log| && s.log[i].Did? && s.log[i].mark.Invoked?
    ensures var c := s.log[i].call;
            c < |s.calls| && |Trace(s.log[..i], c)| == 2 * ChecksBefore(s.calls[c].viaQueue) + 3
  {
    assert EntryLegal(s.log, s.calls, i);
  }

  /** A command is handled at most once, whatever path it takes. */
  lemma HandledAtMostOnce(actions: seq<Action>, i: nat, j: nat)
    requires Run(INITIAL, actions).Some?
    requires i < j < |Run(INITIAL, actions).value.log|
    requires var log := Run(INITIAL, actions).value.log;
             log[i].Did? && log[i].mark.Invoked? && log[j].Did? && log[j].mark.Invoked?
    ensures var log := Run(INITIAL, actions).value.log; log[i].call != log[j].call
  {
    var s := Run(INITIAL, actions).value;
    RunKeepsInv(INITIAL, actions);
    if s.log[i].call == s.log[j].call {
      var c := s.log[i].call;
      MarksBeforeInvoked(s, i);
      MarksBeforeInvoked(s, j);
      OneMoreMark(s.log, i, c);
      TraceGrows(s.log, i + 1, j, c);
      assert false;
    }
  }
}
