/**
The status subresource of one object on the API server, its concurrent writers,
and the retry-on-conflict loop every status writer runs.
*/
module StatusServer {
  import opened Prelude
  import opened Conditions

  datatype Stored<C> = Stored(contract: Option<C>, conditions: seq<Condition>)

  /** ReplyLost: the server applied the update, the caller saw an error. */
  datatype ApiError = Conflict | NotFound | Refused(reason: string) | ReplyLost

  /** One change of the stored object. None is an object that does not exist. */
  datatype Commit<C> = Commit(writer: nat, before: Option<Stored<C>>, after: Option<Stored<C>>)

  /** The object went through these changes one after the other. */
  ghost predicate Chained<C>(origin: Option<Stored<C>>, history: seq<Commit<C>>, current: Option<Stored<C>>) {
    if history == [] then current == origin
    else history[|history| - 1].after == current
         && Chained(origin, history[..|history| - 1], history[|history| - 1].before)
  }

  /** client-go's DefaultRetry makes five attempts. */
  const ATTEMPTS: nat := 5

  /** What n attempts that each ended in a conflict got to hear: the fetch worked,
      the update did not. */
  function Conflicts(n: nat): (r: seq<Option<ApiError>>)
    ensures |r| == 2 * n
  {
    if n == 0 then [] else Conflicts(n - 1) + [None, Some(Conflict)]
  }

  /** The loop ended for the right reason: after a failed fetch, after an update
      that ended in anything but a conflict, or after ATTEMPTS conflicts. */
  ghost predicate Retried(answers: seq<Option<ApiError>>, err: Option<ApiError>) {
    || (answers == Conflicts(ATTEMPTS) && err == Some(Conflict))
    || exists n: nat :: n < ATTEMPTS && err != Some(Conflict)
                        && (answers == Conflicts(n) + [None, err] || (err.Some? && answers == Conflicts(n) + [err]))
  }

  ghost predicate Answered(before: seq<Option<ApiError>>, after: seq<Option<ApiError>>, err: Option<ApiError>) {
    |before| <= |after| && Retried(after[|before|..], err)
  }

  lemma StoppedAfter(before: seq<Option<ApiError>>, after: seq<Option<ApiError>>, n: nat, fetched: bool, err: Option<ApiError>)
    requires n < ATTEMPTS && err != Some(Conflict) && (!fetched ==> err.Some?)
    requires after == before + Conflicts(n) + if fetched then [None, err] else [err]
    ensures Answered(before, after, err)
  {
    assert after[|before|..] == Conflicts(n) + if fetched then [None, err] else [err];
  }

  lemma GaveUp(before: seq<Option<ApiError>>, after: seq<Option<ApiError>>)
    requires after == before + Conflicts(ATTEMPTS)
    ensures Answered(before, after, Some(Conflict))
  {
    assert after[|before|..] == Conflicts(ATTEMPTS);
  }

  lemma OneMoreConflict(before: seq<Option<ApiError>>, after: seq<Option<ApiError>>, n: nat)
    requires after == before + Conflicts(n) + [None, Some(Conflict)]
    ensures after == before + Conflicts(n + 1)
  {
  }

  /** The history grew from before to after, and all that writer me added is one
      change at landed, which applies mutate to what was stored; or nothing. */
  ghost predicate WroteAt<C>(
      before: seq<Commit<C>>, after: seq<Commit<C>>, me: nat, mutate: Stored<C> -> Stored<C>, landed: Option<nat>)
  {
    && |before| <= |after| && after[..|before|] == before
    && (forall i :: |before| <= i < |after| && after[i].writer == me ==> landed == Some(i))
    && (landed.Some? ==>
          && |before| <= landed.value < |after|
          && after[landed.value].writer == me && after[landed.value].before.Some?
          && after[landed.value].after == Some(mutate(after[landed.value].before.value)))
  }

  lemma WroteAfterNothing<C>(
      a: seq<Commit<C>>, b: seq<Commit<C>>, c: seq<Commit<C>>, me: nat, mutate: Stored<C> -> Stored<C>, landed: Option<nat>)
    requires WroteAt(a, b, me, mutate, None) && WroteAt(b, c, me, mutate, landed)
    ensures WroteAt(a, c, me, mutate, landed)
  {
    assert c[..|a|] == c[..|b|][..|a|];
    assert forall i :: |a| <= i < |b| ==> c[i] == c[..|b|][i];
  }

  /** answers: how the calls made through Get and Update ended. */
  class Server<C(0)> {
    const origin: Option<Stored<C>>
    var current: Option<Stored<C>>
    var version: nat
    var history: seq<Commit<C>>
    var answers: seq<Option<ApiError>>

    ghost predicate Valid()
      reads this
    {
      Chained(origin, history, current)
    }

    constructor (initial: Option<Stored<C>>)
      ensures Valid() && current == initial && history == [] && answers == []
    {
      origin, current, version, history, answers := initial, initial, 0, [], [];
    }

    method Replace(writer: nat, after: Option<Stored<C>>)
      requires Valid()
      modifies this
      ensures Valid() && current == after && version > old(version) && answers == old(answers)
      ensures history == old(history) + [Commit(writer, old(current), after)]
    {
      var commit := Commit(writer, current, after);
      assert (history + [commit])[..|history|] == history;
      history := history + [commit];
      current := after;
      version := version + 1;
    }

    /** Any number of changes by other writers, of any kind. */
    method Interfere(me: nat)
      requires Valid()
      modifies this
      ensures Valid() && version >= old(version) && |history| >= |old(history)| && answers == old(answers)
      ensures history[..|old(history)|] == old(history)
      ensures forall i :: |old(history)| <= i < |history| ==> history[i].writer != me
      ensures version == old(version) ==> current == old(current) && history == old(history)
    {
      var n: nat := *;
      var i := 0;
      while i < n
        invariant Valid() && version >= old(version) && |history| >= |old(history)| && answers == old(answers)
        invariant history[..|old(history)|] == old(history)
        invariant forall i :: |old(history)| <= i < |history| ==> history[i].writer != me
        invariant version == old(version) ==> current == old(current) && history == old(history)
      {
        var writer: nat := *;
        var after: Option<Stored<C>> := *;
        if writer != me {
          Replace(writer, after);
        }
        i := i + 1;
      }
    }

    method Get() returns (r: Result<(Stored<C>, nat), ApiError>)
      modifies this`answers
      ensures answers == old(answers) + [match r case Ok(_) => None case Err(e) => Some(e)]
      ensures r.Ok? ==> current == Some(r.value.0) && version == r.value.1
      ensures r.Err? ==> r.error.NotFound? || r.error.Refused?
    {
      var failure: Option<string> := *;
      r := if failure.Some? then Err(Refused(failure.value))
           else if current.None? then Err(NotFound)
           else Ok((current.value, version));
      answers := answers + [match r case Ok(_) => None case Err(e) => Some(e)];
    }

    /** A conditional update: it takes effect only on the version that was read. */
    method Update(me: nat, value: Stored<C>, read: nat) returns (err: Option<ApiError>)
      requires Valid()
      modifies this
      ensures Valid() && answers == old(answers) + [err]
      ensures err.None? || err == Some(ReplyLost) ==>
                old(version) == read && current == Some(value)
                && history == old(history) + [Commit(me, old(current), Some(value))]
      ensures err.Some? && err != Some(ReplyLost) ==>
                current == old(current) && version == old(version) && history == old(history)
    {
      var failure: Option<string> := *;
      if failure.Some? {
        err := Some(Refused(failure.value));
      } else if current.None? {
        err := Some(NotFound);
      } else if version != read {
        err := Some(Conflict);
      } else {
        Replace(me, Some(value));
        var lost: bool := *;
        err := if lost then Some(ReplyLost) else None;
      }
      answers := answers + [err];
    }

    /** One attempt: fetch, mutate, update. fetched tells whether it got to the update. */
    method Attempt(me: nat, mutate: Stored<C> -> Stored<C>)
      returns (err: Option<ApiError>, fetched: bool, ghost landed: Option<nat>)
      requires Valid()
      modifies this
      ensures Valid() && WroteAt(old(history), history, me, mutate, landed)
      ensures answers == old(answers) + (if fetched then [None, err] else [err])
      ensures !fetched ==> err.Some? && err != Some(Conflict)
      ensures landed.Some? <==> (err.None? || err == Some(ReplyLost))
    {
      landed := None;
      Interfere(me);
      var latest := Get();
      if latest.Err? {
        return Some(latest.error), false, None;
      }
      fetched := true;
      var value, read := mutate(latest.value.0), latest.value.1;
      Interfere(me);
      ghost var before := |history|;
      err := Update(me, value, read);
      if err.None? || err == Some(ReplyLost) {
        landed := Some(before);
      }
      Interfere(me);
    }

    /** Attempts until one ends in anything but a conflict, at most five in all.
        landed is where this writer's change stands in the history, if anywhere. */
    method UpdateWithRetry(me: nat, mutate: Stored<C> -> Stored<C>) returns (err: Option<ApiError>, ghost landed: Option<nat>)
      requires Valid()
      modifies this
      ensures Valid() && WroteAt(old(history), history, me, mutate, landed)
      ensures landed.Some? <==> (err.None? || err == Some(ReplyLost))
      ensures Answered(old(answers), answers, err)
      ensures err == Some(Conflict) ==> |answers| == |old(answers)| + 10
    {
      err, landed := None, None;
      var attempt := 0;
      while attempt < ATTEMPTS
        invariant attempt <= ATTEMPTS && landed.None? && (attempt > 0 ==> err == Some(Conflict))
        invariant Valid() && WroteAt(old(history), history, me, mutate, None)
        invariant answers == old(answers) + Conflicts(attempt)
      {
        var fetched;
        ghost var before := history;
        err, fetched, landed := Attempt(me, mutate);
        WroteAfterNothing(old(history), before, history, me, mutate, landed);
        if err != Some(Conflict) {
          StoppedAfter(old(answers), answers, attempt, fetched, err);
          return;
        }
        OneMoreConflict(old(answers), answers, attempt);
        attempt := attempt + 1;
      }
      GaveUp(old(answers), answers);
    }
  }

  // ---------------------------------------------------------------------------
  // The Route status writer
  // ---------------------------------------------------------------------------

  function MergedInto<C>(cs: seq<Condition>): Stored<C> -> Stored<C> {
    (s: Stored<C>) => s.(conditions := MergeAll(s.conditions, cs))
  }

  /** One atomic point, if any, where the stored conditions go from what they are
      then to the fold over them; nothing on any other ending. */
  method WriteRouteStatus<C(0)>(server: Server<C>, me: nat, conditions: seq<Condition>)
    returns (err: Option<ApiError>, ghost landed: Option<nat>)
    requires server.Valid()
    modifies server
    ensures server.Valid() && WroteAt(old(server.history), server.history, me, MergedInto(conditions), landed)
    ensures landed.Some? ==>
              var c := server.history[landed.value];
              IsMerge(c, conditions) && c.after.value.contract == c.before.value.contract
    ensures landed.Some? <==> (err.None? || err == Some(ReplyLost))
    ensures Answered(old(server.answers), server.answers, err)
  {
    err, landed := server.UpdateWithRetry(me, MergedInto(conditions));
  }

  /** The loop inside one attempt. */
  method MergeEach(conds: seq<Condition>, cs: seq<Condition>) returns (r: seq<Condition>)
    ensures r == MergeAll(conds, cs)
  {
    r := conds;
    for i := 0 to |cs|
      invariant r == MergeAll(conds, cs[..i])
    {
      MergeAllConcat(conds, cs[..i], [cs[i]]);
      assert cs[..i + 1] == cs[..i] + [cs[i]];
      r := MergeCondition(r, cs[i]);
      assert MergeAll(MergeAll(conds, cs[..i]), [cs[i]]) == Merge(MergeAll(conds, cs[..i]), cs[i]);
    }
    assert cs[..|cs|] == cs;
  }

  // ---------------------------------------------------------------------------
  // No lost updates
  // ---------------------------------------------------------------------------

  /** A change that merges a list of conditions, or leaves type t alone otherwise. */
  ghost predicate LeavesType<C>(c: Commit<C>, t: string) {
    && c.before.Some? && c.after.Some?
    && Lookup(c.after.value.conditions, t) == Lookup(c.before.value.conditions, t)
  }

  ghost predicate IsMerge<C>(c: Commit<C>, cs: seq<Condition>) {
    && c.before.Some? && c.after.Some?
    && c.after.value.conditions == MergeAll(c.before.value.conditions, cs)
  }

  /** Whatever type a landed write does not name reads after it as before it. */
  lemma MergeLeavesOtherTypes<C>(c: Commit<C>, cs: seq<Condition>, t: string)
    requires IsMerge(c, cs) && LastOf(cs, t).None?
    ensures LeavesType(c, t)
  {
    MergeAllLookup(c.before.value.conditions, cs, t);
  }

  lemma {:induction false} TypeSurvives<C>(origin: Option<Stored<C>>, history: seq<Commit<C>>, current: Option<Stored<C>>, k: nat, t: string)
    requires Chained(origin, history, current) && k < |history| && history[k].after.Some?
    requires forall j :: k < j < |history| ==> LeavesType(history[j], t)
    ensures current.Some? && Lookup(current.value.conditions, t) == Lookup(history[k].after.value.conditions, t)
  {
    if k < |history| - 1 {
      var last := history[|history| - 1];
      assert LeavesType(last, t);
      TypeSurvives(origin, history[..|history| - 1], last.before, k, t);
    }
  }

  /** Every condition of a landed write is still there at the end of any history
      in which no later change names its type. */
  lemma LandedWriteSurvives<C>(
      origin: Option<Stored<C>>, history: seq<Commit<C>>, current: Option<Stored<C>>, k: nat, cs: seq<Condition>, t: string)
    requires Chained(origin, history, current) && k < |history| && IsMerge(history[k], cs) && LastOf(cs, t).Some?
    requires forall j :: k < j < |history| ==> LeavesType(history[j], t)
    ensures current.Some? && Lookup(current.value.conditions, t) == LastOf(cs, t)
  {
    MergeAllLookup(history[k].before.value.conditions, cs, t);
    TypeSurvives(origin, history, current, k, t);
  }

  /** Two writers with disjoint types, in either order and with anything else in
      between that names neither t nor u: both are in the final state. */
  lemma BothWritersSurvive<C>(
      origin: Option<Stored<C>>, history: seq<Commit<C>>, current: Option<Stored<C>>,
      i: nat, j: nat, xs: seq<Condition>, ys: seq<Condition>, t: string, u: string)
    requires Chained(origin, history, current) && i < |history| && j < |history| && i != j
    requires IsMerge(history[i], xs) && IsMerge(history[j], ys)
    requires forall a, b :: 0 <= a < |xs| && 0 <= b < |ys| ==> xs[a].ctype != ys[b].ctype
    requires LastOf(xs, t).Some? && LastOf(ys, u).Some?
    requires forall k :: 0 <= k < |history| && k != i && k != j ==> LeavesType(history[k], t) && LeavesType(history[k], u)
    ensures current.Some?
    ensures Lookup(current.value.conditions, t) == LastOf(xs, t)
    ensures Lookup(current.value.conditions, u) == LastOf(ys, u)
  {
    DisjointTypes(xs, ys, t, u);
    MergeLeavesOtherTypes(history[j], ys, t);
    MergeLeavesOtherTypes(history[i], xs, u);
    LandedWriteSurvives(origin, history, current, i, xs, t);
    LandedWriteSurvives(origin, history, current, j, ys, u);
  }

  lemma DisjointTypes(xs: seq<Condition>, ys: seq<Condition>, t: string, u: string)
    requires forall a, b :: 0 <= a < |xs| && 0 <= b < |ys| ==> xs[a].ctype != ys[b].ctype
    requires LastOf(xs, t).Some? && LastOf(ys, u).Some?
    ensures LastOf(ys, t).None? && LastOf(xs, u).None?
  {
    LastOfIsListed(xs, t);
    LastOfIsListed(ys, t);
    LastOfIsListed(xs, u);
    LastOfIsListed(ys, u);
  }
}
