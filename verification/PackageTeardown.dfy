/**
Deleting a Package takes two parties: the caller marks the App and polls, and
kapp-controller removes it, acting as the App's service account. The protocol is
a transition system over any number of Packages; the caller of each Package, the
controller and anyone else who deletes an App take turns in any order.
*/
module PackageTeardown {
  import opened Prelude
  import opened PackageIdentity

  /** How far the caller of one Package is. Asked: between the two API calls of
      DeleteApplication. Gone: DeleteApplication has just returned nil. */
  datatype Stage = Absent | Provisioned | Deleting | Asked | Gone

  /** apps tells of each App whether it is marked for deletion. */
  datatype State = State(apps: map<PackageID, bool>, accounts: set<Account>, stages: map<PackageID, Stage>)

  const INITIAL := State(map[], {}, map[])

  function StageOf(s: State, id: PackageID): Stage {
    if id in s.stages then s.stages[id] else Absent
  }

  /** How an API call ends: done, not done, or done with the reply lost. */
  datatype Reply = Served | Refused | Lost

  datatype Action =
    | Provision(id: PackageID)
    | Apply(id: PackageID, reply: Reply)
    | Delete(id: PackageID, reply: Reply)
    | Get(id: PackageID, failed: bool)
    | RemoveAccount(id: PackageID)
      // other parties
    | Mark(id: PackageID)
    | Controller(id: PackageID)

  /** None: not enabled. A careful caller removes the account only after nil. */
  function Step(s: State, a: Action, careful: bool): Option<State> {
    var id := a.id;
    match a
    case Provision(_) =>
      if StageOf(s, id).Absent?
      then Some(s.(accounts := s.accounts + {AccountOf(id)}, stages := s.stages[id := Provisioned]))
      else None
    case Apply(_, reply) =>
      if !StageOf(s, id).Provisioned? then None
      else if reply.Refused? || id in s.apps then Some(s)
      else Some(s.(apps := s.apps[id := false]))
    case Delete(_, reply) =>
      var marked := if reply.Refused? || id !in s.apps then s.apps else s.apps[id := true];
      Some(s.(apps := marked, stages := s.stages[id := if reply.Served? then Asked else Deleting]))
    case Get(_, failed) =>
      if !StageOf(s, id).Asked? then None
      else Some(s.(stages := s.stages[id := if failed || id in s.apps then Deleting else Gone]))
    case RemoveAccount(_) =>
      if StageOf(s, id).Gone? || (!careful && StageOf(s, id).Deleting?)
      then Some(s.(accounts := s.accounts - {AccountOf(id)}, stages := s.stages[id := Absent]))
      else None
    case Mark(_) =>
      if id in s.apps then Some(s.(apps := s.apps[id := true])) else None
    case Controller(_) =>
      if id in s.apps && s.apps[id] && AccountOf(id) in s.accounts then Some(s.(apps := s.apps - {id})) else None
  }

  function Run(s: State, actions: seq<Action>, careful: bool): Option<State>
    decreases |actions|
  {
    if actions == [] then Some(s)
    else match Run(s, actions[..|actions| - 1], careful)
      case None => None
      case Some(t) => Step(t, actions[|actions| - 1], careful)
  }

  lemma RunThen(s: State, actions: seq<Action>, a: Action, careful: bool)
    requires Run(s, actions, careful).Some?
    ensures Run(s, actions + [a], careful) == Step(Run(s, actions, careful).value, a, careful)
  {
    assert (actions + [a])[..|actions|] == actions;
  }

  // ---------------------------------------------------------------------------
  // Safety
  // ---------------------------------------------------------------------------

  ghost predicate Inv(s: State) {
    && (forall id :: id in s.apps ==> AccountOf(id) in s.accounts)
    && (forall id :: StageOf(s, id).Provisioned? ==> AccountOf(id) in s.accounts)
    && (forall id :: StageOf(s, id).Absent? || StageOf(s, id).Gone? ==> id !in s.apps)
  }

  lemma StepKeepsInv(s: State, a: Action)
    requires Inv(s) && Step(s, a, true).Some?
    ensures Inv(Step(s, a, true).value)
  {
    var t := Step(s, a, true).value;
    forall id | id != a.id ensures AccountOf(id) in t.accounts <==> AccountOf(id) in s.accounts {
      AccountsDiffer(id, a.id);
    }
    assert forall id :: id != a.id ==> StageOf(t, id) == StageOf(s, id) && (id in t.apps <==> id in s.apps);
  }

  /** In every run of careful callers, whatever the controller, other parties and
      failing calls do: an App that exists still has its service account. */
  lemma {:induction false} AccountOutlivesApp(actions: seq<Action>)
    requires Run(INITIAL, actions, true).Some?
    ensures Inv(Run(INITIAL, actions, true).value)
    ensures forall id :: id in Run(INITIAL, actions, true).value.apps ==> AccountOf(id) in Run(INITIAL, actions, true).value.accounts
    decreases |actions|
  {
    if actions != [] {
      var front := actions[..|actions| - 1];
      AccountOutlivesApp(front);
      StepKeepsInv(Run(INITIAL, front, true).value, actions[|actions| - 1]);
    }
  }

  // ---------------------------------------------------------------------------
  // A deletion can always be finished
  // ---------------------------------------------------------------------------

  function Finishing(s: State, id: PackageID): seq<Action> {
    if id in s.apps then [Delete(id, Served), Controller(id), Get(id, false), RemoveAccount(id)]
    else [Delete(id, Served), Get(id, false), RemoveAccount(id)]
  }

  /** The state between the steps of Finishing: App marked or absent, caller at stage. */
  function Midway(s: State, apps: map<PackageID, bool>, id: PackageID, stage: Stage): State {
    State(apps, s.accounts, s.stages[id := stage])
  }

  lemma AskThenRemove(s: State, id: PackageID)
    requires id !in s.apps
    ensures var asked := Midway(s, s.apps, id, Asked);
            Step(asked, Get(id, false), true) == Some(Midway(s, s.apps, id, Gone))
            && Step(Midway(s, s.apps, id, Gone), RemoveAccount(id), true) ==
               Some(State(s.apps, s.accounts - {AccountOf(id)}, s.stages[id := Absent]))
  {
    assert s.stages[id := Asked][id := Gone] == s.stages[id := Gone];
    assert s.stages[id := Gone][id := Absent] == s.stages[id := Absent];
  }

  lemma MarkThenControl(s: State, id: PackageID)
    requires id in s.apps && AccountOf(id) in s.accounts
    ensures var marked := Midway(s, s.apps[id := true], id, Asked);
            && Step(s, Delete(id, Served), true) == Some(marked)
            && Step(marked, Controller(id), true) == Some(Midway(s, s.apps - {id}, id, Asked))
  {
    assert s.apps[id := true] - {id} == s.apps - {id};
  }

  lemma RunOfThree(s: State, a: Action, b: Action, c: Action, careful: bool)
    requires Step(s, a, careful).Some? && Step(Step(s, a, careful).value, b, careful).Some?
    ensures Run(s, [a, b, c], careful) == Step(Step(Step(s, a, careful).value, b, careful).value, c, careful)
  {
    assert [a, b, c][..2] == [a, b] && [a, b][..1] == [a] && [a][..0] == [];
    assert Run(s, [a], careful) == Step(s, a, careful);
  }

  /** From every state a run of careful callers reaches, at whatever stage: one
      more try ends with App and account gone and every other Package as it was. */
  lemma DeletionCanFinish(actions: seq<Action>, id: PackageID)
    requires Run(INITIAL, actions, true).Some?
    ensures var s := Run(INITIAL, actions, true).value;
            Run(s, Finishing(s, id), true) ==
            Some(State(s.apps - {id}, s.accounts - {AccountOf(id)}, s.stages[id := Absent]))
  {
    AccountOutlivesApp(actions);
    var s := Run(INITIAL, actions, true).value;
    var gone := State(s.apps - {id}, s.accounts, s.stages);
    AskThenRemove(gone, id);
    if id in s.apps {
      MarkThenControl(s, id);
      RunOfThree(s, Delete(id, Served), Controller(id), Get(id, false), true);
      var three := [Delete(id, Served), Controller(id), Get(id, false)];
      RunThen(s, three, RemoveAccount(id), true);
      assert three + [RemoveAccount(id)] == Finishing(s, id);
    } else {
      assert gone == s;
      RunOfThree(s, Delete(id, Served), Get(id, false), RemoveAccount(id), true);
    }
  }

  // ---------------------------------------------------------------------------
  // Why the account has to be kept
  // ---------------------------------------------------------------------------

  predicate Stuck(s: State, id: PackageID) {
    && id in s.apps && s.apps[id]
    && AccountOf(id) !in s.accounts
    && !StageOf(s, id).Provisioned? && !StageOf(s, id).Gone?
  }

  /** With the account gone first, nothing but provisioning it again helps: the
      App stays for ever and DeleteApplication never returns nil. */
  lemma {:induction false} StuckStaysStuck(s: State, actions: seq<Action>, careful: bool, id: PackageID)
    requires Stuck(s, id) && Run(s, actions, careful).Some?
    requires forall i :: 0 <= i < |actions| ==> actions[i] != Provision(id)
    ensures Stuck(Run(s, actions, careful).value, id)
    decreases |actions|
  {
    if actions != [] {
      var front, last := actions[..|actions| - 1], actions[|actions| - 1];
      StuckStaysStuck(s, front, careful, id);
      if last.id != id {
        AccountsDiffer(last.id, id);
      }
    }
  }

  /** A caller who takes "in progress" for "done" gets there, for any Package; the
      careful caller is stopped at exactly that step. */
  lemma CarelessCallerGetsStuck(id: PackageID)
    ensures var run := [Provision(id), Apply(id, Served), Delete(id, Served), Get(id, false), RemoveAccount(id)];
            && Run(INITIAL, run, true).None?
            && Run(INITIAL, run, false).Some? && Stuck(Run(INITIAL, run, false).value, id)
  {
    var polled := [Provision(id), Apply(id, Served), Delete(id, Served), Get(id, false)];
    PolledTooEarly(id, true);
    PolledTooEarly(id, false);
    RunThen(INITIAL, polled, RemoveAccount(id), true);
    RunThen(INITIAL, polled, RemoveAccount(id), false);
    assert polled + [RemoveAccount(id)] ==
           [Provision(id), Apply(id, Served), Delete(id, Served), Get(id, false), RemoveAccount(id)];
  }

  lemma PolledTooEarly(id: PackageID, careful: bool)
    ensures Run(INITIAL, [Provision(id), Apply(id, Served), Delete(id, Served), Get(id, false)], careful) ==
            Some(State(map[id := true], {AccountOf(id)}, map[id := Deleting]))
  {
    var provisioned := State(map[], {AccountOf(id)}, map[id := Provisioned]);
    var applied := State(map[id := false], {AccountOf(id)}, map[id := Provisioned]);
    var asked := State(map[id := true], {AccountOf(id)}, map[id := Asked]);
    assert {} + {AccountOf(id)} == {AccountOf(id)};
    assert Step(INITIAL, Provision(id), careful) == Some(provisioned);
    assert Step(provisioned, Apply(id, Served), careful) == Some(applied);
    MarkedApp(id, careful);
    RunOfThree(INITIAL, Provision(id), Apply(id, Served), Delete(id, Served), careful);
    var three := [Provision(id), Apply(id, Served), Delete(id, Served)];
    RunThen(INITIAL, three, Get(id, false), careful);
    assert three + [Get(id, false)] == [Provision(id), Apply(id, Served), Delete(id, Served), Get(id, false)];
  }

  lemma MarkedApp(id: PackageID, careful: bool)
    ensures var asked := State(map[id := true], {AccountOf(id)}, map[id := Asked]);
            && Step(State(map[id := false], {AccountOf(id)}, map[id := Provisioned]), Delete(id, Served), careful) == Some(asked)
            && Step(asked, Get(id, false), careful) == Some(State(map[id := true], {AccountOf(id)}, map[id := Deleting]))
  {
    assert map[id := false][id := true] == map[id := true];
    assert map[id := Provisioned][id := Asked] == map[id := Asked];
    assert map[id := Asked][id := Deleting] == map[id := Deleting];
  }

  // ---------------------------------------------------------------------------
  // The code
  // ---------------------------------------------------------------------------

  ghost predicate Reachable(s: State) {
    exists actions: seq<Action> :: Run(INITIAL, actions, true) == Some(s)
  }

  lemma ReachableStep(s: State, a: Action)
    requires Reachable(s) && Step(s, a, true).Some?
    ensures Reachable(Step(s, a, true).value)
  {
    var actions: seq<Action> :| Run(INITIAL, actions, true) == Some(s);
    RunThen(INITIAL, actions, a, true);
  }

  lemma ReachableInv(s: State)
    requires Reachable(s)
    ensures Inv(s)
  {
    var actions: seq<Action> :| Run(INITIAL, actions, true) == Some(s);
    AccountOutlivesApp(actions);
  }

  datatype TeardownError = Failed(text: string) | InProgress

  /** The API server, together with how far each caller is. */
  class Cluster {
    var apps: map<PackageID, bool>
    var accounts: set<Account>
    var stages: map<PackageID, Stage>

    function Contents(): State
      reads this
    {
      State(apps, accounts, stages)
    }

    ghost predicate Valid()
      reads this
    {
      Reachable(Contents())
    }

    constructor ()
      ensures Valid() && Contents() == INITIAL
    {
      apps, accounts, stages := map[], {}, map[];
      new;
      assert Run(INITIAL, [], true) == Some(Contents());
    }

    method Do(a: Action)
      requires Valid() && Step(Contents(), a, true).Some?
      modifies this
      ensures Valid() && Contents() == Step(old(Contents()), a, true).value
    {
      ReachableStep(Contents(), a);
      var t := Step(Contents(), a, true).value;
      apps, accounts, stages := t.apps, t.accounts, t.stages;
    }

    /** Any steps of the other callers, of the controller and of anyone else. */
    method Interfere(id: PackageID)
      requires Valid()
      modifies this
      ensures Valid()
      ensures StageOf(Contents(), id) == StageOf(old(Contents()), id)
      ensures AccountOf(id) in accounts <==> AccountOf(id) in old(accounts)
      ensures id in apps ==> id in old(apps) && (old(apps)[id] ==> apps[id])
    {
      var n: nat := *;
      var i := 0;
      while i < n
        invariant Valid()
        invariant StageOf(Contents(), id) == StageOf(old(Contents()), id)
        invariant AccountOf(id) in accounts <==> AccountOf(id) in old(accounts)
        invariant id in apps ==> id in old(apps) && (old(apps)[id] ==> apps[id])
      {
        var a: Action := *;
        if (a.Mark? || a.Controller? || a.id != id) && Step(Contents(), a, true).Some? {
          if a.id != id {
            AccountsDiffer(a.id, id);
          }
          Do(a);
        }
        i := i + 1;
      }
    }

    /** Nil only once the App is gone, "in progress" only while it exists and is
        marked, any other error only when a call failed. How the two calls end is up
        to the API server. */
    method DeleteApplication(id: PackageID, reply: Reply, getFails: bool, text: string) returns (err: Option<TeardownError>)
      requires Valid()
      modifies this
      ensures Valid()
      ensures err.None? ==> id !in apps && StageOf(Contents(), id).Gone?
      ensures err.Some? ==> StageOf(Contents(), id).Deleting?
      ensures err == Some(InProgress) ==> id in apps && apps[id] && id in old(apps)
      ensures err.Some? && err.value.Failed? <==> !reply.Served? || getFails
      ensures AccountOf(id) in accounts <==> AccountOf(id) in old(accounts)
    {
      Interfere(id);
      Do(Delete(id, reply));
      if !reply.Served? {
        return Some(Failed("delete kapp app " + id.namespace + "/" + id.name + ": " + text));
      }
      Interfere(id);
      var found := id in apps;
      Do(Get(id, getFails));
      if getFails {
        return Some(Failed("get kapp app " + id.namespace + "/" + id.name + ": " + text));
      }
      return if found then Some(InProgress) else None;
    }

    /** What the caller of PackageService.Teardown is told to do: keep the Package's
        prerequisites until it returns nil, then remove them. */
    method Teardown(id: PackageID, reply: Reply, getFails: bool, text: string) returns (err: Option<TeardownError>)
      requires Valid()
      modifies this
      ensures Valid()
      ensures err.None? ==> id !in apps && AccountOf(id) !in accounts
      ensures err == Some(InProgress) ==> id in apps && apps[id]
      ensures err.Some? && err.value.Failed? <==> !reply.Served? || getFails
      ensures err.Some? ==> (AccountOf(id) in accounts <==> AccountOf(id) in old(accounts))
      ensures forall other :: other in apps ==> AccountOf(other) in accounts
    {
      err := DeleteApplication(id, reply, getFails, text);
      if err.None? {
        Interfere(id);
        Do(RemoveAccount(id));
      }
      ReachableInv(Contents());
    }
  }
}
