/**
A GitRepository from its JSON contract to the objects that realise it: resolving
the contract, crossing into the domain, and ensuring or tearing down the
repository and its webhook.
*/
module GitRepository {
  import opened Prelude
  import opened Conditions

  datatype Json =
    | JsonNull
    | JsonBool(value: bool)
    | JsonNumber(number: real)
    | JsonText(text: string)
    | JsonArray(items: seq<Json>)
    | JsonObject(fields: map<string, Json>)

  datatype Contract = Absent | Undecodable | Document(json: Json)

  datatype Resource = Resource(namespace: string, name: string, contract: Contract)

  datatype ResolveError =
    | NilRepository
    | ContractRequired
    | DecodeFailed
    | MissingField(parent: string, field: string)
    | NotNonEmptyText(parent: string, field: string)
    | RepositoryRequired
    | WebhookNotObject(index: nat)

  /** webhooks: the events of each subscription. */
  datatype Resolved = Resolved(provider: string, hookURL: string, owner: string, name: string, webhooks: seq<seq<string>>)

  // ---------------------------------------------------------------------------
  // What a contract declares
  // ---------------------------------------------------------------------------

  /** The non-empty strings among items, in order. */
  function NonEmptyTexts(items: seq<Json>): seq<string> {
    if items == [] then []
    else
      var last := items[|items| - 1];
      NonEmptyTexts(items[..|items| - 1]) + if last.JsonText? && last.text != "" then [last.text] else []
  }

  function ArrayAt(fields: map<string, Json>, key: string): seq<Json> {
    if key in fields && fields[key].JsonArray? then fields[key].items else []
  }

  function EventsOf(hook: Json): seq<string> {
    if hook.JsonObject? then NonEmptyTexts(ArrayAt(hook.fields, "events")) else []
  }

  /** The events of all declared webhooks, one after the other. */
  function DeclaredEvents(hooks: seq<Json>): seq<string> {
    if hooks == [] then [] else DeclaredEvents(hooks[..|hooks| - 1]) + EventsOf(hooks[|hooks| - 1])
  }

  /** A webhook without events is no subscription. */
  function Subscriptions(hooks: seq<Json>): seq<seq<string>> {
    if hooks == [] then []
    else
      var events := EventsOf(hooks[|hooks| - 1]);
      Subscriptions(hooks[..|hooks| - 1]) + if events != [] then [events] else []
  }

  predicate TextAt(fields: map<string, Json>, key: string) {
    key in fields && fields[key].JsonText? && fields[key].text != ""
  }

  function FieldsOf(json: Json): map<string, Json> {
    if json.JsonObject? then json.fields else map[]
  }

  /** What it takes to be accepted. */
  predicate Acceptable(c: Contract) {
    && c.Document? && c.json.JsonObject?
    && var fields := c.json.fields;
       && TextAt(fields, "provider") && TextAt(fields, "hookUrl")
       && "repository" in fields && fields["repository"].JsonObject?
       && TextAt(fields["repository"].fields, "owner") && TextAt(fields["repository"].fields, "name")
       && forall i :: 0 <= i < |ArrayAt(fields, "webhooks")| ==> ArrayAt(fields, "webhooks")[i].JsonObject?
  }

  function Declared(c: Contract): seq<Json> {
    if c.Document? then ArrayAt(FieldsOf(c.json), "webhooks") else []
  }

  // ---------------------------------------------------------------------------
  // ResolveGitRepository
  // ---------------------------------------------------------------------------

  function MustString(fields: map<string, Json>, parent: string, key: string): (r: Result<string, ResolveError>)
    ensures r.Ok? <==> TextAt(fields, key)
    ensures r.Ok? ==> fields[key] == JsonText(r.value)
  {
    if key !in fields then Err(MissingField(parent, key))
    else match fields[key]
      case JsonText(s) => if s != "" then Ok(s) else Err(NotNonEmptyText(parent, key))
      case _ => Err(NotNonEmptyText(parent, key))
  }

  method ResolveGitRepository(repo: Option<Resource>) returns (r: Result<Resolved, ResolveError>)
    ensures r.Ok? <==> repo.Some? && Acceptable(repo.value.contract)
    ensures r.Ok? ==>
              var fields := repo.value.contract.json.fields;
              && fields["provider"] == JsonText(r.value.provider) && fields["hookUrl"] == JsonText(r.value.hookURL)
              && fields["repository"].fields["owner"] == JsonText(r.value.owner)
              && fields["repository"].fields["name"] == JsonText(r.value.name)
              && r.value.webhooks == Subscriptions(Declared(repo.value.contract))
    ensures r == Err(NilRepository) <==> repo.None?
    ensures repo.Some? ==>
              && (r == Err(ContractRequired) <==> repo.value.contract.Absent?)
              && (r == Err(DecodeFailed) <==>
                  repo.value.contract.Undecodable?
                  || (repo.value.contract.Document? && !repo.value.contract.json.JsonObject? && !repo.value.contract.json.JsonNull?))
    ensures repo.Some? && repo.value.contract.Document? && (repo.value.contract.json.JsonObject? || repo.value.contract.json.JsonNull?) ==>
              var fields := FieldsOf(repo.value.contract.json);
              && (r == Err(RepositoryRequired) <==>
                  TextAt(fields, "provider") && TextAt(fields, "hookUrl")
                  && !("repository" in fields && fields["repository"].JsonObject?))
              && (r.Err? && (r.error.MissingField? || r.error.NotNonEmptyText?) ==>
                  && (r.error.parent != "" ==> "repository" in fields)
                  && var where := if r.error.parent == "" then fields else FieldsOf(fields["repository"]);
                  && (if r.error.parent == "" then r.error.field in ["provider", "hookUrl"]
                      else r.error.field in ["owner", "name"] && r.error.parent == "repository." + r.error.field)
                  && !TextAt(where, r.error.field)
                  && (r.error.MissingField? <==> r.error.field !in where))
    ensures r.Err? && r.error.WebhookNotObject? ==>
              var hooks := Declared(repo.value.contract);
              && r.error.index < |hooks| && !hooks[r.error.index].JsonObject?
              && forall i :: 0 <= i < r.error.index ==> hooks[i].JsonObject?
  {
    if repo.None? {
      return Err(NilRepository);
    }
    if repo.value.contract.Absent? {
      return Err(ContractRequired);
    }
    if repo.value.contract.Undecodable? {
      return Err(DecodeFailed);
    }
    // null decodes into an empty map, any other non-object is refused
    var json := repo.value.contract.json;
    if !json.JsonObject? && !json.JsonNull? {
      return Err(DecodeFailed);
    }
    var raw := FieldsOf(json);
    var provider := MustString(raw, "", "provider");
    if provider.Err? {
      return Err(provider.error);
    }
    var hookURL := MustString(raw, "", "hookUrl");
    if hookURL.Err? {
      return Err(hookURL.error);
    }
    if "repository" !in raw || !raw["repository"].JsonObject? {
      return Err(RepositoryRequired);
    }
    var repoRaw := raw["repository"].fields;
    var owner := MustString(repoRaw, "repository.owner", "owner");
    if owner.Err? {
      return Err(owner.error);
    }
    var name := MustString(repoRaw, "repository.name", "name");
    if name.Err? {
      return Err(name.error);
    }
    var hooks := ArrayAt(raw, "webhooks");
    var webhooks := ResolveWebhooks(hooks);
    if webhooks.Err? {
      return Err(webhooks.error);
    }
    return Ok(Resolved(provider.value, hookURL.value, owner.value, name.value, webhooks.value));
  }

  method ResolveWebhooks(hooks: seq<Json>) returns (r: Result<seq<seq<string>>, ResolveError>)
    ensures r.Ok? ==> r.value == Subscriptions(hooks) && forall i :: 0 <= i < |hooks| ==> hooks[i].JsonObject?
    ensures r.Err? ==> && r.error.WebhookNotObject? && r.error.index < |hooks| && !hooks[r.error.index].JsonObject?
                       && forall i :: 0 <= i < r.error.index ==> hooks[i].JsonObject?
  {
    var webhooks: seq<seq<string>> := [];
    for i := 0 to |hooks|
      invariant forall j :: 0 <= j < i ==> hooks[j].JsonObject?
      invariant webhooks == Subscriptions(hooks[..i])
    {
      assert hooks[..i + 1][..i] == hooks[..i];
      if !hooks[i].JsonObject? {
        return Err(WebhookNotObject(i));
      }
      var hookMap := hooks[i].fields;
      if "events" !in hookMap || !hookMap["events"].JsonArray? || hookMap["events"].items == [] {
        continue;
      }
      var events := CollectEvents(hookMap["events"].items);
      if |events| > 0 {
        webhooks := webhooks + [events];
      }
    }
    assert hooks[..|hooks|] == hooks;
    return Ok(webhooks);
  }

  /** The inner loop. */
  method CollectEvents(eventsRaw: seq<Json>) returns (events: seq<string>)
    ensures events == NonEmptyTexts(eventsRaw)
  {
    events := [];
    for j := 0 to |eventsRaw|
      invariant events == NonEmptyTexts(eventsRaw[..j])
    {
      assert eventsRaw[..j + 1][..j] == eventsRaw[..j];
      if eventsRaw[j].JsonText? && eventsRaw[j].text != "" {
        events := events + [eventsRaw[j].text];
      }
    }
    assert eventsRaw[..|eventsRaw|] == eventsRaw;
  }

  lemma {:induction false} NonEmptyTextsAreTheStrings(items: seq<Json>, e: string)
    ensures e in NonEmptyTexts(items) <==> e != "" && JsonText(e) in items
  {
    if items != [] {
      NonEmptyTextsAreTheStrings(items[..|items| - 1], e);
      assert items == items[..|items| - 1] + [items[|items| - 1]];
    }
  }

  /** And in the order they stand in: the strings of two lists one after the other are
      those of the first followed by those of the second, and a list of one item gives
      that item or nothing. */
  lemma {:induction false} NonEmptyTextsInOrder(xs: seq<Json>, ys: seq<Json>, item: Json)
    ensures NonEmptyTexts(xs + ys) == NonEmptyTexts(xs) + NonEmptyTexts(ys)
    ensures NonEmptyTexts([item]) == if item.JsonText? && item.text != "" then [item.text] else []
    decreases |ys|
  {
    assert [item][..0] == [];
    if ys == [] {
      assert xs + ys == xs;
    } else {
      var front, last, zs := ys[..|ys| - 1], ys[|ys| - 1], xs + ys;
      NonEmptyTextsInOrder(xs, front, item);
      assert zs[..|zs| - 1] == xs + front && zs[|zs| - 1] == last;
    }
  }

  // ---------------------------------------------------------------------------
  // The domain
  // ---------------------------------------------------------------------------

  datatype Domain = Domain(provider: string, owner: string, name: string, webhooks: seq<seq<string>>)

  datatype DomainError = MissingProvider | InvalidRepository | InvalidWebhook

  /** None is a panic: the resolver let an empty mandatory value through. */
  method MapResolvedToDomain(spec: Resolved) returns (d: Option<Domain>)
    ensures d == if spec.provider == "" || spec.owner == "" || spec.name == "" then None
                 else Some(Domain(spec.provider, spec.owner, spec.name, spec.webhooks))
  {
    if spec.provider == "" || spec.owner == "" || spec.name == "" {
      return None;
    }
    var webhooks: seq<seq<string>> := [];
    for i := 0 to |spec.webhooks|
      invariant webhooks == spec.webhooks[..i]
    {
      var declared := spec.webhooks[i];
      var events: seq<string> := [];
      for j := 0 to |declared|
        invariant events == declared[..j]
      {
        events := events + [declared[j]];
      }
      assert declared[..|declared|] == declared;
      webhooks := webhooks + [events];
    }
    assert spec.webhooks[..|spec.webhooks|] == spec.webhooks;
    return Some(Domain(spec.provider, spec.owner, spec.name, webhooks));
  }

  function Invalid(d: Domain): Option<DomainError> {
    if d.provider == "" then Some(MissingProvider)
    else if d.owner == "" || d.name == "" then Some(InvalidRepository)
    else if exists i :: 0 <= i < |d.webhooks| && d.webhooks[i] == [] then Some(InvalidWebhook)
    else None
  }

  method Validate(d: Domain) returns (err: Option<DomainError>)
    ensures err == Invalid(d)
    ensures err == Some(MissingProvider) <==> d.provider == ""
    ensures err == Some(InvalidRepository) <==> d.provider != "" && (d.owner == "" || d.name == "")
    ensures err == Some(InvalidWebhook) <==>
              d.provider != "" && d.owner != "" && d.name != "" && exists i :: 0 <= i < |d.webhooks| && d.webhooks[i] == []
  {
    if d.provider == "" {
      return Some(MissingProvider);
    }
    if d.owner == "" || d.name == "" {
      return Some(InvalidRepository);
    }
    for i := 0 to |d.webhooks|
      invariant forall j :: 0 <= j < i ==> d.webhooks[j] != []
    {
      if d.webhooks[i] == [] {
        return Some(InvalidWebhook);
      }
    }
    return None;
  }

  // ---------------------------------------------------------------------------
  // The objects
  // ---------------------------------------------------------------------------

  /** Both are cluster-scoped and labelled with the resource's name and provider. */
  datatype RepositoryObject = RepositoryObject(labelled: string, provider: string, name: string, visibility: string)

  datatype WebhookObject = WebhookObject(
    labelled: string, provider: string, active: bool, events: seq<string>, repository: string, secretNamespace: string)

  function Flatten(webhooks: seq<seq<string>>): seq<string> {
    if webhooks == [] then [] else Flatten(webhooks[..|webhooks| - 1]) + webhooks[|webhooks| - 1]
  }

  function WebhookName(cr: Resource): string {
    cr.name + "-webhook"
  }

  function RepositoryFor(cr: Resource, d: Domain): RepositoryObject {
    RepositoryObject(cr.name, d.provider, d.name, "private")
  }

  function WebhookFor(cr: Resource, d: Domain): WebhookObject {
    WebhookObject(cr.name, d.provider, true, Flatten(d.webhooks), cr.name, cr.namespace)
  }

  method BuildRepositoryWebhook(cr: Resource, d: Domain) returns (w: WebhookObject)
    ensures w == WebhookFor(cr, d)
  {
    var events: seq<string> := [];
    for i := 0 to |d.webhooks|
      invariant events == Flatten(d.webhooks[..i])
    {
      assert d.webhooks[..i + 1][..i] == d.webhooks[..i];
      var before, declared := events, d.webhooks[i];
      for j := 0 to |declared|
        invariant events == before + declared[..j]
      {
        events := events + [declared[j]];
      }
      assert declared[..|declared|] == declared;
    }
    assert d.webhooks[..|d.webhooks|] == d.webhooks;
    return WebhookObject(cr.name, d.provider, true, events, cr.name, cr.namespace);
  }

  lemma FlattenAppend(webhooks: seq<seq<string>>, events: seq<string>)
    ensures Flatten(webhooks + [events]) == Flatten(webhooks) + events
  {
    assert (webhooks + [events])[..|webhooks|] == webhooks;
  }

  function EventLists(hooks: seq<Json>): seq<seq<string>> {
    seq(|hooks|, i requires 0 <= i < |hooks| => EventsOf(hooks[i]))
  }

  lemma {:induction false} DeclaredIsFlat(hooks: seq<Json>)
    ensures DeclaredEvents(hooks) == Flatten(EventLists(hooks))
  {
    if hooks != [] {
      var front, last := hooks[..|hooks| - 1], hooks[|hooks| - 1];
      DeclaredIsFlat(front);
      assert EventLists(hooks) == EventLists(front) + [EventsOf(last)];
      FlattenAppend(EventLists(front), EventsOf(last));
    }
  }

  lemma Reassociate(a: seq<string>, b: seq<string>, c: seq<string>)
    ensures a + b + c == a + (b + c)
  {
  }

  lemma {:induction false} FlattenConcat(xs: seq<seq<string>>, ys: seq<seq<string>>)
    ensures Flatten(xs + ys) == Flatten(xs) + Flatten(ys)
    decreases |ys|
  {
    if ys == [] {
      assert xs + ys == xs;
    } else {
      var front, last := ys[..|ys| - 1], ys[|ys| - 1];
      assert xs + ys == xs + front + [last];
      calc {
        Flatten(xs + ys);
        { FlattenAppend(xs + front, last); }
        Flatten(xs + front) + last;
        { FlattenConcat(xs, front); }
        Flatten(xs) + Flatten(front) + last;
        { Reassociate(Flatten(xs), Flatten(front), last); }
        Flatten(xs) + Flatten(ys);
      }
    }
  }

  lemma EventListsConcat(xs: seq<Json>, ys: seq<Json>)
    ensures EventLists(xs + ys) == EventLists(xs) + EventLists(ys)
  {
  }

  lemma EventsOfOneHook(hook: Json)
    ensures DeclaredEvents([hook]) == EventsOf(hook)
  {
    assert [hook][..0] == [];
    assert DeclaredEvents([]) == [];
  }

  /** The declared events stand in the order of the webhooks and, within one, of its
      strings. */
  lemma DeclaredEventsInOrder(xs: seq<Json>, ys: seq<Json>, hook: Json)
    ensures DeclaredEvents(xs + ys) == DeclaredEvents(xs) + DeclaredEvents(ys)
    ensures DeclaredEvents([hook]) == EventsOf(hook)
  {
    EventsOfOneHook(hook);
    calc {
      DeclaredEvents(xs + ys);
      { DeclaredIsFlat(xs + ys); EventListsConcat(xs, ys); }
      Flatten(EventLists(xs) + EventLists(ys));
      { FlattenConcat(EventLists(xs), EventLists(ys)); }
      Flatten(EventLists(xs)) + Flatten(EventLists(ys));
      { DeclaredIsFlat(xs); DeclaredIsFlat(ys); }
      DeclaredEvents(xs) + DeclaredEvents(ys);
    }
  }

  lemma {:induction false} InFlatten(lists: seq<seq<string>>, e: string)
    ensures e in Flatten(lists) <==> exists i :: 0 <= i < |lists| && e in lists[i]
  {
    if lists != [] {
      InFlatten(lists[..|lists| - 1], e);
    }
  }

  /** The declared events are the non-empty strings in the events arrays of the
      declared webhooks, and nothing else. */
  lemma DeclaredEventsAreTheStrings(hooks: seq<Json>, e: string)
    ensures e in DeclaredEvents(hooks) <==> exists i :: 0 <= i < |hooks| && e in EventsOf(hooks[i])
  {
    DeclaredIsFlat(hooks);
    InFlatten(EventLists(hooks), e);
    if i :| 0 <= i < |hooks| && e in EventsOf(hooks[i]) {
      assert EventLists(hooks)[i] == EventsOf(hooks[i]);
    }
  }

  lemma {:induction false} SubscriptionsAreNotEmpty(hooks: seq<Json>)
    ensures forall i :: 0 <= i < |Subscriptions(hooks)| ==> Subscriptions(hooks)[i] != []
  {
    if hooks != [] {
      SubscriptionsAreNotEmpty(hooks[..|hooks| - 1]);
    }
  }

  lemma {:induction false} SubscriptionsFlatten(hooks: seq<Json>)
    ensures Flatten(Subscriptions(hooks)) == DeclaredEvents(hooks)
  {
    if hooks != [] {
      var front, events := hooks[..|hooks| - 1], EventsOf(hooks[|hooks| - 1]);
      SubscriptionsFlatten(front);
      if events == [] {
        assert Subscriptions(hooks) == Subscriptions(front);
        assert DeclaredEvents(front) + events == DeclaredEvents(front);
      } else {
        FlattenAppend(Subscriptions(front), events);
      }
    }
  }

  lemma FlattenIsEmptyIff(webhooks: seq<seq<string>>)
    requires forall i :: 0 <= i < |webhooks| ==> webhooks[i] != []
    ensures Flatten(webhooks) == [] <==> webhooks == []
  {
    if webhooks != [] {
      assert Flatten(webhooks)[|Flatten(webhooks)| - 1] == webhooks[|webhooks| - 1][|webhooks[|webhooks| - 1]| - 1];
    }
  }

  /** Dropping the webhooks without events loses no event, and leaves nothing
      exactly when there is no event at all. */
  lemma SubscriptionsCarryEveryEvent(hooks: seq<Json>)
    ensures Flatten(Subscriptions(hooks)) == DeclaredEvents(hooks)
    ensures Subscriptions(hooks) == [] <==> DeclaredEvents(hooks) == []
    ensures forall i :: 0 <= i < |Subscriptions(hooks)| ==> Subscriptions(hooks)[i] != []
  {
    SubscriptionsFlatten(hooks);
    SubscriptionsAreNotEmpty(hooks);
    FlattenIsEmptyIff(Subscriptions(hooks));
  }

  // ---------------------------------------------------------------------------
  // The Ready condition
  // ---------------------------------------------------------------------------

  /** Kubernetes' own upsert: the time of an existing condition changes only when
      its status does. */
  function StatusSet(conds: seq<Condition>, c: Condition): seq<Condition> {
    var i := IndexOf(conds, c.ctype);
    if i < |conds| then
      conds[i := c.(transitioned := if conds[i].status == c.status then conds[i].transitioned else c.transitioned)]
    else conds + [c]
  }

  lemma StatusSetLookup(conds: seq<Condition>, c: Condition, t: string)
    ensures t != c.ctype ==> Lookup(StatusSet(conds, c), t) == Lookup(conds, t)
    ensures var before, after := Lookup(conds, c.ctype), Lookup(StatusSet(conds, c), c.ctype);
            after == Some(c.(transitioned := if before.Some? && before.value.status == c.status then before.value.transitioned
                                             else c.transitioned))
  {
    var i := IndexOf(conds, c.ctype);
    var kept := if i < |conds| && conds[i].status == c.status then conds[i].transitioned else c.transitioned;
    assert StatusSet(conds, c) == Merge(conds, c.(transitioned := kept));
    MergeLookup(conds, c.(transitioned := kept), t);
    MergeLookup(conds, c.(transitioned := kept), c.ctype);
  }

  /** What Ensure came to. */
  function ReadyCondition(err: Option<Error>, generation: int, now: int): Condition {
    match err
    case None => Condition("Ready", Status.True, "Ready", "repository and webhooks realized", generation, now)
    case Some(e) => Condition("Ready", Status.False, "Error", ErrorMessage(e), generation, now)
  }

  function ErrorMessage(e: Error): string {
    match e
    case DomainProblem(MissingProvider) => "missing provider"
    case DomainProblem(InvalidRepository) => "invalid repository identity"
    case DomainProblem(InvalidWebhook) => "invalid webhook specification"
    case ApiFailed(text) => text
  }

  /** The Ready condition tells how it ended; every other type stays as it is. */
  ghost predicate ReadyTells(before: seq<Condition>, after: seq<Condition>, err: Option<Error>, generation: int) {
    var ready := Lookup(after, "Ready");
    && ready.Some? && ready.value.observedGeneration == generation
    && (ready.value.status.True? <==> err.None?) && !ready.value.status.Unknown?
    && (err.Some? && err.value.ApiFailed? ==> ready.value.message == err.value.text && ready.value.reason == "Error")
    && (err.None? ==> ready.value.message == "repository and webhooks realized" && ready.value.reason == "Ready")
    && forall t :: t != "Ready" ==> Lookup(after, t) == Lookup(before, t)
  }

  lemma ReadyConditionTells(conditions: seq<Condition>, err: Option<Error>, generation: int, now: int)
    ensures ReadyTells(conditions, StatusSet(conditions, ReadyCondition(err, generation, now)), err, generation)
  {
    var ready := ReadyCondition(err, generation, now);
    forall t ensures t != "Ready" ==> Lookup(StatusSet(conditions, ready), t) == Lookup(conditions, t) {
      StatusSetLookup(conditions, ready, t);
    }
    StatusSetLookup(conditions, ready, "Ready");
  }

  // ---------------------------------------------------------------------------
  // Ensure and Teardown
  // ---------------------------------------------------------------------------

  datatype Objects = Objects(repositories: map<string, RepositoryObject>, webhooks: map<string, WebhookObject>, calls: nat)

  datatype Error = DomainProblem(problem: DomainError) | ApiFailed(text: string)

  function Ensured(o: Objects, f: Faults, cr: Resource, d: Domain): (Objects, Option<Error>) {
    var n := o.calls;
    if Invalid(d).Some? then (o, Some(DomainProblem(Invalid(d).value)))
    else
      var mid := o.(calls := n + 1,
                    repositories := if CarriedOut(f(n)) then o.repositories[cr.name := RepositoryFor(cr, d)] else o.repositories);
      if f(n).Some? then (mid, Some(ApiFailed(f(n).value.text)))
      else if d.webhooks == [] then (mid, None)
      else
        (mid.(calls := n + 2,
              webhooks := if CarriedOut(f(n + 1)) then mid.webhooks[WebhookName(cr) := WebhookFor(cr, d)] else mid.webhooks),
         if f(n + 1).Some? then Some(ApiFailed(f(n + 1).value.text)) else None)
  }

  function TornDown(o: Objects, f: Faults, cr: Resource, d: Domain): (Objects, Option<string>) {
    var n := o.calls;
    var mid := if d.webhooks == [] then o
               else o.(calls := n + 1, webhooks := if CarriedOut(f(n)) then o.webhooks - {WebhookName(cr)} else o.webhooks);
    if d.webhooks != [] && f(n).Some? then (mid, Some("delete repository webhook: " + f(n).value.text))
    else
      (mid.(calls := mid.calls + 1,
            repositories := if CarriedOut(f(mid.calls)) then mid.repositories - {cr.name} else mid.repositories),
       if f(mid.calls).Some? then Some("delete repository: " + f(mid.calls).value.text) else None)
  }

  /** The repository object of cr is there: private, with the provider and the name that
      were asked for. */
  predicate Realized(o: Objects, cr: Resource, provider: string, name: string) {
    && cr.name in o.repositories && o.repositories[cr.name].labelled == cr.name && o.repositories[cr.name].provider == provider
    && o.repositories[cr.name].name == name && o.repositories[cr.name].visibility == "private"
  }

  /** The webhook of cr is there: active, for these events of cr's repository, with its
      secret in cr's own namespace. */
  predicate Subscribed(o: Objects, cr: Resource, provider: string, events: seq<string>) {
    var hook := cr.name + "-webhook";
    && hook in o.webhooks && o.webhooks[hook].labelled == cr.name && o.webhooks[hook].provider == provider
    && o.webhooks[hook].active && o.webhooks[hook].events == events
    && o.webhooks[hook].repository == cr.name && o.webhooks[hook].secretNamespace == cr.namespace
  }

  class Platform {
    const fault: Faults
    var repositories: map<string, RepositoryObject>
    var webhooks: map<string, WebhookObject>
    var calls: nat

    function Contents(): Objects
      reads this
    {
      Objects(repositories, webhooks, calls)
    }

    constructor (fault: Faults)
      ensures Contents() == Objects(map[], map[], 0)
    {
      this.fault, repositories, webhooks, calls := fault, map[], map[], 0;
    }

    /** The next API call: the error the caller sees, and whether it took effect. */
    method Call() returns (err: Option<string>, done: bool)
      modifies this`calls
      ensures calls == old(calls) + 1 && err == ErrorText(fault(old(calls))) && done == CarriedOut(fault(old(calls)))
    {
      err, done := ErrorText(fault(calls)), CarriedOut(fault(calls));
      calls := calls + 1;
    }

    method Ensure(cr: Resource, d: Domain) returns (err: Option<Error>)
      modifies this
      ensures (Contents(), err) == Ensured(old(Contents()), fault, cr, d)
      ensures err.None? ==>
                && d.provider != "" && d.owner != "" && d.name != "" && fault(old(calls)).None?
                && Realized(Contents(), cr, d.provider, d.name)
                && (d.webhooks != [] ==> fault(old(calls) + 1).None? && Subscribed(Contents(), cr, d.provider, Flatten(d.webhooks)))
      ensures fault(old(calls)).Some? ==> err.Some? && webhooks == old(webhooks)
    {
      var invalid := Validate(d);
      if invalid.Some? {
        return Some(DomainProblem(invalid.value));
      }
      var failure, done := Call();
      if done {
        repositories := repositories[cr.name := RepositoryObject(cr.name, d.provider, d.name, "private")];
      }
      if failure.Some? {
        return Some(ApiFailed(failure.value));
      }
      if |d.webhooks| > 0 {
        var webhook := BuildRepositoryWebhook(cr, d);
        failure, done := Call();
        if done {
          webhooks := webhooks[WebhookName(cr) := webhook];
        }
        if failure.Some? {
          return Some(ApiFailed(failure.value));
        }
      }
      return None;
    }

    /** A missing object is not an error. */
    method Teardown(cr: Resource, d: Domain) returns (err: Option<string>)
      modifies this
      ensures (Contents(), err) == TornDown(old(Contents()), fault, cr, d)
      ensures err.None? ==> cr.name !in repositories && (d.webhooks != [] ==> cr.name + "-webhook" !in webhooks)
      ensures d.webhooks != [] && fault(old(calls)).Some? ==>
                repositories == old(repositories) && err == Some("delete repository webhook: " + fault(old(calls)).value.text)
    {
      var failure, done;
      if |d.webhooks| > 0 {
        failure, done := Call();
        if done {
          webhooks := webhooks - {WebhookName(cr)};
        }
        if failure.Some? {
          return Some("delete repository webhook: " + failure.value);
        }
      }
      failure, done := Call();
      if done {
        repositories := repositories - {cr.name};
      }
      if failure.Some? {
        return Some("delete repository: " + failure.value);
      }
      return None;
    }

    /** From the contract to the objects. For every contract that is accepted the
        mapper does not panic and the domain validates, so only a failing call can
        stop it; and the webhook that is applied carries, in order, exactly the
        declared events, being applied only if there is one. The outcome is told by
        the Ready condition alone: the service itself never returns an error. */
    method Reconcile(cr: Resource, generation: int, conditions: seq<Condition>, now: int)
      returns (r: Result<Option<Error>, ResolveError>, conditions': seq<Condition>)
      modifies this
      ensures r.Ok? <==> Acceptable(cr.contract)
      ensures r.Err? ==> Contents() == old(Contents()) && conditions' == conditions
      ensures r.Ok? ==>
                var events, n := DeclaredEvents(Declared(cr.contract)), old(calls);
                && (r.value.Some? ==> r.value.value.ApiFailed?)
                && (r.value.None? <==> fault(n).None? && (events == [] || fault(n + 1).None?))
                && (r.value.None? ==>
                    && cr.name in repositories
                    && Realized(Contents(), cr, cr.contract.json.fields["provider"].text,
                                cr.contract.json.fields["repository"].fields["name"].text)
                    && (events != [] ==> Subscribed(Contents(), cr, cr.contract.json.fields["provider"].text, events))
                    && repositories[cr.name].name == cr.contract.json.fields["repository"].fields["name"].text
                    && (events == [] ==> webhooks == old(webhooks) && calls == n + 1)
                    && (events != [] ==>
                        && calls == n + 2
                        && WebhookName(cr) in webhooks && webhooks[WebhookName(cr)].events == events
                        && webhooks == old(webhooks)[WebhookName(cr) := webhooks[WebhookName(cr)]])
                    && repositories == old(repositories)[cr.name := repositories[cr.name]])
      ensures r.Ok? ==> ReadyTells(conditions, conditions', r.value, generation)
    {
      var resolved := ResolveGitRepository(Some(cr));
      if resolved.Err? {
        return Err(resolved.error), conditions;
      }
      SubscriptionsCarryEveryEvent(Declared(cr.contract));
      var mapped := MapResolvedToDomain(resolved.value);
      assert mapped.Some?;
      assert Invalid(mapped.value).None?;
      var err := Ensure(cr, mapped.value);
      ReadyConditionTells(conditions, err, generation, now);
      return Ok(err), StatusSet(conditions, ReadyCondition(err, generation, now));
    }
  }

  /** A teardown with the domain that was last ensured leaves neither object,
      whatever failed while ensuring it, and nothing else changed. */
  lemma TeardownUndoesEnsure(o: Objects, f: Faults, g: Faults, cr: Resource, d: Domain)
    requires Invalid(d).None?
    requires TornDown(Ensured(o, f, cr, d).0, g, cr, d).1.None?
    requires d.webhooks != [] || WebhookName(cr) !in o.webhooks
    ensures var o' := TornDown(Ensured(o, f, cr, d).0, g, cr, d).0;
            && o'.repositories == o.repositories - {cr.name}
            && o'.webhooks == o.webhooks - {WebhookName(cr)}
  {
    TeardownLeavesTheWebhookIff(Ensured(o, f, cr, d).0, g, cr, d);
  }

  /** Teardown goes by the domain it is given, not by what exists: without an error
      the webhook is still there exactly when the contract no longer declares one. */
  lemma TeardownLeavesTheWebhookIff(o: Objects, g: Faults, cr: Resource, d: Domain)
    requires TornDown(o, g, cr, d).1.None?
    ensures var o' := TornDown(o, g, cr, d).0;
            && o'.repositories == o.repositories - {cr.name}
            && o'.webhooks == (if d.webhooks == [] then o.webhooks else o.webhooks - {WebhookName(cr)})
            && (WebhookName(cr) in o'.webhooks <==> WebhookName(cr) in o.webhooks && d.webhooks == [])
  {
  }

  // ---------------------------------------------------------------------------
  // Histories of all resources
  // ---------------------------------------------------------------------------

  /** Both objects are cluster-scoped and named after the resource alone. */
  datatype Op = EnsureOp(cr: Resource, d: Domain) | TeardownOp(cr: Resource, d: Domain)

  function StepOn(o: Objects, f: Faults, op: Op): Objects {
    match op
    case EnsureOp(cr, d) => Ensured(o, f, cr, d).0
    case TeardownOp(cr, d) => TornDown(o, f, cr, d).0
  }

  function After(o: Objects, f: Faults, ops: seq<Op>): Objects
    decreases |ops|
  {
    if ops == [] then o else StepOn(After(o, f, ops[..|ops| - 1]), f, ops[|ops| - 1])
  }

  lemma WebhookNamesDiffer(a: Resource, b: Resource)
    ensures WebhookName(a) == WebhookName(b) <==> a.name == b.name
  {
    assert a.name == WebhookName(a)[..|WebhookName(a)| - 8] && b.name == WebhookName(b)[..|WebhookName(b)| - 8];
  }

  predicate SameAt(o: Objects, o': Objects, cr: Resource) {
    && Entry(o'.repositories, cr.name) == Entry(o.repositories, cr.name)
    && Entry(o'.webhooks, WebhookName(cr)) == Entry(o.webhooks, WebhookName(cr))
  }

  /** Whatever is done for resources of other names, in any namespace and with any
      failures, leaves the two objects of cr alone. */
  lemma {:induction false} OthersLeaveTheObjectsAlone(o: Objects, f: Faults, ops: seq<Op>, cr: Resource)
    requires forall i :: 0 <= i < |ops| ==> ops[i].cr.name != cr.name
    ensures SameAt(o, After(o, f, ops), cr)
    decreases |ops|
  {
    if ops != [] {
      var front, last := ops[..|ops| - 1], ops[|ops| - 1];
      assert forall i :: 0 <= i < |front| ==> front[i] == ops[i];
      OthersLeaveTheObjectsAlone(o, f, front, cr);
      WebhookNamesDiffer(last.cr, cr);
    }
  }

  /** A teardown leaves another resource's repository there exactly when their names
      differ: a resource of that name in another namespace loses it. */
  lemma TeardownTakesASharedRepositoryIff(o: Objects, f: Faults, mine: Resource, theirs: Resource, d: Domain)
    requires theirs.name in o.repositories && TornDown(o, f, mine, d).1.None?
    ensures theirs.name in TornDown(o, f, mine, d).0.repositories <==> mine.name != theirs.name
    ensures d.webhooks != [] && WebhookName(theirs) in o.webhooks ==>
              (WebhookName(theirs) in TornDown(o, f, mine, d).0.webhooks <==> mine.name != theirs.name)
  {
    WebhookNamesDiffer(mine, theirs);
  }

  /** What one operation, beginning at call n, does to the webhook of that name: applies
      it, removes it, or nothing. A call counts when it was carried out. */
  function Effect(f: Faults, n: nat, op: Op, name: string): Option<bool> {
    if op.cr.name != name || op.d.webhooks == [] then None
    else match op
      case EnsureOp(_, d) => if Invalid(d).None? && f(n).None? && CarriedOut(f(n + 1)) then Some(true) else None
      case TeardownOp(_, _) => if CarriedOut(f(n)) then Some(false) else None
  }

  function LastEffect(o: Objects, f: Faults, ops: seq<Op>, name: string): Option<bool>
    decreases |ops|
  {
    if ops == [] then None
    else
      var front := ops[..|ops| - 1];
      var effect := Effect(f, After(o, f, front).calls, ops[|ops| - 1], name);
      if effect.Some? then effect else LastEffect(o, f, front, name)
  }

  lemma StepHasItsEffect(o: Objects, f: Faults, op: Op, cr: Resource)
    ensures WebhookName(cr) in StepOn(o, f, op).webhooks
            <==> match Effect(f, o.calls, op, cr.name) case None => WebhookName(cr) in o.webhooks case Some(applied) => applied
  {
    WebhookNamesDiffer(op.cr, cr);
  }

  /** Ensure never withdraws a webhook. After any history of resources, contracts and
      failures the webhook exists exactly when the last operation that did something to
      it applied it, or none did and it was there before. */
  lemma {:induction false} WebhookExistsIff(o: Objects, f: Faults, ops: seq<Op>, cr: Resource)
    ensures WebhookName(cr) in After(o, f, ops).webhooks
            <==> match LastEffect(o, f, ops, cr.name) case None => WebhookName(cr) in o.webhooks case Some(applied) => applied
    decreases |ops|
  {
    if ops != [] {
      var front, last := ops[..|ops| - 1], ops[|ops| - 1];
      WebhookExistsIff(o, f, front, cr);
      StepHasItsEffect(After(o, f, front), f, last, cr);
    }
  }

  /** So it outlives the resource exactly when the last contract declares none and it
      was there: the error-free teardown goes by the contract alone. */
  lemma WebhookOutlivesTheResourceIff(o: Objects, f: Faults, g: Faults, ops: seq<Op>, cr: Resource, last: Domain)
    requires TornDown(After(o, f, ops), g, cr, last).1.None?
    ensures WebhookName(cr) in TornDown(After(o, f, ops), g, cr, last).0.webhooks
            <==> last.webhooks == []
                 && match LastEffect(o, f, ops, cr.name) case None => WebhookName(cr) in o.webhooks case Some(applied) => applied
  {
    WebhookExistsIff(o, f, ops, cr);
    TeardownLeavesTheWebhookIff(After(o, f, ops), g, cr, last);
  }

  /** For instance a contract that first declares a push webhook and then none. */
  lemma WithdrawnWebhookIsLeft(cr: Resource)
    ensures var f: Faults := (n: nat) => None;
            var first := Domain("github", "acme", "shop", [["push"]]);
            var later := Domain("github", "acme", "shop", []);
            var o := After(Objects(map[], map[], 0), f, [EnsureOp(cr, first), EnsureOp(cr, later)]);
            && TornDown(o, f, cr, later).1.None?
            && cr.name !in TornDown(o, f, cr, later).0.repositories
            && WebhookName(cr) in TornDown(o, f, cr, later).0.webhooks
  {
    var f: Faults := (n: nat) => None;
    var o := Objects(map[], map[], 0);
    var first, later := Domain("github", "acme", "shop", [["push"]]), Domain("github", "acme", "shop", []);
    var ops := [EnsureOp(cr, first), EnsureOp(cr, later)];
    assert ops[..1] == [EnsureOp(cr, first)] && ops[..1][..0] == [];
    assert Effect(f, 0, ops[0], cr.name) == Some(true);
    assert LastEffect(o, f, ops[..1], cr.name) == Some(true);
    assert Effect(f, After(o, f, ops[..1]).calls, ops[1], cr.name) == None;
    assert LastEffect(o, f, ops, cr.name) == Some(true);
    WebhookOutlivesTheResourceIff(o, f, f, ops, cr, later);
  }
}
