/**
The ClusterRoleBinding that grants a Package's service account its rights, as the
reconciler converges it. The role of a binding cannot be updated, so a binding to
another role is deleted and created anew, and a run may be cut short in between.
*/
module PackageBinding {
  import opened Prelude
  import opened PackageIdentity

  datatype Subject = Subject(kind: string, account: Account)

  datatype RoleRef = RoleRef(apiGroup: string, kind: string, name: string)

  /** rest stands for whatever else the object carries. */
  datatype Binding = Binding(labels: map<string, string>, subjects: seq<Subject>, roleRef: RoleRef, rest: string)

  const LABEL_PREFIX := "environments.blanketops.dev/"

  function Kept(labels: map<string, string>): map<string, string> {
    map k | k in labels && LABEL_PREFIX <= k :: labels[k]
  }

  method BlanketOpsLabels(labels: map<string, string>) returns (out: map<string, string>)
    ensures out == Kept(labels)
    ensures forall k :: k in out <==> k in labels && "environments.blanketops.dev/" <= k
    ensures forall k :: k in out ==> out[k] == labels[k]
  {
    out := map[];
    var keys := labels.Keys;
    while keys != {}
      invariant keys <= labels.Keys
      invariant out == map k | k in labels && LABEL_PREFIX <= k && k !in keys :: labels[k]
      decreases keys
    {
      var k :| k in keys;
      keys := keys - {k};
      if LABEL_PREFIX <= k {
        out := out[k := labels[k]];
      }
    }
  }

  // ---------------------------------------------------------------------------
  // The API server
  // ---------------------------------------------------------------------------

  /** calls numbers the API calls; writes counts those that were not reads. */
  datatype Objects = Objects(bindings: map<string, Binding>, calls: nat, writes: nat)

  datatype ApiError = NotFound | AlreadyExists | Failed(text: string)

  /** A write call whose effect, had it been served, is (after, err). */
  function Called(o: Objects, f: Faults, after: map<string, Binding>, err: Option<ApiError>): (Objects, Option<ApiError>) {
    var fault := f(o.calls);
    (o.(bindings := if CarriedOut(fault) then after else o.bindings, calls := o.calls + 1, writes := o.writes + 1),
     match fault case None => err case Some(e) => Some(Failed(e.text)))
  }

  function Created(o: Objects, f: Faults, name: string, b: Binding): (Objects, Option<ApiError>) {
    if name in o.bindings then Called(o, f, o.bindings, Some(AlreadyExists))
    else Called(o, f, o.bindings[name := b], None)
  }

  function Deleted(o: Objects, f: Faults, name: string): (Objects, Option<ApiError>) {
    if name in o.bindings then Called(o, f, o.bindings - {name}, None)
    else Called(o, f, o.bindings, Some(NotFound))
  }

  function Updated(o: Objects, f: Faults, name: string, b: Binding): (Objects, Option<ApiError>) {
    if name in o.bindings then Called(o, f, o.bindings[name := b], None)
    else Called(o, f, o.bindings, Some(NotFound))
  }

  // ---------------------------------------------------------------------------
  // Reconcile and Delete as functions of the state
  // ---------------------------------------------------------------------------

  datatype Package = Package(id: PackageID, labels: map<string, string>)

  function Desired(p: Package, role: string): Binding {
    Binding(Kept(p.labels), [Subject("ServiceAccount", AccountOf(p.id))],
            RoleRef("rbac.authorization.k8s.io", "ClusterRole", role), "")
  }

  /** The binding is to the cluster role of that name. */
  predicate ToRole(b: Binding, role: string) {
    b.roleRef.apiGroup == "rbac.authorization.k8s.io" && b.roleRef.kind == "ClusterRole" && b.roleRef.name == role
  }

  /** Grants exactly what the Package is due: this role, to the Package's own service
      account and nobody else, with the Package's labels of the prefix and no others. */
  ghost predicate Grants(b: Binding, p: Package, role: string) {
    && ToRole(b, role)
    && |b.subjects| == 1 && b.subjects[0].kind == "ServiceAccount"
    && b.subjects[0].account.namespace == p.id.namespace && b.subjects[0].account.name == p.id.name + "-package"
    && (forall k :: k in b.labels <==> k in p.labels && "environments.blanketops.dev/" <= k)
    && (forall k :: k in b.labels ==> b.labels[k] == p.labels[k])
  }

  /** The binding the code builds, compared by what the code compares. */
  lemma GrantsIffAsDesired(b: Binding, p: Package, role: string)
    ensures ToRole(b, role) <==> b.roleRef == Desired(p, role).roleRef
    ensures Grants(b, p, role) <==>
              b.roleRef == Desired(p, role).roleRef && b.subjects == Desired(p, role).subjects && b.labels == Desired(p, role).labels
  {
    if Grants(b, p, role) {
      assert b.labels.Keys == Kept(p.labels).Keys;
      assert b.subjects == [b.subjects[0]];
    }
  }

  /** A binding grants one role, to one Package. */
  lemma GrantIsForOneRoleAndPackage(b: Binding, p: Package, role: string, q: Package, other: string)
    requires Grants(b, p, role) && Grants(b, q, other)
    ensures role == other && p.id == q.id
  {
    if p.id != q.id {
      AccountsDiffer(p.id, q.id);
    }
  }

  function Reconciled(o: Objects, f: Faults, p: Package, role: string): (Objects, Option<ApiError>) {
    var name, desired := DeployerBindingName(p.id), Desired(p, role);
    var read := o.(calls := o.calls + 1);
    if f(o.calls).Some? then (read, Some(Failed(f(o.calls).value.text)))
    else if name !in o.bindings then Created(read, f, name, desired)
    else
      var existing := o.bindings[name];
      if existing.roleRef != desired.roleRef then
        var (deleted, err) := Deleted(read, f, name);
        if err.Some? && !err.value.NotFound? then (deleted, err) else Created(deleted, f, name, desired)
      else if existing.subjects == desired.subjects && existing.labels == desired.labels then (read, None)
      else Updated(read, f, name, existing.(subjects := desired.subjects, labels := desired.labels))
  }

  /** From any state, so also after any earlier run that was cut short: a run that
      reports no error leaves a binding that grants exactly what is due, keeps the
      rest of a binding it could update, and touches no other binding. It reports
      an error exactly when a call failed. */
  lemma ReconcileConverges(o: Objects, f: Faults, p: Package, role: string)
    ensures var (o', err) := Reconciled(o, f, p, role);
            var name := DeployerBindingName(p.id);
            && o.calls < o'.calls <= o.calls + 3
            && (err.None? <==> NoFaults(f, o.calls, o'.calls))
            && (err.None? ==>
                && name in o'.bindings && Grants(o'.bindings[name], p, role)
                && (name in o.bindings && ToRole(o.bindings[name], role) ==>
                    o'.bindings[name].rest == o.bindings[name].rest))
            && o'.bindings - {name} == o.bindings - {name}
  {
    var name := DeployerBindingName(p.id);
    var (o', err) := Reconciled(o, f, p, role);
    if name in o.bindings {
      GrantsIffAsDesired(o.bindings[name], p, role);
    }
    if name in o'.bindings {
      GrantsIffAsDesired(o'.bindings[name], p, role);
    }
  }

  /** A run that does report an error leaves the binding as it was, as it should
      be, or (only when it named another role) away; never half way between. */
  lemma CutShortLeavesNoHalfBinding(o: Objects, f: Faults, p: Package, role: string)
    requires Reconciled(o, f, p, role).1.Some?
    ensures var o' := Reconciled(o, f, p, role).0;
            var name := DeployerBindingName(p.id);
            || o'.bindings == o.bindings
            || (name in o'.bindings && Grants(o'.bindings[name], p, role))
            || (name !in o'.bindings && name in o.bindings && !ToRole(o.bindings[name], role))
  {
    var name := DeployerBindingName(p.id);
    var o' := Reconciled(o, f, p, role).0;
    if name in o.bindings {
      GrantsIffAsDesired(o.bindings[name], p, role);
    }
    if name in o'.bindings {
      GrantsIffAsDesired(o'.bindings[name], p, role);
    }
  }

  /** The next run after one that reported no error makes one read and no write. */
  lemma NextRunWritesNothing(o: Objects, f: Faults, p: Package, role: string)
    requires Reconciled(o, f, p, role).1.None?
    ensures var once := Reconciled(o, f, p, role).0;
            var (twice, err) := Reconciled(once, f, p, role);
            && twice == once.(calls := once.calls + 1)
            && (err.None? <==> f(once.calls).None?)
  {
    ReconcileConverges(o, f, p, role);
    GrantsIffAsDesired(Reconciled(o, f, p, role).0.bindings[DeployerBindingName(p.id)], p, role);
  }

  /** A write happens exactly when the binding is not already what is due. */
  lemma WritesIffNotConverged(o: Objects, f: Faults, p: Package, role: string)
    ensures var name := DeployerBindingName(p.id);
            Reconciled(o, f, p, role).0.writes > o.writes
            <==> f(o.calls).None? && !(name in o.bindings && Grants(o.bindings[name], p, role))
  {
    var name := DeployerBindingName(p.id);
    if name in o.bindings {
      GrantsIffAsDesired(o.bindings[name], p, role);
    }
  }

  function DeletedFor(o: Objects, f: Faults, p: Package): (Objects, Option<ApiError>) {
    var (o', err) := Deleted(o, f, DeployerBindingName(p.id));
    (o', if err == Some(NotFound) then None else err)
  }

  /** Delete undoes any number of runs, whatever became of them, and can be repeated. */
  lemma DeleteRemovesOnlyTheBinding(o: Objects, f: Faults, p: Package)
    requires f(o.calls).None?
    ensures var (o', err) := DeletedFor(o, f, p);
            && err.None? && o'.bindings == o.bindings - {DeployerBindingName(p.id)}
            && (f(o'.calls).None? ==> DeletedFor(o', f, p).1.None? && DeletedFor(o', f, p).0.bindings == o'.bindings)
  {
    var name := DeployerBindingName(p.id);
    if name !in o.bindings {
      assert o.bindings - {name} == o.bindings;
    }
  }

  /** Any history of runs and deletions for Packages that do not overlap p, with
      any failures, leaves p's binding alone. */
  datatype Op = Reconcile(p: Package, role: string) | Delete(p: Package)

  function After(o: Objects, f: Faults, ops: seq<Op>): Objects
    decreases |ops|
  {
    if ops == [] then o
    else
      var before := After(o, f, ops[..|ops| - 1]);
      match ops[|ops| - 1]
      case Reconcile(p, role) => Reconciled(before, f, p, role).0
      case Delete(p) => DeletedFor(before, f, p).0
  }

  predicate SameAt(x: map<string, Binding>, y: map<string, Binding>, name: string) {
    (name in x <==> name in y) && (name in x ==> x[name] == y[name])
  }

  lemma {:induction false} OthersLeaveTheBindingAlone(o: Objects, f: Faults, ops: seq<Op>, p: Package)
    requires forall i :: 0 <= i < |ops| ==>
               ops[i].p.id != p.id && !Overlap(ops[i].p.id, p.id) && !Overlap(p.id, ops[i].p.id)
    ensures SameAt(After(o, f, ops).bindings, o.bindings, DeployerBindingName(p.id))
    decreases |ops|
  {
    if ops != [] {
      var front, last := ops[..|ops| - 1], ops[|ops| - 1];
      assert forall i :: 0 <= i < |front| ==> front[i] == ops[i];
      OthersLeaveTheBindingAlone(o, f, front, p);
      NamesCollideIffOverlap(last.p.id, p.id);
      var before := After(o, f, front);
      match last {
        case Reconcile(q, role) =>
          ReconcileConverges(before, f, q, role);
          StaysOutside(before.bindings, Reconciled(before, f, q, role).0.bindings, DeployerBindingName(q.id), DeployerBindingName(p.id));
        case Delete(q) =>
      }
    }
  }

  lemma StaysOutside(x: map<string, Binding>, y: map<string, Binding>, changed: string, name: string)
    requires y - {changed} == x - {changed} && changed != name
    ensures SameAt(y, x, name)
  {
    assert name in y <==> name in y - {changed};
    assert name in x <==> name in x - {changed};
    assert name in x ==> x[name] == (x - {changed})[name] && y[name] == (y - {changed})[name];
  }

  /** Once a run for p reported no error, p's grant stands through any later runs
      for p, failing or not, and any history of Packages that do not overlap it. */
  lemma {:induction false} GrantStands(o: Objects, f: Faults, ops: seq<Op>, p: Package, role: string)
    requires DeployerBindingName(p.id) in o.bindings && Grants(o.bindings[DeployerBindingName(p.id)], p, role)
    requires forall i :: 0 <= i < |ops| ==>
               || ops[i] == Reconcile(p, role)
               || (ops[i].p.id != p.id && !Overlap(ops[i].p.id, p.id) && !Overlap(p.id, ops[i].p.id))
    ensures SameAt(After(o, f, ops).bindings, o.bindings, DeployerBindingName(p.id))
    decreases |ops|
  {
    if ops != [] {
      var front, last := ops[..|ops| - 1], ops[|ops| - 1];
      assert forall i :: 0 <= i < |front| ==> front[i] == ops[i];
      GrantStands(o, f, front, p, role);
      GrantsIffAsDesired(o.bindings[DeployerBindingName(p.id)], p, role);
      if last != Reconcile(p, role) {
        assert After(After(o, f, front), f, [last]) == After(o, f, ops) by {
          assert [last][..0] == [];
        }
        OthersLeaveTheBindingAlone(After(o, f, front), f, [last], p);
      }
    }
  }

  /** One that does overlap takes the binding over: p's account loses its grant. */
  lemma OverlappingPackageTakesTheBinding(o: Objects, f: Faults, p: Package, q: Package, role: string)
    requires p.id != q.id && (Overlap(p.id, q.id) || Overlap(q.id, p.id))
    requires Reconciled(o, f, q, role).1.None?
    ensures var o' := Reconciled(o, f, q, role).0;
            var name := DeployerBindingName(p.id);
            name in o'.bindings && Grants(o'.bindings[name], q, role) && !Grants(o'.bindings[name], p, role)
  {
    NamesCollideIffOverlap(p.id, q.id);
    ReconcileConverges(o, f, q, role);
    var b := Reconciled(o, f, q, role).0.bindings[DeployerBindingName(p.id)];
    if Grants(b, p, role) {
      GrantIsForOneRoleAndPackage(b, p, role, q, role);
      assert false;
    }
  }

  // ---------------------------------------------------------------------------
  // The code
  // ---------------------------------------------------------------------------

  class Cluster {
    const fault: Faults
    var bindings: map<string, Binding>
    var calls: nat
    var writes: nat

    function Contents(): Objects
      reads this
    {
      Objects(bindings, calls, writes)
    }

    constructor (fault: Faults)
      ensures Contents() == Objects(map[], 0, 0)
    {
      this.fault, bindings, calls, writes := fault, map[], 0, 0;
    }

    method Get(name: string) returns (r: Result<Binding, ApiError>)
      modifies this
      ensures Contents() == old(Contents()).(calls := old(calls) + 1)
      ensures r == if fault(old(calls)).Some? then Err(Failed(fault(old(calls)).value.text))
                   else if name in bindings then Ok(bindings[name]) else Err(NotFound)
    {
      calls := calls + 1;
      if fault(calls - 1).Some? {
        return Err(Failed(fault(calls - 1).value.text));
      }
      return if name in bindings then Ok(bindings[name]) else Err(NotFound);
    }

    /** A write: change is what it would make of the bindings. */
    method Call(change: map<string, Binding>, outcome: Option<ApiError>) returns (err: Option<ApiError>)
      modifies this
      ensures (Contents(), err) == Called(old(Contents()), fault, change, outcome)
    {
      calls, writes := calls + 1, writes + 1;
      if CarriedOut(fault(calls - 1)) {
        bindings := change;
      }
      err := match fault(calls - 1) case None => outcome case Some(e) => Some(Failed(e.text));
    }

    method Create(name: string, b: Binding) returns (err: Option<ApiError>)
      modifies this
      ensures (Contents(), err) == Created(old(Contents()), fault, name, b)
    {
      if name in bindings {
        err := Call(bindings, Some(AlreadyExists));
      } else {
        err := Call(bindings[name := b], None);
      }
    }

    method Remove(name: string) returns (err: Option<ApiError>)
      modifies this
      ensures (Contents(), err) == Deleted(old(Contents()), fault, name)
    {
      if name in bindings {
        err := Call(bindings - {name}, None);
      } else {
        err := Call(bindings, Some(NotFound));
      }
    }

    method Update(name: string, b: Binding) returns (err: Option<ApiError>)
      modifies this
      ensures (Contents(), err) == Updated(old(Contents()), fault, name, b)
    {
      if name in bindings {
        err := Call(bindings[name := b], None);
      } else {
        err := Call(bindings, Some(NotFound));
      }
    }

    method Reconcile(pkg: Option<Package>, role: string) returns (err: Option<ApiError>)
      modifies this
      ensures pkg.None? ==> err.None? && Contents() == old(Contents())
      ensures pkg.Some? && role == "" ==> err.Some? && Contents() == old(Contents())
      ensures pkg.Some? && role != "" ==> (Contents(), err) == Reconciled(old(Contents()), fault, pkg.value, role)
      ensures pkg.Some? && err.None? ==>
                var name := "blanketops-package-" + pkg.value.id.namespace + "-" + pkg.value.id.name;
                && name in bindings && bindings[name].roleRef.name == role && bindings[name].roleRef.kind == "ClusterRole"
                && Grants(bindings[name], pkg.value, role)
    {
      if pkg.None? {
        return None;
      }
      if role == "" {
        return Some(Failed("package deployer cluster role is not configured"));
      }
      var p := pkg.value;
      ReconcileConverges(Contents(), fault, p, role);
      var name := DeployerBindingName(p.id);
      var labels := BlanketOpsLabels(p.labels);
      var desired := Binding(labels, [Subject("ServiceAccount", AccountOf(p.id))],
                             RoleRef("rbac.authorization.k8s.io", "ClusterRole", role), "");
      var got := Get(name);
      if got.Err? {
        if got.error.NotFound? {
          err := Create(name, desired);
          return;
        }
        return Some(got.error);
      }
      var existing := got.value;
      if existing.roleRef != desired.roleRef {
        err := Remove(name);
        if err.Some? && !err.value.NotFound? {
          return;
        }
        err := Create(name, desired);
        return;
      }
      if existing.subjects == desired.subjects && existing.labels == desired.labels {
        return None;
      }
      err := Update(name, existing.(subjects := desired.subjects, labels := desired.labels));
    }

    method Delete(pkg: Option<Package>) returns (err: Option<ApiError>)
      modifies this
      ensures pkg.None? ==> err.None? && Contents() == old(Contents())
      ensures pkg.Some? ==> (Contents(), err) == DeletedFor(old(Contents()), fault, pkg.value)
    {
      if pkg.None? {
        return None;
      }
      err := Remove(DeployerBindingName(pkg.value.id));
      if err == Some(NotFound) {
        return None;
      }
    }
  }
}
