/**
The overlay of one environment in the manifests repository: which files a
rendering leaves, what its index lists, when a commit is made, and what removing
the workloads undoes. Directories and the three git trees are maps from paths to
contents.
*/
module Overlay {
  import opened Prelude
  import opened Keys
  import opened Rollout

  datatype Content =
    | Text(text: string)
    | DeploymentManifest(namespace: string, workload: Workload)
    | ServiceManifest(namespace: string, service: Svc)

  /** A file directly in overlays/<env>, or any other path of the repository. */
  datatype Path = InOverlay(env: string, name: string) | Elsewhere(path: string)

  type Tree = map<Path, Content>

  /** forward: HEAD contains the tip of the remote's branch, so that a push on top of
      it is accepted. */
  datatype Repo = Repo(dirs: set<string>, working: Tree, index: Tree, head: Tree, remote: Tree, forward: bool, commits: nat)

  const DEPLOYMENT_SUFFIX := "-deployment.yaml"
  const SERVICE_SUFFIX := "-service.yaml"
  const INDEX := "kustomization.yaml"
  const ENVIRONMENT := "environment.yaml"
  const BASE := "../../base/manifests"

  predicate HasSuffix(s: string, suffix: string) {
    |suffix| <= |s| && s[|s| - |suffix|..] == suffix
  }

  predicate Generated(name: string) {
    HasSuffix(name, DEPLOYMENT_SUFFIX) || HasSuffix(name, SERVICE_SUFFIX)
  }

  function DeploymentFile(u: Unit): string { u.name + DEPLOYMENT_SUFFIX }

  function ServiceFile(u: Unit): string { u.name + SERVICE_SUFFIX }

  /** A name with a slash leads out of the overlay directory. */
  function At(env: string, name: string): Path {
    if '/' in name then Elsewhere("overlays/" + env + "/" + name) else InOverlay(env, name)
  }

  // ---------------------------------------------------------------------------
  // File names
  // ---------------------------------------------------------------------------

  lemma SuffixOfConcat(a: string, b: string)
    ensures HasSuffix(a + b, b) && (a + b)[..|a|] == a
  {
  }

  /** The two kinds of file never coincide, and neither is the index or the
      environment file. */
  lemma FileNamesDisjoint(u: Unit, v: Unit)
    ensures DeploymentFile(u) != ServiceFile(v)
    ensures DeploymentFile(u) == DeploymentFile(v) <==> u.name == v.name
    ensures ServiceFile(u) == ServiceFile(v) <==> u.name == v.name
    ensures Generated(DeploymentFile(u)) && Generated(ServiceFile(u))
    ensures !Generated(INDEX) && !Generated(ENVIRONMENT)
  {
    NinthFromTheEnd(u, v);
    FixedNamesAreNotGenerated();
    SuffixOfConcat(u.name, DEPLOYMENT_SUFFIX);
    SuffixOfConcat(v.name, DEPLOYMENT_SUFFIX);
    SuffixOfConcat(u.name, SERVICE_SUFFIX);
    SuffixOfConcat(v.name, SERVICE_SUFFIX);
  }

  lemma NinthFromTheEnd(u: Unit, v: Unit)
    ensures DeploymentFile(u) != ServiceFile(v)
  {
    var d, s := DeploymentFile(u), ServiceFile(v);
    assert d[|d| - 9] == 'm' && s[|s| - 9] == 'v';
  }

  lemma FixedNamesAreNotGenerated()
    ensures !Generated(INDEX) && !Generated(ENVIRONMENT)
  {
    assert INDEX[|INDEX| - 6] == 'n' && ENVIRONMENT[|ENVIRONMENT| - 7] == 'n';
  }

  // ---------------------------------------------------------------------------
  // Rendering
  // ---------------------------------------------------------------------------

  function Cleaned(t: Tree, env: string): Tree {
    map p | p in t && !(p.InOverlay? && p.env == env && Generated(p.name)) :: t[p]
  }

  /** The builders the GitOps path renders from: no pull secret, and a Service with a
      label and a named port. */
  function DeploymentContent(namespace: string, u: Unit): Content {
    DeploymentManifest(namespace, Workload(u.name, u.size, u.image, u.port, []))
  }

  function ServiceContent(namespace: string, u: Unit): Content {
    ServiceManifest(namespace, Svc(u.name, true, "http", u.port, u.port))
  }

  /** The two files of the unit say what is to run: its image, as many replicas as its
      size, its port, in this namespace, and a Service that leads to that port. */
  predicate HoldsUnit(t: Tree, env: string, namespace: string, u: Unit) {
    var d, s := Entry(t, InOverlay(env, u.name + "-deployment.yaml")), Entry(t, InOverlay(env, u.name + "-service.yaml"));
    && d.Some? && d.value.DeploymentManifest? && d.value.namespace == namespace
    && d.value.workload.unit == u.name && d.value.workload.replicas == u.size
    && d.value.workload.image == u.image && d.value.workload.port == u.port
    && s.Some? && s.value.ServiceManifest? && s.value.namespace == namespace
    && s.value.service.unit == u.name && s.value.service.port == u.port && s.value.service.targetPort == u.port
  }

  /** The Kubernetes path builds the same objects itself. Both agree on what runs where;
      their Deployments are the same exactly when the unit has no pull secret, and their
      Services never are. */
  lemma PathsAgreeIff(namespace: string, u: Unit)
    ensures var d, w := DeploymentContent(namespace, u), WorkloadOf(u);
            && d.DeploymentManifest? && d.namespace == namespace
            && d.workload.unit == w.unit == u.name && d.workload.replicas == w.replicas == u.size
            && d.workload.image == w.image == u.image && d.workload.port == w.port == u.port
            && (d.workload == w <==> u.imagePullSecret == "")
    ensures var c, s := ServiceContent(namespace, u), ServiceOf(u);
            && c.ServiceManifest? && c.namespace == namespace
            && c.service.unit == s.unit == u.name && c.service.port == s.port == u.port
            && c.service.targetPort == s.targetPort == u.port
            && c.service.labelled && !s.labelled && c.service.portName == "http" && s.portName == ""
  {
  }

  function WithUnit(t: Tree, env: string, namespace: string, u: Unit): Tree {
    t[At(env, DeploymentFile(u)) := DeploymentContent(namespace, u)][At(env, ServiceFile(u)) := ServiceContent(namespace, u)]
  }

  function WithUnits(t: Tree, env: string, namespace: string, units: seq<Unit>): Tree
    decreases |units|
  {
    if units == [] then t
    else WithUnit(WithUnits(t, env, namespace, units[..|units| - 1]), env, namespace, units[|units| - 1])
  }

  /** The resource entries, two per unit, in unit order. */
  function Entries(units: seq<Unit>): seq<string>
    decreases |units|
  {
    if units == [] then []
    else Entries(units[..|units| - 1]) + [DeploymentFile(units[|units| - 1]), ServiceFile(units[|units| - 1])]
  }

  function Bullet(entry: string): string { "  - " + entry }

  function BulletsFor(entries: seq<string>): (lines: seq<string>)
    ensures |lines| == |entries| && forall i :: 0 <= i < |entries| ==> lines[i] == Bullet(entries[i])
  {
    seq(|entries|, i requires 0 <= i < |entries| => Bullet(entries[i]))
  }

  const HEADER: seq<string> :=
    ["apiVersion: kustomize.config.k8s.io/v1beta1", "kind: Kustomization", "", "resources:", Bullet(BASE)]

  /** Removal writes the same header without the empty line. */
  const REMOVAL_HEADER: seq<string> :=
    ["apiVersion: kustomize.config.k8s.io/v1beta1", "kind: Kustomization", "resources:", Bullet(BASE)]

  function IndexLines(header: seq<string>, hasEnvironment: bool, entries: seq<string>): seq<string> {
    header + (if hasEnvironment then [Bullet(ENVIRONMENT)] else []) + BulletsFor(entries)
  }

  function Unlines(lines: seq<string>): string {
    if lines == [] then "" else lines[0] + "\n" + Unlines(lines[1..])
  }

  function IndexText(hasEnvironment: bool, entries: seq<string>): string {
    Unlines(IndexLines(HEADER, hasEnvironment, entries))
  }

  /** stat: whether looking for environment.yaml works; when it does not, the file is
      taken for missing. */
  function Rendered(t: Tree, env: string, namespace: string, units: seq<Unit>, stat: bool): Tree {
    var files := WithUnits(Cleaned(t, env), env, namespace, units);
    files[InOverlay(env, INDEX) := Text(IndexText(stat && InOverlay(env, ENVIRONMENT) in files, Entries(units)))]
  }

  /** What the last unit that writes path p puts there. */
  function LastWritten(env: string, namespace: string, units: seq<Unit>, p: Path): Option<Content>
    decreases |units|
  {
    if units == [] then None
    else
      var u := units[|units| - 1];
      if p == At(env, ServiceFile(u)) then Some(ServiceContent(namespace, u))
      else if p == At(env, DeploymentFile(u)) then Some(DeploymentContent(namespace, u))
      else LastWritten(env, namespace, units[..|units| - 1], p)
  }

  lemma {:induction false} WithUnitsLookup(t: Tree, env: string, namespace: string, units: seq<Unit>, p: Path)
    ensures Entry(WithUnits(t, env, namespace, units), p)
            == match LastWritten(env, namespace, units, p) case Some(c) => Some(c) case None => Entry(t, p)
  {
    if units != [] {
      WithUnitsLookup(t, env, namespace, units[..|units| - 1], p);
    }
  }

  lemma {:induction false} UnitsWriteOnlyGeneratedFiles(env: string, namespace: string, units: seq<Unit>, name: string)
    ensures LastWritten(env, namespace, units, InOverlay(env, name)).Some? ==> Generated(name)
  {
    if units != [] {
      FileNamesDisjoint(units[|units| - 1], units[|units| - 1]);
      UnitsWriteOnlyGeneratedFiles(env, namespace, units[..|units| - 1], name);
    }
  }

  /** Every path of a rendering, from the tree before it. */
  lemma RenderedLookup(t: Tree, env: string, namespace: string, units: seq<Unit>, stat: bool, p: Path)
    ensures Entry(Rendered(t, env, namespace, units, stat), p)
            == if p == InOverlay(env, INDEX) then Some(Text(IndexText(stat && InOverlay(env, ENVIRONMENT) in t, Entries(units))))
               else match LastWritten(env, namespace, units, p)
                 case Some(c) => Some(c)
                 case None => if p.InOverlay? && p.env == env && Generated(p.name) then None else Entry(t, p)
  {
    var files := WithUnits(Cleaned(t, env), env, namespace, units);
    FileNamesDisjoint(Unit("", "", "", 0, 0), Unit("", "", "", 0, 0));
    WithUnitsLookup(Cleaned(t, env), env, namespace, units, InOverlay(env, ENVIRONMENT));
    UnitsWriteOnlyGeneratedFiles(env, namespace, units, ENVIRONMENT);
    WithUnitsLookup(Cleaned(t, env), env, namespace, units, p);
  }

  predicate Slashless(units: seq<Unit>) {
    forall i :: 0 <= i < |units| ==> '/' !in units[i].name
  }

  predicate DistinctNames(units: seq<Unit>) {
    forall i, j :: 0 <= i < j < |units| ==> units[i].name != units[j].name
  }

  predicate IsUnitFile(units: seq<Unit>, name: string) {
    exists i :: 0 <= i < |units| && (name == DeploymentFile(units[i]) || name == ServiceFile(units[i]))
  }

  lemma {:induction false} WrittenIffUnitFile(env: string, namespace: string, units: seq<Unit>, name: string)
    requires Slashless(units)
    ensures LastWritten(env, namespace, units, InOverlay(env, name)).Some? <==> IsUnitFile(units, name)
  {
    if units != [] {
      var last := |units| - 1;
      var front := units[..last];
      WrittenIffUnitFile(env, namespace, front, name);
      assert '/' !in units[last].name && '/' !in DEPLOYMENT_SUFFIX && '/' !in SERVICE_SUFFIX;
      if IsUnitFile(front, name) {
        var i :| 0 <= i < |front| && (name == DeploymentFile(front[i]) || name == ServiceFile(front[i]));
        assert units[i] == front[i];
      }
      if IsUnitFile(units, name) {
        var i :| 0 <= i < |units| && (name == DeploymentFile(units[i]) || name == ServiceFile(units[i]));
        assert i < last ==> front[i] == units[i];
      }
    }
  }

  lemma {:induction false} WrittenOnlyInOverlay(env: string, namespace: string, units: seq<Unit>, p: Path)
    requires Slashless(units) && LastWritten(env, namespace, units, p).Some?
    ensures p.InOverlay? && p.env == env
  {
    if units != [] {
      var u := units[|units| - 1];
      assert '/' !in u.name && '/' !in DEPLOYMENT_SUFFIX && '/' !in SERVICE_SUFFIX;
      if p != At(env, ServiceFile(u)) && p != At(env, DeploymentFile(u)) {
        WrittenOnlyInOverlay(env, namespace, units[..|units| - 1], p);
      }
    }
  }

  lemma UnitFilesAreInOverlay(env: string, u: Unit)
    requires '/' !in u.name
    ensures At(env, DeploymentFile(u)) == InOverlay(env, DeploymentFile(u))
    ensures At(env, ServiceFile(u)) == InOverlay(env, ServiceFile(u))
  {
    assert '/' !in DEPLOYMENT_SUFFIX && '/' !in SERVICE_SUFFIX;
  }

  /** The generated files of a rendered overlay are exactly the two of each unit,
      and every other file but the index is as it was. */
  lemma RenderingIsExact(t: Tree, env: string, namespace: string, units: seq<Unit>, stat: bool, p: Path)
    requires Slashless(units)
    ensures var r := Rendered(t, env, namespace, units, stat);
            if p.InOverlay? && p.env == env && Generated(p.name) then (p in r <==> IsUnitFile(units, p.name))
            else p != InOverlay(env, INDEX) ==> Entry(r, p) == Entry(t, p)
  {
    RenderedLookup(t, env, namespace, units, stat, p);
    FileNamesDisjoint(Unit("", "", "", 0, 0), Unit("", "", "", 0, 0));
    if p.InOverlay? && p.env == env {
      WrittenIffUnitFile(env, namespace, units, p.name);
      UnitsWriteOnlyGeneratedFiles(env, namespace, units, p.name);
    } else if LastWritten(env, namespace, units, p).Some? {
      WrittenOnlyInOverlay(env, namespace, units, p);
    }
  }

  lemma LastWrittenByOther(env: string, namespace: string, units: seq<Unit>, u: Unit)
    requires units != [] && '/' !in u.name && '/' !in units[|units| - 1].name && u.name != units[|units| - 1].name
    ensures forall p :: p == InOverlay(env, DeploymentFile(u)) || p == InOverlay(env, ServiceFile(u)) ==>
              LastWritten(env, namespace, units, p) == LastWritten(env, namespace, units[..|units| - 1], p)
  {
    var v := units[|units| - 1];
    UnitFilesAreInOverlay(env, v);
    FileNamesDisjoint(u, v);
    FileNamesDisjoint(v, u);
  }

  lemma LastWrittenByItself(env: string, namespace: string, units: seq<Unit>)
    requires units != [] && '/' !in units[|units| - 1].name
    ensures var u := units[|units| - 1];
            && LastWritten(env, namespace, units, InOverlay(env, DeploymentFile(u))) == Some(DeploymentContent(namespace, u))
            && LastWritten(env, namespace, units, InOverlay(env, ServiceFile(u))) == Some(ServiceContent(namespace, u))
  {
    UnitFilesAreInOverlay(env, units[|units| - 1]);
    FileNamesDisjoint(units[|units| - 1], units[|units| - 1]);
  }

  lemma {:induction false} DistinctUnitsKeepTheirFiles(env: string, namespace: string, units: seq<Unit>, i: nat)
    requires Slashless(units) && DistinctNames(units) && i < |units|
    ensures LastWritten(env, namespace, units, InOverlay(env, DeploymentFile(units[i]))) == Some(DeploymentContent(namespace, units[i]))
    ensures LastWritten(env, namespace, units, InOverlay(env, ServiceFile(units[i]))) == Some(ServiceContent(namespace, units[i]))
  {
    var last := |units| - 1;
    if i < last {
      var front := units[..last];
      LastWrittenByOther(env, namespace, units, units[i]);
      assert front[i] == units[i];
      assert Slashless(front) && DistinctNames(front);
      DistinctUnitsKeepTheirFiles(env, namespace, front, i);
    } else {
      LastWrittenByItself(env, namespace, units);
    }
  }

  /** With distinct names each unit's own manifests are what its files hold. */
  lemma EveryUnitIsRendered(t: Tree, env: string, namespace: string, units: seq<Unit>, stat: bool, i: nat)
    requires Slashless(units) && DistinctNames(units) && i < |units|
    ensures var r := Rendered(t, env, namespace, units, stat);
            && Entry(r, InOverlay(env, DeploymentFile(units[i]))) == Some(DeploymentContent(namespace, units[i]))
            && Entry(r, InOverlay(env, ServiceFile(units[i]))) == Some(ServiceContent(namespace, units[i]))
            && HoldsUnit(r, env, namespace, units[i])
  {
    FileNamesDisjoint(units[i], units[i]);
    DistinctUnitsKeepTheirFiles(env, namespace, units, i);
    RenderedLookup(t, env, namespace, units, stat, InOverlay(env, DeploymentFile(units[i])));
    RenderedLookup(t, env, namespace, units, stat, InOverlay(env, ServiceFile(units[i])));
  }

  // ---------------------------------------------------------------------------
  // The index
  // ---------------------------------------------------------------------------

  function Lines(text: string): seq<string>
    decreases |text|
  {
    match Cut(text, '\n')
    case None => []
    case Some((line, rest)) => [line] + Lines(rest)
  }

  lemma {:induction false} LinesOfUnlines(lines: seq<string>)
    requires forall i :: 0 <= i < |lines| ==> '\n' !in lines[i]
    ensures Lines(Unlines(lines)) == lines
  {
    if lines != [] {
      LinesOfUnlines(lines[1..]);
      CutAtFirst(lines[0], '\n', Unlines(lines[1..]));
    }
  }

  function BulletOf(line: string): seq<string> {
    if "  - " <= line then [line[4..]] else []
  }

  function BulletsIn(lines: seq<string>): seq<string> {
    if lines == [] then [] else BulletOf(lines[0]) + BulletsIn(lines[1..])
  }

  /** The resources an index lists: what follows "  - " on its lines. */
  function Listed(text: string): seq<string> {
    BulletsIn(Lines(text))
  }

  lemma {:induction false} BulletsInConcat(xs: seq<string>, ys: seq<string>)
    ensures BulletsIn(xs + ys) == BulletsIn(xs) + BulletsIn(ys)
  {
    if xs == [] {
      assert xs + ys == ys;
    } else {
      BulletsInConcat(xs[1..], ys);
      var zs, bullet := xs + ys, BulletOf(xs[0]);
      assert zs[0] == xs[0] && zs[1..] == xs[1..] + ys;
      assert bullet + (BulletsIn(xs[1..]) + BulletsIn(ys)) == (bullet + BulletsIn(xs[1..])) + BulletsIn(ys);
    }
  }

  lemma {:induction false} BulletsInBullets(entries: seq<string>)
    ensures BulletsIn(BulletsFor(entries)) == entries
  {
    if entries != [] {
      BulletsInBullets(entries[1..]);
      assert BulletsFor(entries)[1..] == BulletsFor(entries[1..]);
      assert Bullet(entries[0])[4..] == entries[0];
    }
  }

  lemma OneBullet(entry: string)
    ensures BulletsIn([Bullet(entry)]) == [entry]
  {
    BulletsInBullets([entry]);
    assert BulletsFor([entry]) == [Bullet(entry)];
  }

  lemma SkipLine(line: string, rest: seq<string>)
    requires line == "" || line[0] != ' '
    ensures BulletsIn([line] + rest) == BulletsIn(rest)
  {
    assert "  - "[0] == ' ';
    assert ([line] + rest)[1..] == rest;
  }

  /** Three lines that are none, then a bullet. */
  lemma HeaderLists(l0: string, l1: string, l2: string, entry: string)
    requires (l0 == "" || l0[0] != ' ') && (l1 == "" || l1[0] != ' ') && (l2 == "" || l2[0] != ' ')
    ensures BulletsIn([l0, l1, l2, Bullet(entry)]) == [entry]
  {
    var last := [Bullet(entry)];
    OneBullet(entry);
    SkipLine(l2, last);
    SkipLine(l1, [l2] + last);
    SkipLine(l0, [l1] + ([l2] + last));
    assert [l0, l1, l2, Bullet(entry)] == [l0] + ([l1] + ([l2] + last));
  }

  lemma HeadersListTheBase()
    ensures BulletsIn(HEADER) == [BASE] && BulletsIn(REMOVAL_HEADER) == [BASE]
  {
    var l0, l1, l2, l3 := HEADER[0], HEADER[1], HEADER[2], HEADER[3];
    HeaderLists(l1, l2, l3, BASE);
    SkipLine(l0, [l1, l2, l3, Bullet(BASE)]);
    assert HEADER == [l0] + [l1, l2, l3, Bullet(BASE)];
    HeaderLists(l0, l1, l3, BASE);
    assert REMOVAL_HEADER == [l0, l1, l3, Bullet(BASE)];
  }

  /** Read back, an index lists the base, the environment file if and only if it
      is there, and then the given files in order. */
  lemma IndexListsExactly(header: seq<string>, hasEnvironment: bool, entries: seq<string>)
    requires header == HEADER || header == REMOVAL_HEADER
    requires forall i :: 0 <= i < |entries| ==> '\n' !in entries[i]
    ensures Listed(Unlines(IndexLines(header, hasEnvironment, entries)))
            == ["../../base/manifests"] + (if hasEnvironment then ["environment.yaml"] else []) + entries
  {
    var middle := if hasEnvironment then [Bullet(ENVIRONMENT)] else [];
    BulletsInConcat(header + middle, BulletsFor(entries));
    BulletsInConcat(header, middle);
    HeadersListTheBase();
    OneBullet(ENVIRONMENT);
    BulletsInBullets(entries);
    IndexLinesHaveNoNewlines(header, hasEnvironment, entries);
    LinesOfUnlines(IndexLines(header, hasEnvironment, entries));
  }

  function Expected(hasEnvironment: bool, units: seq<Unit>): seq<string> {
    ["../../base/manifests"] + (if hasEnvironment then ["environment.yaml"] else []) + Entries(units)
  }

  /** The index stored in a tree lists the base, the environment file if and only if
      it is there too and could be looked for, and the two files of every unit in unit
      order. */
  predicate IndexListsUnits(t: Tree, env: string, units: seq<Unit>, stat: bool) {
    match Entry(t, InOverlay(env, "kustomization.yaml"))
    case Some(c) => c.Text? && Listed(c.text) == Expected(stat && InOverlay(env, "environment.yaml") in t, units)
    case None => false
  }

  /** So does the index that a rendering stores. */
  lemma RenderedIndexLists(t: Tree, env: string, namespace: string, units: seq<Unit>, stat: bool)
    requires forall i :: 0 <= i < |units| ==> '\n' !in units[i].name
    ensures IndexListsUnits(Rendered(t, env, namespace, units, stat), env, units, stat)
  {
    RenderedLookup(t, env, namespace, units, stat, InOverlay(env, INDEX));
    EnvironmentStays(t, env, namespace, units, stat);
    EntriesHaveNoNewlines(units);
    IndexListsExactly(HEADER, stat && InOverlay(env, ENVIRONMENT) in t, Entries(units));
  }

  lemma EnvironmentStays(t: Tree, env: string, namespace: string, units: seq<Unit>, stat: bool)
    ensures InOverlay(env, ENVIRONMENT) in Rendered(t, env, namespace, units, stat) <==> InOverlay(env, ENVIRONMENT) in t
  {
    RenderedLookup(t, env, namespace, units, stat, InOverlay(env, ENVIRONMENT));
    UnitsWriteOnlyGeneratedFiles(env, namespace, units, ENVIRONMENT);
    FileNamesDisjoint(Unit("", "", "", 0, 0), Unit("", "", "", 0, 0));
  }

  lemma SameIndexSameListing(s: Tree, t: Tree, env: string, units: seq<Unit>, stat: bool)
    requires Entry(s, InOverlay(env, INDEX)) == Entry(t, InOverlay(env, INDEX))
    requires InOverlay(env, ENVIRONMENT) in s <==> InOverlay(env, ENVIRONMENT) in t
    ensures IndexListsUnits(s, env, units, stat) == IndexListsUnits(t, env, units, stat)
  {
  }

  lemma EntriesHaveNoNewlines(units: seq<Unit>)
    requires forall i :: 0 <= i < |units| ==> '\n' !in units[i].name
    ensures forall k :: 0 <= k < |Entries(units)| ==> '\n' !in Entries(units)[k]
  {
    if units != [] {
      EntryAt(units, 0);
    }
    forall k | 0 <= k < |Entries(units)| ensures '\n' !in Entries(units)[k] {
      EntryAt(units, k / 2);
      FileNamesHaveNoNewline(units[k / 2]);
      assert k == 2 * (k / 2) || k == 2 * (k / 2) + 1;
    }
  }

  lemma FileNamesHaveNoNewline(u: Unit)
    requires '\n' !in u.name
    ensures '\n' !in DeploymentFile(u) && '\n' !in ServiceFile(u)
  {
    assert '\n' !in DEPLOYMENT_SUFFIX && '\n' !in SERVICE_SUFFIX;
  }

  lemma IndexLinesHaveNoNewlines(header: seq<string>, hasEnvironment: bool, entries: seq<string>)
    requires header == HEADER || header == REMOVAL_HEADER
    requires forall i :: 0 <= i < |entries| ==> '\n' !in entries[i]
    ensures forall i :: 0 <= i < |IndexLines(header, hasEnvironment, entries)| ==>
              '\n' !in IndexLines(header, hasEnvironment, entries)[i]
  {
    HeadersHaveNoNewlines();
    BulletHasNoNewline(ENVIRONMENT);
    forall i | 0 <= i < |entries| ensures '\n' !in BulletsFor(entries)[i] {
      BulletHasNoNewline(entries[i]);
    }
  }

  lemma BulletHasNoNewline(entry: string)
    requires '\n' !in entry
    ensures '\n' !in Bullet(entry)
  {
    assert '\n' !in "  - ";
  }

  lemma HeadersHaveNoNewlines()
    ensures forall i :: 0 <= i < |HEADER| ==> '\n' !in HEADER[i]
    ensures forall i :: 0 <= i < |REMOVAL_HEADER| ==> '\n' !in REMOVAL_HEADER[i]
  {
    BulletHasNoNewline(BASE);
  }

  lemma {:induction false} EntryAt(units: seq<Unit>, i: nat)
    requires i < |units|
    ensures |Entries(units)| == 2 * |units|
    ensures Entries(units)[2 * i] == DeploymentFile(units[i]) && Entries(units)[2 * i + 1] == ServiceFile(units[i])
  {
    var last := |units| - 1;
    if last > 0 {
      EntryAt(units[..last], if i < last then i else 0);
    }
  }

  /** Every unit file the index lists is in the overlay. */
  lemma EveryListedFileExists(t: Tree, env: string, namespace: string, units: seq<Unit>, stat: bool, k: nat)
    requires Slashless(units) && k < |Entries(units)|
    ensures InOverlay(env, Entries(units)[k]) in Rendered(t, env, namespace, units, stat)
  {
    EntryIsGenerated(units, k);
    RenderingIsExact(t, env, namespace, units, stat, InOverlay(env, Entries(units)[k]));
  }

  lemma EntryIsGenerated(units: seq<Unit>, k: nat)
    requires k < |Entries(units)|
    ensures Generated(Entries(units)[k]) && IsUnitFile(units, Entries(units)[k])
  {
    if units != [] {
      EntryAt(units, 0);
      EntryAt(units, k / 2);
      UnitFilesAreGenerated(units, k / 2);
      assert k == 2 * (k / 2) || k == 2 * (k / 2) + 1;
    }
  }

  lemma UnitFilesAreGenerated(units: seq<Unit>, i: nat)
    requires i < |units|
    ensures Generated(DeploymentFile(units[i])) && IsUnitFile(units, DeploymentFile(units[i]))
    ensures Generated(ServiceFile(units[i])) && IsUnitFile(units, ServiceFile(units[i]))
  {
    FileNamesDisjoint(units[i], units[i]);
  }

  lemma PairsDiffer(entries: seq<string>, ds: seq<string>, ss: seq<string>)
    requires |entries| == 2 * |ds| == 2 * |ss|
    requires forall i :: 0 <= i < |ds| ==> entries[2 * i] == ds[i] && entries[2 * i + 1] == ss[i]
    requires Distinct(ds) && Distinct(ss) && forall i, j :: 0 <= i < |ds| && 0 <= j < |ss| ==> ds[i] != ss[j]
    ensures Distinct(entries)
  {
    forall k, l | 0 <= k < l < |entries| ensures entries[k] != entries[l] {
      var i, j := k / 2, l / 2;
      assert entries[2 * i] == ds[i] && entries[2 * j] == ds[j];
    }
  }

  function DeploymentFiles(units: seq<Unit>): seq<string> {
    seq(|units|, i requires 0 <= i < |units| => DeploymentFile(units[i]))
  }

  function ServiceFiles(units: seq<Unit>): seq<string> {
    seq(|units|, i requires 0 <= i < |units| => ServiceFile(units[i]))
  }

  lemma DistinctNamesGiveDistinctFiles(units: seq<Unit>)
    requires DistinctNames(units)
    ensures Distinct(DeploymentFiles(units)) && Distinct(ServiceFiles(units))
    ensures forall i, j :: 0 <= i < |units| && 0 <= j < |units| ==> DeploymentFiles(units)[i] != ServiceFiles(units)[j]
  {
    forall i, j | 0 <= i < |units| && 0 <= j < |units|
      ensures DeploymentFiles(units)[i] != ServiceFiles(units)[j]
      ensures units[i].name != units[j].name ==> DeploymentFiles(units)[i] != DeploymentFiles(units)[j] && ServiceFiles(units)[i] != ServiceFiles(units)[j]
    {
      FileNamesDisjoint(units[i], units[j]);
    }
  }

  /** No file is listed twice exactly when the unit names are distinct. */
  lemma EntriesDistinctIffNamesAre(units: seq<Unit>)
    ensures Distinct(Entries(units)) <==> DistinctNames(units)
  {
    if units != [] {
      EntryAt(units, 0);
    }
    assert |Entries(units)| == 2 * |units|;
    forall i | 0 <= i < |units|
      ensures Entries(units)[2 * i] == DeploymentFiles(units)[i] && Entries(units)[2 * i + 1] == ServiceFiles(units)[i]
    {
      EntryAt(units, i);
    }
    if DistinctNames(units) {
      DistinctNamesGiveDistinctFiles(units);
      PairsDiffer(Entries(units), DeploymentFiles(units), ServiceFiles(units));
    } else {
      var i, j :| 0 <= i < j < |units| && units[i].name == units[j].name;
      assert Entries(units)[2 * i] == Entries(units)[2 * j];
    }
  }

  // ---------------------------------------------------------------------------
  // Idempotence and removal
  // ---------------------------------------------------------------------------

  lemma LookupEverywhere(a: Tree, b: Tree)
    requires forall p :: Entry(a, p) == Entry(b, p)
    ensures a == b
  {
    forall p ensures p in a <==> p in b { assert Entry(a, p) == Entry(b, p); }
    forall p | p in a ensures a[p] == b[p] { assert Entry(a, p) == Entry(b, p); }
    assert a.Keys == b.Keys;
  }

  /** Rendering the same intent again changes no file. */
  lemma RenderingAgainChangesNothing(t: Tree, env: string, namespace: string, units: seq<Unit>, stat: bool)
    ensures Rendered(Rendered(t, env, namespace, units, stat), env, namespace, units, stat) == Rendered(t, env, namespace, units, stat)
  {
    var once := Rendered(t, env, namespace, units, stat);
    FileNamesDisjoint(Unit("", "", "", 0, 0), Unit("", "", "", 0, 0));
    UnitsWriteOnlyGeneratedFiles(env, namespace, units, ENVIRONMENT);
    RenderedLookup(t, env, namespace, units, stat, InOverlay(env, ENVIRONMENT));
    forall p ensures Entry(Rendered(once, env, namespace, units, stat), p) == Entry(once, p) {
      RenderedLookup(t, env, namespace, units, stat, p);
      RenderedLookup(once, env, namespace, units, stat, p);
    }
    LookupEverywhere(Rendered(once, env, namespace, units, stat), once);
  }

  function WithoutUnitFiles(t: Tree, env: string, units: seq<Unit>): Tree
    decreases |units|
  {
    if units == [] then t
    else
      var u := units[|units| - 1];
      WithoutUnitFiles(t, env, units[..|units| - 1]) - {At(env, DeploymentFile(u)), At(env, ServiceFile(u))}
  }

  /** What removeAndPush leaves in the working tree. */
  function Removed(t: Tree, env: string, units: seq<Unit>, stat: bool): Tree {
    var files := WithoutUnitFiles(t, env, units);
    files[InOverlay(env, INDEX) := Text(Unlines(IndexLines(REMOVAL_HEADER, stat && InOverlay(env, ENVIRONMENT) in files, [])))]
  }

  lemma {:induction false} WithoutUnitFilesLookup(t: Tree, env: string, namespace: string, units: seq<Unit>, p: Path)
    ensures Entry(WithoutUnitFiles(t, env, units), p)
            == if LastWritten(env, namespace, units, p).Some? then None else Entry(t, p)
  {
    if units != [] {
      WithoutUnitFilesLookup(t, env, namespace, units[..|units| - 1], p);
    }
  }

  /** Removal after a rendering of the same units: no generated file is left, the
      index lists the base and the environment file only, and every other file is
      as it was before the rendering. */
  lemma RemovalUndoesRendering(t: Tree, env: string, namespace: string, units: seq<Unit>, stat: bool, again: bool, p: Path)
    requires Slashless(units)
    ensures var r := Removed(Rendered(t, env, namespace, units, stat), env, units, again);
            if p == InOverlay(env, INDEX) then
              && p in r && r[p].Text?
              && Listed(r[p].text) == [BASE] + (if again && InOverlay(env, ENVIRONMENT) in t then [ENVIRONMENT] else [])
            else if p.InOverlay? && p.env == env && Generated(p.name) then p !in r
            else Entry(r, p) == Entry(t, p)
  {
    var rendered := Rendered(t, env, namespace, units, stat);
    FileNamesDisjoint(Unit("", "", "", 0, 0), Unit("", "", "", 0, 0));
    UnitsWriteOnlyGeneratedFiles(env, namespace, units, ENVIRONMENT);
    RenderedLookup(t, env, namespace, units, stat, InOverlay(env, ENVIRONMENT));
    WithoutUnitFilesLookup(rendered, env, namespace, units, InOverlay(env, ENVIRONMENT));
    WithoutUnitFilesLookup(rendered, env, namespace, units, p);
    RenderedLookup(t, env, namespace, units, stat, p);
    IndexListsExactly(REMOVAL_HEADER, again && InOverlay(env, ENVIRONMENT) in t, []);
    if LastWritten(env, namespace, units, p).Some? {
      WrittenOnlyInOverlay(env, namespace, units, p);
      UnitsWriteOnlyGeneratedFiles(env, namespace, units, p.name);
    }
  }

  /** A removal takes the files of its units and leaves every other generated one. */
  lemma RemovalIsExact(t: Tree, env: string, units: seq<Unit>, stat: bool, name: string)
    requires Slashless(units)
    ensures var r := Removed(t, env, units, stat);
            && (IsUnitFile(units, name) ==> InOverlay(env, name) !in r)
            && (Generated(name) && !IsUnitFile(units, name) ==> Entry(r, InOverlay(env, name)) == Entry(t, InOverlay(env, name)))
  {
    WithoutUnitFilesLookup(t, env, "", units, InOverlay(env, name));
    WrittenIffUnitFile(env, "", units, name);
    UnitsWriteOnlyGeneratedFiles(env, "", units, name);
    FixedNamesAreNotGenerated();
  }

  lemma RemovedIndexLists(t: Tree, env: string, units: seq<Unit>, stat: bool)
    ensures IndexListsUnits(Removed(t, env, units, stat), env, [], stat)
  {
    IndexListsExactly(REMOVAL_HEADER, stat && InOverlay(env, ENVIRONMENT) in WithoutUnitFiles(t, env, units), []);
  }
}
