/** The working clone of a manifests repository and the repositories it talks to, as
    values: staging, committing, pushing and checking out, and how a run may end, with
    any operation failing, carried out or not. */
module ManifestsRepo {
  import opened Prelude
  import opened Rollout
  import opened Overlay

  /** git add overlays/<env>: the index takes over the whole directory. */
  function Staged(index: Tree, working: Tree, env: string): Tree {
    (map p | p in index && !Under(p, env) :: index[p]) + (map p | p in working && Under(p, env) :: working[p])
  }

  predicate Under(p: Path, env: string) {
    match p
    case InOverlay(e, _) => e == env
    case Elsewhere(path) => "overlays/" + env + "/" <= path
  }

  lemma StagedLookup(index: Tree, working: Tree, env: string, p: Path)
    ensures Entry(Staged(index, working, env), p) == if Under(p, env) then Entry(working, p) else Entry(index, p)
  {
  }

  /** The end of both operations when nothing fails and the push is accepted: a commit
      and a push exactly when what is staged differs from HEAD. */
  function Published(before: Repo, working: Tree, env: string): Repo {
    var index := Staged(before.index, working, env);
    if index == before.head then before.(working := working, index := index)
    else before.(working := working, index := index, head := index, remote := index, commits := before.commits + 1)
  }

  /** The end when the commit went through and the push did not. */
  function Unpushed(before: Repo, working: Tree, env: string): Repo {
    var index := Staged(before.index, working, env);
    before.(working := working, index := index, head := index, commits := before.commits + 1)
  }

  // ---------------------------------------------------------------------------
  // Committing and pushing, operation by operation
  // ---------------------------------------------------------------------------

  /** How it ended: the repository, the next operation's number, and the error. */
  datatype End = End(repo: Repo, ops: nat, err: Option<string>)

  /** Operation n commits what is staged, operation n + 1 pushes it, which the remote
      refuses when HEAD does not contain the tip of its branch. */
  function CommittedAndPushed(before: Repo, f: Faults, n: nat): End {
    var committed := before.(head := before.index, commits := before.commits + 1);
    if f(n).Some? then
      End(if CarriedOut(f(n)) then committed else before, n + 1, Some("commit: " + f(n).value.text))
    else if !before.forward then
      End(committed, n + 2, Some("push: rejected, not a fast-forward"))
    else
      End(if CarriedOut(f(n + 1)) then committed.(remote := committed.head) else committed, n + 2,
          match f(n + 1) case None => None case Some(e) => Some("push: " + e.text))
  }

  /** Operation n stages the overlay, n + 1 compares it with HEAD. */
  function ChangesCommitted(before: Repo, env: string, f: Faults, n: nat): End {
    var staged := if CarriedOut(f(n)) then before.(index := Staged(before.index, before.working, env)) else before;
    if f(n).Some? then End(staged, n + 1, ErrorText(f(n)))
    else if f(n + 1).Some? then End(staged, n + 2, ErrorText(f(n + 1)))
    else if staged.index == staged.head then End(staged, n + 2, None)
    else CommittedAndPushed(staged, f, n + 2)
  }

  /** The same for removal, where a comparison that fails is taken for a difference:
      the commit is tried, and git refuses it when there is none. */
  function RemovalCommitted(before: Repo, env: string, f: Faults, n: nat): End {
    var staged := if CarriedOut(f(n)) then before.(index := Staged(before.index, before.working, env)) else before;
    if f(n).Some? then End(staged, n + 1, ErrorText(f(n)))
    else if staged.index != staged.head then CommittedAndPushed(staged, f, n + 2)
    else if f(n + 1).None? then End(staged, n + 2, None)
    else End(staged, n + 3, Some("commit: nothing to commit"))
  }

  /** Nothing is left to push, or the push is accepted. */
  predicate Pushable(before: Repo, working: Tree, env: string) {
    before.forward || Staged(before.index, working, env) == before.head
  }

  /** The remote is as it was, or the rendering is published; a commit was made only
      in the one case or when its push is missing. */
  ghost predicate EndsOneOfThree(before: Repo, working: Tree, env: string, after: Repo) {
    && (after.remote == before.remote || (Pushable(before, working, env) && after == Published(before, working, env)))
    && (after.commits == before.commits || after == Published(before, working, env) || after == Unpushed(before, working, env))
  }

  /** No file outside the overlay changes, in the directory or in the index; HEAD stays,
      or becomes the index, and then nothing in the overlay is left to commit. */
  ghost predicate OverlayOnly(before: Repo, after: Repo, env: string) {
    && SameOutside(before.working, after.working, env) && SameOutside(before.index, after.index, env)
    && (after.head == before.head
        || (after.head == after.index && forall p :: Under(p, env) ==> Entry(after.working, p) == Entry(after.index, p)))
  }

  ghost predicate SameOutside(t: Tree, u: Tree, env: string) {
    forall p :: !Under(p, env) ==> Entry(u, p) == Entry(t, p)
  }

  /** What cleaning an overlay may have come to. */
  ghost predicate OnlyGeneratedGone(t: Tree, u: Tree, env: string) {
    forall p :: Entry(u, p) == Entry(t, p) || (p !in u && p.InOverlay? && p.env == env && Generated(p.name))
  }

  /** The generated files that are still there are among these. */
  ghost predicate GeneratedAmong(u: Tree, files: set<Path>, env: string) {
    forall p :: p in u && p.InOverlay? && p.env == env && Generated(p.name) ==> p in files
  }

  lemma OneMoreGone(t: Tree, u: Tree, files: set<Path>, env: string, p: Path)
    requires OnlyGeneratedGone(t, u, env) && GeneratedAmong(u, files, env)
    requires p.InOverlay? && p.env == env
    ensures if Generated(p.name) then OnlyGeneratedGone(t, u - {p}, env) && GeneratedAmong(u - {p}, files - {p}, env)
            else GeneratedAmong(u, files - {p}, env)
  {
  }

  lemma OnlyGeneratedGoneIsCleaned(t: Tree, u: Tree, env: string)
    requires OnlyGeneratedGone(t, u, env) && GeneratedAmong(u, {}, env)
    ensures u == Cleaned(t, env)
  {
    forall p ensures Entry(u, p) == Entry(Cleaned(t, env), p) { }
    LookupEverywhere(u, Cleaned(t, env));
  }

  lemma UnitFilesAreUnder(env: string, u: Unit)
    ensures Under(At(env, DeploymentFile(u)), env) && Under(At(env, ServiceFile(u)), env)
  {
    var dir := "overlays/" + env + "/";
    assert dir <= dir + DeploymentFile(u) && dir <= dir + ServiceFile(u);
  }

  // ---------------------------------------------------------------------------
  // Writing the units' files
  // ---------------------------------------------------------------------------

  /** How writing ended: the directory, the next operation's number, and the error. */
  datatype Writing = Writing(tree: Tree, ops: nat, err: Option<string>)

  function FileWritten(w: Writing, f: Faults, p: Path, c: Content): Writing {
    if w.err.Some? then w
    else Writing(if CarriedOut(f(w.ops)) then w.tree[p := c] else w.tree, w.ops + 1, ErrorText(f(w.ops)))
  }

  /** Two files per unit, in order, up to the first write that fails. */
  function UnitsWritten(t: Tree, env: string, namespace: string, units: seq<Unit>, f: Faults, n: nat): Writing
    decreases |units|
  {
    if units == [] then Writing(t, n, None)
    else
      var u := units[|units| - 1];
      var w := FileWritten(UnitsWritten(t, env, namespace, units[..|units| - 1], f, n), f, At(env, DeploymentFile(u)), DeploymentContent(namespace, u));
      FileWritten(w, f, At(env, ServiceFile(u)), ServiceContent(namespace, u))
  }

  lemma FileWrittenEnds(t: Tree, env: string, w: Writing, f: Faults, n: nat, p: Path, c: Content)
    requires n <= w.ops && (w.err.None? <==> NoFaults(f, n, w.ops)) && SameOutside(t, w.tree, env) && Under(p, env)
    ensures var x := FileWritten(w, f, p, c);
            && w.ops <= x.ops && (x.err.None? <==> NoFaults(f, n, x.ops)) && SameOutside(t, x.tree, env)
            && (x.err.None? ==> w.err.None? && x.tree == w.tree[p := c])
  {
  }

  lemma {:induction false} WritingEnds(t: Tree, env: string, namespace: string, units: seq<Unit>, f: Faults, n: nat)
    ensures var w := UnitsWritten(t, env, namespace, units, f, n);
            && n <= w.ops && (w.err.None? <==> NoFaults(f, n, w.ops))
            && (w.err.None? ==> w.tree == WithUnits(t, env, namespace, units))
            && SameOutside(t, w.tree, env)
    decreases |units|
  {
    if units != [] {
      var front, u := units[..|units| - 1], units[|units| - 1];
      var w := UnitsWritten(t, env, namespace, front, f, n);
      WritingEnds(t, env, namespace, front, f, n);
      UnitFilesAreUnder(env, u);
      FileWrittenEnds(t, env, w, f, n, At(env, DeploymentFile(u)), DeploymentContent(namespace, u));
      FileWrittenEnds(t, env, FileWritten(w, f, At(env, DeploymentFile(u)), DeploymentContent(namespace, u)), f, n,
                      At(env, ServiceFile(u)), ServiceContent(namespace, u));
    }
  }

  /** The first write that fails is the last one tried. */
  lemma {:induction false} WritingStops(t: Tree, env: string, namespace: string, units: seq<Unit>, f: Faults, n: nat, i: nat)
    requires i <= |units| && UnitsWritten(t, env, namespace, units[..i], f, n).err.Some?
    ensures UnitsWritten(t, env, namespace, units, f, n) == UnitsWritten(t, env, namespace, units[..i], f, n)
    decreases |units|
  {
    if i == |units| {
      assert units[..i] == units;
    } else {
      var front := units[..|units| - 1];
      assert front[..i] == units[..i];
      WritingStops(t, env, namespace, front, f, n, i);
    }
  }

  lemma WorkingTreeComesLast(before: Repo, working: Tree, env: string, after: Repo)
    requires EndsOneOfThree(before.(working := working), working, env, after)
    ensures EndsOneOfThree(before, working, env, after)
    ensures Published(before.(working := working), working, env) == Published(before, working, env)
    ensures SameOutside(before.working, working, env) && OverlayOnly(before.(working := working), after, env) ==> OverlayOnly(before, after, env)
  {
  }

  /** Staging and committing stay in the overlay. */
  lemma StagingStaysInTheOverlay(before: Repo, after: Repo, env: string)
    requires after.working == before.working
    requires after.index == before.index || after.index == Staged(before.index, before.working, env)
    requires after.head == before.head || after.head == after.index == Staged(before.index, before.working, env)
    ensures OverlayOnly(before, after, env)
  {
    forall p ensures Entry(Staged(before.index, before.working, env), p) == if Under(p, env) then Entry(before.working, p) else Entry(before.index, p) {
      StagedLookup(before.index, before.working, env, p);
    }
  }

  /** What committing and pushing what is staged may come to. */
  ghost predicate PushEnds(staged: Repo, f: Faults, n: nat, e: End) {
    var committed := staged.(head := staged.index, commits := staged.commits + 1);
    var pushed := committed.(remote := committed.head);
    && n < e.ops <= n + 2
    && (e.err.None? <==> NoFaults(f, n, e.ops) && staged.forward)
    && (e.repo == staged || e.repo == committed || (staged.forward && e.repo == pushed))
    && (e.err.None? ==> e.repo == pushed)
    && (staged.remote != staged.index ==> (e.repo == pushed <==> f(n).None? && staged.forward && CarriedOut(f(n + 1))))
  }

  lemma PushEndings(staged: Repo, f: Faults, n: nat)
    ensures PushEnds(staged, f, n, CommittedAndPushed(staged, f, n))
  {
  }

  /** What follows for the stage, staging included. */
  lemma FromPushToCommit(before: Repo, env: string, f: Faults, n: nat, e: End)
    requires var staged := before.(index := Staged(before.index, before.working, env));
             staged.index != before.head && PushEnds(staged, f, n, e)
    ensures e.err.None? ==> before.forward && e.repo == Published(before, before.working, env)
    ensures before.forward && NoFaults(f, n, e.ops) ==> e.err.None?
    ensures EndsOneOfThree(before, before.working, env, e.repo) && OverlayOnly(before, e.repo, env)
    ensures before.remote != Staged(before.index, before.working, env) ==>
              (e.repo.remote != before.remote <==> f(n).None? && before.forward && CarriedOut(f(n + 1)))
  {
    StagingStaysInTheOverlay(before, e.repo, env);
  }

  /** For every pattern of failures: no error means published, an error means that
      an operation failed or that the push is not accepted; and the remote is as it was
      or, exactly when the push was carried out, what was staged. */
  lemma CommitEndings(before: Repo, env: string, f: Faults, n: nat)
    ensures var e := ChangesCommitted(before, env, f, n);
            && n < e.ops <= n + 4
            && (e.err.None? <==> NoFaults(f, n, e.ops) && Pushable(before, before.working, env))
            && (e.err.None? ==> e.repo == Published(before, before.working, env))
            && EndsOneOfThree(before, before.working, env, e.repo) && OverlayOnly(before, e.repo, env)
            && (Staged(before.index, before.working, env) != before.head && before.remote != Staged(before.index, before.working, env) ==>
                (e.repo.remote != before.remote
                 <==> f(n).None? && f(n + 1).None? && f(n + 2).None? && before.forward && CarriedOut(f(n + 3))))
  {
    var staged := before.(index := Staged(before.index, before.working, env));
    if f(n).None? && f(n + 1).None? && staged.index != before.head {
      PushEndings(staged, f, n + 2);
      FromPushToCommit(before, env, f, n + 2, CommittedAndPushed(staged, f, n + 2));
    } else {
      StagingStaysInTheOverlay(before, before, env);
      StagingStaysInTheOverlay(before, staged, env);
    }
  }

  lemma RemovalEndings(before: Repo, env: string, f: Faults, n: nat)
    ensures var e := RemovalCommitted(before, env, f, n);
            && n < e.ops <= n + 4
            && (NoFaults(f, n, e.ops) && Pushable(before, before.working, env) ==> e.err.None?)
            && (e.err.None? ==> Pushable(before, before.working, env) && e.repo == Published(before, before.working, env))
            && EndsOneOfThree(before, before.working, env, e.repo) && OverlayOnly(before, e.repo, env)
  {
    var staged := before.(index := Staged(before.index, before.working, env));
    if f(n).None? && staged.index != before.head {
      PushEndings(staged, f, n + 2);
      FromPushToCommit(before, env, f, n + 2, CommittedAndPushed(staged, f, n + 2));
    } else {
      StagingStaysInTheOverlay(before, before, env);
      StagingStaysInTheOverlay(before, staged, env);
    }
  }

  // ---------------------------------------------------------------------------
  // Fetching and checking out
  // ---------------------------------------------------------------------------

  /** A commit of the repository that is asked: what it holds, and whether the tip of
      the branch is it or an ancestor of it. */
  datatype Revision = Revision(tree: Tree, forward: bool)

  /** git checkout, path by path: what is staged stays where the two commits agree. */
  function Switched(index: Tree, head: Tree, target: Tree): Tree {
    map p | p in index.Keys + target.Keys && (if Entry(head, p) == Entry(target, p) then p in index else p in target)
      :: if Entry(head, p) == Entry(target, p) then index[p] else target[p]
  }

  /** A file stays also where the target is what is staged already. */
  function SwitchedFiles(r: Repo, target: Tree): Tree {
    map p | p in r.working.Keys + target.Keys && (if FileStays(r, target, p) then p in r.working else p in target)
      :: if FileStays(r, target, p) then r.working[p] else target[p]
  }

  predicate FileStays(r: Repo, target: Tree, p: Path) {
    Entry(r.head, p) == Entry(target, p) || (Entry(r.index, p) == Entry(target, p) && p in target)
  }

  /** No change to this file can be lost: nothing is staged, and the file is what HEAD
      has, or missing. */
  predicate Harmless(r: Repo, p: Path) {
    Entry(r.index, p) == Entry(r.head, p) && (p in r.working ==> Entry(r.working, p) == Entry(r.head, p))
  }

  /** Where the two commits do not agree git refuses, unless the target is staged
      already or no change would be lost. A file that is only missing is restored. */
  predicate Blocks(r: Repo, p: Path, target: Tree) {
    && Entry(r.head, p) != Entry(target, p)
    && !(Entry(r.index, p) == Entry(target, p) && (p in target || p !in r.working))
    && !Harmless(r, p)
  }

  predicate InTheWay(r: Repo, target: Tree) {
    exists p :: p in r.head.Keys + target.Keys && Blocks(r, p, target)
  }

  /** A checkout that deletes files also deletes the directories this empties. */
  function Swept(dirs: set<string>, before: Tree, after: Tree): set<string> {
    set e | e in dirs && !(exists p :: p in before && p !in after && Under(p, e)) :: e
  }

  function CheckedOut(r: Repo, c: Revision): Repo {
    var working := SwitchedFiles(r, c.tree);
    r.(dirs := Swept(r.dirs, r.working, working), working := working, index := Switched(r.index, r.head, c.tree), head := c.tree,
       forward := c.forward)
  }

  /** The tip of the remote's branch. */
  function Tip(r: Repo): Revision {
    Revision(r.remote, true)
  }

  /** The overlay's directory is there: it was made, or something is in it. */
  predicate HasDirectory(dirs: set<string>, working: Tree, env: string) {
    env in dirs || exists p :: p in working && Under(p, env)
  }

  /** A clone without local changes, but for files that are missing, becomes what is
      checked out, and is never refused it. */
  lemma CleanCloneFollowsTheRemote(r: Repo, c: Revision)
    requires forall p :: Harmless(r, p)
    ensures !InTheWay(r, c.tree)
    ensures var t := CheckedOut(r, c);
            t.index == t.head == c.tree && forall p :: Entry(t.working, p) == Entry(c.tree, p) || (p !in t.working && p !in r.working)
    ensures r.working == r.head ==> CheckedOut(r, c).working == c.tree
  {
    var t := CheckedOut(r, c);
    forall p
      ensures Entry(t.index, p) == Entry(c.tree, p)
      ensures Entry(t.working, p) == Entry(c.tree, p) || (p !in t.working && p !in r.working)
      ensures r.working == r.head ==> Entry(t.working, p) == Entry(c.tree, p)
    {
      assert Harmless(r, p);
    }
    LookupEverywhere(t.index, c.tree);
    if r.working == r.head {
      LookupEverywhere(t.working, c.tree);
    }
  }

  /** A checkout that is not refused loses no local change: what is staged, and what was
      written over, is still there. */
  lemma NoLocalChangeIsLost(r: Repo, c: Revision, p: Path)
    requires !InTheWay(r, c.tree) && !Harmless(r, p)
    ensures var t := CheckedOut(r, c); Entry(t.index, p) == Entry(r.index, p) && Entry(t.working, p) == Entry(r.working, p)
  {
    if Entry(r.head, p) != Entry(c.tree, p) {
      assert p in r.head.Keys + c.tree.Keys;
      assert !Blocks(r, p, c.tree);
    }
  }

  // ---------------------------------------------------------------------------
  // The clone among the repositories
  // ---------------------------------------------------------------------------

  /** The directory of the clone, which is named after the Deployment alone, and the
      stable branch of every repository by its URL. A clone keeps the origin it was
      made from; ops is the number of the next operation. */
  datatype Disk = Disk(
    ops: nat, present: bool, origin: string, hosts: map<string, Tree>,
    dirs: set<string>, working: Tree, index: Tree, head: Tree, forward: bool, commits: nat)

  /** What a run gets to know from outside: what the repository that is asked has under
      the commit it is asked for, and whether environment.yaml can be looked for. */
  datatype World = World(named: Option<Revision>, stat: bool)

  /** What a run is to work from; an empty ref stands for the branch. */
  datatype Setting = Setting(url: string, ref: string, world: World)

  function TreeAt(hosts: map<string, Tree>, url: string): Tree {
    if url in hosts then hosts[url] else map[]
  }

  /** The clone, with the repository at url as its remote. */
  function Seen(d: Disk, url: string): Repo {
    Repo(d.dirs, d.working, d.index, d.head, TreeAt(d.hosts, url), d.forward, d.commits)
  }

  /** Which repository a run for url works on: an existing clone is not asked. */
  function Target(d: Disk, url: string): string {
    if d.present then d.origin else url
  }

  /** The commit that is to be checked out, if the repository is there and has it. */
  function Wanted(d: Disk, s: Setting): Option<Revision> {
    var o := Target(d, s.url);
    if o !in d.hosts then None
    else if s.ref == "" then Some(Revision(d.hosts[o], true))
    else s.world.named
  }

  function Base(d: Disk, s: Setting): Tree {
    match Wanted(d, s) case Some(c) => c.tree case None => map[]
  }

  /** Making sure of the clone can succeed: the repository has the commit and no local
      change is in the way. */
  predicate Ensurable(d: Disk, s: Setting) {
    Wanted(d, s).Some? && !(d.present && InTheWay(Seen(d, Target(d, s.url)), Base(d, s)))
  }

  /** Removing can succeed: the overlay's directory is in what is checked out, too. */
  predicate Removable(d: Disk, s: Setting, env: string) {
    Ensurable(d, s) && HasDirectory(Ensured(d, s).dirs, Ensured(d, s).working, env)
  }

  /** The clone after it was ensured, made if there was none. */
  function Ensured(d: Disk, s: Setting): Repo {
    var r := Seen(d, Target(d, s.url));
    var start := if d.present then r else Repo({}, r.remote, r.remote, r.remote, r.remote, true, d.commits);
    match Wanted(d, s) case Some(c) => CheckedOut(start, c) case None => start
  }

  /** What was checked out, with the overlay rendered from the units staged over it. */
  function PublishedTree(d: Disk, s: Setting, env: string, namespace: string, units: seq<Unit>): Tree {
    var r := Ensured(d, s);
    Staged(r.index, Rendered(r.working, env, namespace, units, s.world.stat), env)
  }

  /** What was checked out, with the units removed from the overlay. */
  function RemovedTree(d: Disk, s: Setting, env: string, units: seq<Unit>): Tree {
    var r := Ensured(d, s);
    Staged(r.index, Removed(r.working, env, units, s.world.stat), env)
  }

  /** Tree differs from what was checked out only when its commit can be pushed. */
  predicate CanPush(d: Disk, s: Setting, tree: Tree) {
    Wanted(d, s).Some? && (Wanted(d, s).value.forward || tree == Base(d, s))
  }

  /** The repositories after tree was published, where it differs from what was
      checked out. */
  function Pushed(d: Disk, s: Setting, tree: Tree): map<string, Tree> {
    if tree == Base(d, s) then d.hosts else d.hosts[Target(d, s.url) := tree]
  }

  /** How a stage that is to leave tree in the repository it works on may end. able:
      what besides failing operations and the push it takes. */
  ghost predicate StageEnds(
      f: Faults, d: Disk, d': Disk, s: Setting, env: string, tree: Tree, able: bool, err: Option<string>)
  {
    var o := Target(d, s.url);
    && d.ops < d'.ops
    && (err.None? ==> able && CanPush(d, s, tree) && d'.present && d'.head == d'.index == tree && d'.hosts == Pushed(d, s, tree))
    && (able && CanPush(d, s, tree) && NoFaults(f, d.ops, d'.ops) ==> err.None?)
    && (d'.hosts == d.hosts || (CanPush(d, s, tree) && d'.present && d'.head == tree && d'.hosts == d.hosts[o := tree]))
    && (d.present ==> d'.present) && (d'.present ==> d'.origin == o)
    && (!Ensurable(d, s) && (d.present || o !in d.hosts) ==> d' == d.(ops := d'.ops))
    && StaysFree(d, d', s, env)
  }

  /** No change outside the overlay is kept in the clone. */
  ghost predicate QuietOutside(r: Repo, env: string) {
    forall p :: !Under(p, env) ==> Harmless(r, p)
  }

  /** A run leaves a clone that is quiet outside the overlay so; and what it checked
      out could be checked out again. */
  ghost predicate StaysFree(d: Disk, d': Disk, s: Setting, env: string) {
    (d.present ==> QuietOutside(Seen(d, d.origin), env)) && Ensurable(d, s) && d'.present ==>
      && QuietOutside(Seen(d', d'.origin), env)
      && (d'.hosts == d.hosts ==> !InTheWay(Seen(d', d'.origin), Base(d, s)))
  }

  lemma CheckedOutIsQuiet(r: Repo, c: Revision, env: string)
    requires QuietOutside(r, env)
    ensures QuietOutside(CheckedOut(r, c), env)
  {
    forall p | !Under(p, env) ensures Harmless(CheckedOut(r, c), p) {
      assert Harmless(r, p);
    }
  }

  lemma EnsuredIsQuiet(d: Disk, s: Setting, env: string)
    requires d.present ==> QuietOutside(Seen(d, d.origin), env)
    requires Ensurable(d, s)
    ensures QuietOutside(Ensured(d, s), env) && Ensured(d, s).head == Base(d, s)
  {
    var r := Seen(d, Target(d, s.url));
    var start := if d.present then r else Repo({}, r.remote, r.remote, r.remote, r.remote, true, d.commits);
    CheckedOutIsQuiet(start, Wanted(d, s).value, env);
  }

  predicate SameFiles(d: Disk, e: Disk) {
    e.present == d.present && e.origin == d.origin && e.working == d.working && e.index == d.index && e.head == d.head
  }

  /** A run that got no further than the clone: no repository changed, and the clone is
      as it was, or new, or has the commit checked out. */
  ghost predicate Halted(d: Disk, d': Disk, s: Setting) {
    && d.ops < d'.ops && d'.hosts == d.hosts
    && (d.present ==> d'.present) && (d'.present ==> d'.origin == Target(d, s.url))
    && (!Ensurable(d, s) && (d.present || s.url !in d.hosts) ==> d' == d.(ops := d'.ops))
    && (Ensurable(d, s) && d'.present ==>
          || SameFiles(d, d')
          || Seen(d', d'.origin) == Ensured(d, s)
          || (!d.present && d'.working == d'.index == d'.head))
  }

  /** The first operation, whose number is all it changes. */
  lemma OneOpHalts(d: Disk, s: Setting)
    ensures var e := d.(ops := d.ops + 1);
            Halted(d, e, s) && Ensurable(e, s) == Ensurable(d, s) && Ensured(e, s) == Ensured(d, s)
  {
    assert Seen(d.(ops := d.ops + 1), Target(d, s.url)) == Seen(d, Target(d, s.url));
  }

  lemma HaltedLater(d: Disk, d': Disk, s: Setting)
    requires Halted(d.(ops := d.ops + 1), d', s)
    ensures Halted(d, d', s)
  {
    OneOpHalts(d, s);
  }

  lemma HaltedEnds(f: Faults, d: Disk, d': Disk, s: Setting, env: string, tree: Tree, able: bool, err: Option<string>)
    requires Halted(d, d', s) && err.Some? && !(able && NoFaults(f, d.ops, d'.ops))
    ensures StageEnds(f, d, d', s, env, tree, able, err)
  {
    HaltedStaysFree(d, d', s, env);
  }

  lemma HaltedStaysFree(d: Disk, d': Disk, s: Setting, env: string)
    requires Halted(d, d', s)
    ensures StaysFree(d, d', s, env)
  {
    if (d.present ==> QuietOutside(Seen(d, d.origin), env)) && Ensurable(d, s) && d'.present {
      var r := Seen(d', d'.origin);
      if SameFiles(d, d') {
        SameFilesSameBlocks(Seen(d, d.origin), r, Base(d, s), env);
      } else if r == Ensured(d, s) {
        EnsuredIsQuiet(d, s, env);
      } else {
        assert forall p :: Harmless(r, p);
      }
    }
  }

  lemma SameFilesSameBlocks(r: Repo, t: Repo, target: Tree, env: string)
    requires r.working == t.working && r.index == t.index && r.head == t.head
    ensures QuietOutside(r, env) == QuietOutside(t, env) && InTheWay(r, target) == InTheWay(t, target)
  {
    forall p ensures Harmless(r, p) == Harmless(t, p) && Blocks(r, p, target) == Blocks(t, p, target) { }
  }

  /** Committing in the overlay, or failing to, keeps a quiet clone free. */
  lemma OverlayChangesDoNotBlock(start: Repo, after: Repo, env: string)
    requires QuietOutside(start, env) && OverlayOnly(start, after, env)
    ensures QuietOutside(after, env) && !InTheWay(after, start.head)
  {
    forall p ensures !Under(p, env) ==> Harmless(after, p) ensures !Blocks(after, p, start.head) {
      if !Under(p, env) {
        assert Harmless(start, p);
      }
    }
  }

  /** From how committing and pushing ended to how the whole stage did. */
  lemma FromCommitToStage(
      f: Faults, d: Disk, e: Disk, d': Disk, s: Setting, start: Repo, working: Tree, env: string, able: bool, err: Option<string>)
    requires var o := Target(d, s.url);
             && d.ops < e.ops <= d'.ops && NoFaults(f, d.ops, e.ops) && Ensurable(d, s)
             && e.present && e.origin == o && e.hosts == d.hosts && Seen(e, o) == Ensured(d, s)
             && d'.present && d'.origin == o && (d'.hosts == e.hosts || d'.hosts == e.hosts[o := d'.head])
             && start == Seen(e, o).(dirs := start.dirs)
             && EndsOneOfThree(start, working, env, Seen(d', o)) && OverlayOnly(start, Seen(d', o), env)
             && (err.None? ==> able && Pushable(start, working, env) && Seen(d', o) == Published(start, working, env))
    requires able && Pushable(start, working, env) && NoFaults(f, e.ops, d'.ops) ==> err.None?
    ensures StageEnds(f, d, d', s, env, Staged(Ensured(d, s).index, working, env), able, err)
  {
    var o := Target(d, s.url);
    var tree := Staged(start.index, working, env);
    assert start.head == Base(d, s) && start.forward == Wanted(d, s).value.forward && tree == Staged(Ensured(d, s).index, working, env);
    assert CanPush(d, s, tree) == Pushable(start, working, env);
    HostsAfterCommit(d.hosts, d'.hosts, o, start, Seen(d', o), working, env);
    if d.present ==> QuietOutside(Seen(d, d.origin), env) {
      EnsuredIsQuiet(d, s, env);
      SameFilesSameBlocks(Ensured(d, s), start, start.head, env);
      OverlayChangesDoNotBlock(start, Seen(d', o), env);
    }
  }

  lemma HostsAfterCommit(
      hosts: map<string, Tree>, hosts': map<string, Tree>, o: string, start: Repo, after: Repo, working: Tree, env: string)
    requires o in hosts && start.remote == hosts[o] && after.remote == TreeAt(hosts', o)
    requires hosts' == hosts || hosts' == hosts[o := after.head]
    requires EndsOneOfThree(start, working, env, after)
    ensures var tree := Staged(start.index, working, env);
            && (hosts' == hosts || (Pushable(start, working, env) && after.head == tree && hosts' == hosts[o := tree]))
            && (after == Published(start, working, env) ==>
                  after.head == after.index == tree && hosts' == if tree == start.head then hosts else hosts[o := tree])
  {
    assert hosts[o := hosts[o]] == hosts;
    if after.remote == start.remote {
      assert hosts' == hosts;
    }
  }
}
