/** What the repositories hold and what a clone is good for after a run or several, from
    how a single run may end: publishing and removing, changed URLs, runs at a commit,
    lost pushes, and the recovery of runs that were cut short. */
module ManifestsRuns {
  import opened Prelude
  import opened ManifestsRepo
  import opened Overlay
  import opened Rollout

  lemma StagingAgainChangesNothing(index: Tree, working: Tree, env: string)
    ensures Staged(Staged(index, working, env), working, env) == Staged(index, working, env)
  {
  }

  /** A second run that succeeds with the same intent leaves working tree, index
      and HEAD as they are and makes no commit. */
  lemma SecondRunMakesNoCommit(before: Repo, env: string, namespace: string, units: seq<Unit>, stat: bool)
    ensures var once := Published(before, Rendered(before.working, env, namespace, units, stat), env);
            Published(once, Rendered(once.working, env, namespace, units, stat), env) == once
  {
    RenderingAgainChangesNothing(before.working, env, namespace, units, stat);
    StagingAgainChangesNothing(before.index, Rendered(before.working, env, namespace, units, stat), env);
  }

  /** What the remote gets to see: it ends at HEAD after a run that reports success
      exactly when there was something to commit or it was at HEAD before. */
  lemma SuccessMeansPublishedIff(before: Repo, working: Tree, env: string)
    ensures var after := Published(before, working, env);
            after.remote == after.head
            <==> (Staged(before.index, working, env) != before.head || before.remote == before.head)
  {
  }

  /** So a commit that was not pushed is not pushed by the next run on the same
      clone: it finds nothing to commit and reports success. */
  lemma FailedPushIsNotRetried(before: Repo, env: string, namespace: string, units: seq<Unit>, stat: bool)
    ensures var failed := Unpushed(before, Rendered(before.working, env, namespace, units, stat), env);
            var after := Published(failed, Rendered(failed.working, env, namespace, units, stat), env);
            after == failed && (after.remote == after.head <==> before.remote == failed.head)
  {
    RenderingAgainChangesNothing(before.working, env, namespace, units, stat);
    StagingAgainChangesNothing(before.index, Rendered(before.working, env, namespace, units, stat), env);
  }

  /** Starting from HEAD at the remote closes that gap: success then always means
      published. Checking out the branch first, as the entry point does, is such a
      start, whatever an earlier run left behind. */
  lemma PublishedFromHead(before: Repo, working: Tree, env: string)
    requires before.head == before.remote
    ensures var after := Published(before, working, env);
            after.remote == after.head == after.index == Staged(before.index, working, env)
  {
  }

  lemma SyncedRunPublishes(r: Repo, env: string, namespace: string, units: seq<Unit>, stat: bool)
    ensures var start := CheckedOut(r, Tip(r));
            var after := Published(start, Rendered(start.working, env, namespace, units, stat), env);
            after.remote == after.head == Staged(start.index, Rendered(start.working, env, namespace, units, stat), env)
    ensures r.working == r.index == r.head ==>
              var start := CheckedOut(r, Tip(r));
              Published(start, Rendered(start.working, env, namespace, units, stat), env).remote
              == Staged(r.remote, Rendered(r.remote, env, namespace, units, stat), env)
  {
    var start := CheckedOut(r, Tip(r));
    PublishedFromHead(start, Rendered(start.working, env, namespace, units, stat), env);
    if r.working == r.index == r.head {
      CleanCloneFollowsTheRemote(r, Tip(r));
    }
  }

  lemma StagedOverlay(index: Tree, working: Tree, env: string, name: string)
    ensures Entry(Staged(index, working, env), InOverlay(env, name)) == Entry(working, InOverlay(env, name))
  {
  }

  lemma StagedUnit(index: Tree, working: Tree, env: string, namespace: string, u: Unit)
    ensures var t := Staged(index, working, env);
            && Entry(t, InOverlay(env, DeploymentFile(u))) == Entry(working, InOverlay(env, DeploymentFile(u)))
            && Entry(t, InOverlay(env, ServiceFile(u))) == Entry(working, InOverlay(env, ServiceFile(u)))
            && HoldsUnit(t, env, namespace, u) == HoldsUnit(working, env, namespace, u)
  {
    StagedOverlay(index, working, env, DeploymentFile(u));
    StagedOverlay(index, working, env, ServiceFile(u));
  }

  // ---------------------------------------------------------------------------
  // What a repository holds after a run
  // ---------------------------------------------------------------------------

  /** For units with distinct slashless names: their manifests and no other generated
      file in the overlay, whatever local changes there were. */
  lemma PublishedRemoteHoldsTheUnits(d: Disk, s: Setting, env: string, namespace: string, units: seq<Unit>, name: string)
    requires Slashless(units) && DistinctNames(units)
    ensures var tree := PublishedTree(d, s, env, namespace, units);
            && (Generated(name) ==> (InOverlay(env, name) in tree <==> IsUnitFile(units, name)))
            && forall i :: 0 <= i < |units| ==>
                 && Entry(tree, InOverlay(env, DeploymentFile(units[i]))) == Some(DeploymentContent(namespace, units[i]))
                 && Entry(tree, InOverlay(env, ServiceFile(units[i]))) == Some(ServiceContent(namespace, units[i]))
                 && HoldsUnit(tree, env, namespace, units[i])
  {
    var r := Ensured(d, s);
    var w := Rendered(r.working, env, namespace, units, s.world.stat);
    StagedOverlay(r.index, w, env, name);
    RenderingIsExact(r.working, env, namespace, units, s.world.stat, InOverlay(env, name));
    forall i | 0 <= i < |units|
      ensures Entry(Staged(r.index, w, env), InOverlay(env, DeploymentFile(units[i]))) == Some(DeploymentContent(namespace, units[i]))
      ensures Entry(Staged(r.index, w, env), InOverlay(env, ServiceFile(units[i]))) == Some(ServiceContent(namespace, units[i]))
      ensures HoldsUnit(Staged(r.index, w, env), env, namespace, units[i])
    {
      EveryUnitIsRendered(r.working, env, namespace, units, s.world.stat, i);
      StagedUnit(r.index, w, env, namespace, units[i]);
    }
  }

  /** Outside the overlay a run publishes what it has checked out, unless changes were
      kept there; a removal likewise. */
  lemma PublishedLeavesTheRest(d: Disk, s: Setting, env: string, namespace: string, units: seq<Unit>, p: Path)
    requires Ensurable(d, s) && !Under(p, env)
    requires d.present ==> QuietOutside(Seen(d, d.origin), env)
    ensures Entry(PublishedTree(d, s, env, namespace, units), p) == Entry(Base(d, s), p)
    ensures Entry(RemovedTree(d, s, env, units), p) == Entry(Base(d, s), p)
  {
    EnsuredIsQuiet(d, s, env);
    var r := Ensured(d, s);
    assert Harmless(r, p);
    StagedLookup(r.index, Rendered(r.working, env, namespace, units, s.world.stat), env, p);
    StagedLookup(r.index, Removed(r.working, env, units, s.world.stat), env, p);
  }

  /** And its index. */
  lemma PublishedIndexListsTheUnits(d: Disk, s: Setting, env: string, namespace: string, units: seq<Unit>)
    requires forall i :: 0 <= i < |units| ==> '\n' !in units[i].name
    ensures IndexListsUnits(PublishedTree(d, s, env, namespace, units), env, units, s.world.stat)
  {
    var r := Ensured(d, s);
    var w := Rendered(r.working, env, namespace, units, s.world.stat);
    RenderedIndexLists(r.working, env, namespace, units, s.world.stat);
    StagedOverlay(r.index, w, env, INDEX);
    StagedOverlay(r.index, w, env, ENVIRONMENT);
    SameIndexSameListing(Staged(r.index, w, env), w, env, units, s.world.stat);
  }

  /** After a removal the overlay holds no file of these units, and its index lists the
      base and the environment file alone. */
  lemma RemovedRemoteHoldsNoUnit(d: Disk, s: Setting, env: string, units: seq<Unit>, name: string)
    requires Slashless(units)
    ensures var tree := RemovedTree(d, s, env, units);
            && (IsUnitFile(units, name) ==> InOverlay(env, name) !in tree)
            && IndexListsUnits(tree, env, [], s.world.stat)
  {
    var r := Ensured(d, s);
    var w := Removed(r.working, env, units, s.world.stat);
    StagedOverlay(r.index, w, env, name);
    StagedOverlay(r.index, w, env, INDEX);
    StagedOverlay(r.index, w, env, ENVIRONMENT);
    RemovalIsExact(r.working, env, units, s.world.stat, name);
    RemovedIndexLists(r.working, env, units, s.world.stat);
    SameIndexSameListing(Staged(r.index, w, env), w, env, [], s.world.stat);
  }

  /** So where a run published the units of a Deployment, a later removal of the same
      units that checks this out, from a clone without local changes or none, leaves no
      generated file in the overlay. */
  lemma RemovalUndoesPublishing(
      d: Disk, s: Setting, e: Disk, t: Setting, env: string, namespace: string, units: seq<Unit>, name: string)
    requires Slashless(units) && DistinctNames(units) && Generated(name)
    requires Wanted(e, t).Some? && Base(e, t) == PublishedTree(d, s, env, namespace, units)
    requires e.present ==> e.working == e.index == e.head
    ensures InOverlay(env, name) !in RemovedTree(e, t, env, units)
  {
    var r := Seen(e, Target(e, t.url));
    var start := if e.present then r else Repo({}, r.remote, r.remote, r.remote, r.remote, true, e.commits);
    CleanCloneFollowsTheRemote(start, Wanted(e, t).value);
    PublishedRemoteHoldsTheUnits(d, s, env, namespace, units, name);
    var w := Removed(Base(e, t), env, units, t.world.stat);
    StagedOverlay(Base(e, t), w, env, name);
    RemovalIsExact(Base(e, t), env, units, t.world.stat, name);
  }

  // ---------------------------------------------------------------------------
  // Which repository a run reaches, and when at all
  // ---------------------------------------------------------------------------

  /** hosts is what an error-free run leaves of d's repositories. */
  predicate Reaches(d: Disk, hosts: map<string, Tree>, s: Setting, tree: Tree) {
    && hosts == Pushed(d, s, tree)
    && (TreeAt(hosts, s.url) == tree
        <==> TreeAt(d.hosts, s.url) == tree || (Target(d, s.url) == s.url && tree != Base(d, s)))
    && (s.ref == "" ==> hosts == d.hosts[Target(d, s.url) := tree]
                        && (TreeAt(hosts, s.url) == tree <==> !d.present || d.origin == s.url || TreeAt(d.hosts, s.url) == tree))
  }

  /** An error-free run leaves its rendering at the URL it was given exactly when it was
      there already, or the clone is one of that URL, or new, and something was
      committed; on the branch that last is no condition. It never touches a third
      repository. */
  lemma UrlHoldsTheRenderingIff(d: Disk, s: Setting, tree: Tree, other: string)
    requires Wanted(d, s).Some?
    ensures var hosts := Pushed(d, s, tree);
            && Reaches(d, hosts, s, tree)
            && (other != Target(d, s.url) ==> TreeAt(hosts, other) == TreeAt(d.hosts, other))
  {
    var o := Target(d, s.url);
    assert d.hosts[o := d.hosts[o]] == d.hosts;
  }

  /** The contract's URL changed from old to new after a first run: the next one
      publishes at old, reports success, and new stays as it is. */
  lemma ChangedUrlIsIgnored(u: Unit, namespace: string, there: Tree, elsewhere: Tree, stat: bool)
    requires '/' !in u.name && InOverlay("dev", DeploymentFile(u)) !in elsewhere
    ensures var d := Disk(7, true, "old", map["old" := there, "new" := elsewhere], {}, there, there, there, true, 0);
            var s := Setting("new", "", World(None, stat));
            var tree := PublishedTree(d, s, "dev", namespace, [u]);
            var hosts := Pushed(d, s, tree);
            && Ensurable(d, s) && CanPush(d, s, tree)
            && TreeAt(hosts, "new") == elsewhere != tree
            && TreeAt(hosts, "old") == tree
  {
    var d := Disk(7, true, "old", map["old" := there, "new" := elsewhere], {}, there, there, there, true, 0);
    var s := Setting("new", "", World(None, stat));
    var tree := PublishedTree(d, s, "dev", namespace, [u]);
    assert "old"[0] != "new"[0] && Target(d, "new") == "old";
    CleanCloneFollowsTheRemote(Seen(d, "old"), Revision(there, true));
    PublishedRemoteHoldsTheUnits(d, s, "dev", namespace, [u], DeploymentFile(u));
    assert Entry(tree, InOverlay("dev", DeploymentFile([u][0]))) == Some(DeploymentContent(namespace, [u][0]));
    UrlHoldsTheRenderingIff(d, s, tree, "new");
  }

  /** A run at a commit without an error leaves its rendering on the branch exactly when
      it had something to commit or the branch held that already; and when the branch's
      tip is not in that commit, it had nothing to commit. */
  lemma RunAtCommitPublishesIff(
      f: Faults, d: Disk, d': Disk, s: Setting, env: string, tree: Tree, able: bool, err: Option<string>)
    requires StageEnds(f, d, d', s, env, tree, able, err) && err.None?
    ensures var o := Target(d, s.url);
            && (TreeAt(d'.hosts, o) == tree <==> tree != Base(d, s) || TreeAt(d.hosts, o) == tree)
            && Wanted(d, s).Some? && (!Wanted(d, s).value.forward ==> tree == Base(d, s))
  {
  }

  /** A run at a commit behind the branch never changes a repository; when it has
      something to commit it fails whatever else goes well. */
  lemma StaleCommitIsNeverPushed(
      f: Faults, d: Disk, d': Disk, s: Setting, env: string, tree: Tree, able: bool, err: Option<string>)
    requires StageEnds(f, d, d', s, env, tree, able, err)
    requires Wanted(d, s).Some? && !Wanted(d, s).value.forward && tree != Base(d, s)
    ensures d'.hosts == d.hosts && err.Some?
  {
  }

  // ---------------------------------------------------------------------------
  // Lost pushes
  // ---------------------------------------------------------------------------

  /** A push that is refused leaves the commit in the clone and nothing at the remote. */
  lemma RejectedPushLeavesUnpushed(before: Repo, env: string, f: Faults, n: nat)
    requires f(n).None? && f(n + 1).None? && f(n + 2).None?
    requires !before.forward || (f(n + 3).Some? && !CarriedOut(f(n + 3)))
    requires Staged(before.index, before.working, env) != before.head
    ensures ChangesCommitted(before, env, f, n).err.Some?
    ensures ChangesCommitted(before, env, f, n).repo == Unpushed(before, before.working, env)
  {
  }

  /** For instance the first rendering of a unit. */
  lemma FirstPushCanBeLost(t: Tree, u: Unit, namespace: string, stat: bool)
    requires '/' !in u.name && InOverlay("dev", DeploymentFile(u)) !in t
    ensures var before := Repo({}, t, t, t, t, true, 0);
            var failed := Unpushed(before, Rendered(t, "dev", namespace, [u], stat), "dev");
            var after := Published(failed, Rendered(failed.working, "dev", namespace, [u], stat), "dev");
            after == failed && after.remote == t != after.head
  {
    var before := Repo({}, t, t, t, t, true, 0);
    FailedPushIsNotRetried(before, "dev", namespace, [u], stat);
    EveryUnitIsRendered(t, "dev", namespace, [u], stat, 0);
    StagedOverlay(t, Rendered(t, "dev", namespace, [u], stat), "dev", DeploymentFile(u));
  }

  // ---------------------------------------------------------------------------
  // Runs that were cut short
  // ---------------------------------------------------------------------------

  /** With nothing staged, the next checkout is refused exactly when a file was rewritten
      that the commit it asks for changes. */
  lemma RecoversIff(d: Disk, s: Setting)
    requires d.present && Wanted(d, s).Some? && d.index == d.head
    ensures Ensurable(d, s) <==>
              forall p :: p in d.working ==> Entry(d.working, p) == Entry(d.head, p) || Entry(d.head, p) == Entry(Base(d, s), p)
  {
    var r := Seen(d, Target(d, s.url));
    forall p
      ensures Blocks(r, p, Base(d, s))
              <==> p in d.working && Entry(d.working, p) != Entry(d.head, p) && Entry(d.head, p) != Entry(Base(d, s), p)
    {
    }
    forall p | Entry(d.head, p) != Entry(Base(d, s), p) ensures p in d.head.Keys + Base(d, s).Keys { }
  }

  /** So a run that only deleted files is made up for by the next, whatever has happened
      at the remote: what it changed comes back. */
  lemma DeletedFilesAreRestored(d: Disk, s: Setting, p: Path)
    requires d.present && Wanted(d, s).Some? && d.index == d.head
    requires forall q :: q in d.working ==> Entry(d.working, q) == Entry(d.head, q)
    ensures Ensurable(d, s)
    ensures var r := Ensured(d, s);
            && r.index == r.head == Base(d, s)
            && (Entry(d.head, p) != Entry(Base(d, s), p) ==> Entry(r.working, p) == Entry(Base(d, s), p))
  {
    RecoversIff(d, s);
    var r := Seen(d, Target(d, s.url));
    assert forall q :: Harmless(r, q);
    CleanCloneFollowsTheRemote(r, Wanted(d, s).value);
  }

  /** A clone that the branch of its repository can be checked out in, and that has no
      change outside the overlay. */
  ghost predicate Free(d: Disk, env: string) {
    d.present ==>
      && d.origin in d.hosts && QuietOutside(Seen(d, d.origin), env)
      && !InTheWay(Seen(d, d.origin), d.hosts[d.origin])
  }

  lemma RunKeepsFree(f: Faults, d: Disk, d': Disk, s: Setting, env: string, tree: Tree, able: bool, err: Option<string>)
    requires StageEnds(f, d, d', s, env, tree, able, err) && s.ref == "" && Free(d, env)
    ensures Free(d', env)
  {
    if d'.present {
      assert Ensurable(d, s);
      assert StaysFree(d, d', s, env);
    }
  }

  /** Others change what they like in the repositories, but not in this overlay. */
  ghost predicate OthersPush(d: Disk, d': Disk, env: string) {
    && d' == d.(hosts := d'.hosts)
    && (d.present && d.origin in d.hosts ==>
          d.origin in d'.hosts && forall p :: Under(p, env) ==> Entry(d'.hosts[d.origin], p) == Entry(d.hosts[d.origin], p))
  }

  lemma OthersKeepFree(d: Disk, d': Disk, env: string)
    requires OthersPush(d, d', env) && Free(d, env)
    ensures Free(d', env)
  {
    if d.present {
      var r, r' := Seen(d, d.origin), Seen(d', d.origin);
      SameFilesSameBlocks(r, r', d.hosts[d.origin], env);
      forall p ensures !Blocks(r', p, d'.hosts[d.origin]) {
        if Under(p, env) {
          assert Blocks(r', p, d'.hosts[d.origin]) ==> Blocks(r, p, d.hosts[d.origin]);
        } else {
          assert Harmless(r', p);
        }
      }
    }
  }

  /** A run on the branch, publishing or removing, failing anywhere. */
  ghost predicate Runs(d: Disk, d': Disk, env: string) {
    exists f: Faults, s: Setting, tree: Tree, able: bool, err: Option<string> ::
      s.ref == "" && StageEnds(f, d, d', s, env, tree, able, err)
  }

  /** In every history of such runs for one overlay, wherever they were cut short, and of
      anything others do to the repositories outside that overlay: the next run finds a
      clone that it can check the branch out in. */
  lemma {:induction false} RunsNeverBlockTheNext(history: seq<Disk>, env: string, k: nat, s: Setting)
    requires forall i :: 0 < i < |history| ==> Runs(history[i - 1], history[i], env) || OthersPush(history[i - 1], history[i], env)
    requires k < |history| && Free(history[0], env)
    ensures Free(history[k], env)
    ensures history[k].present && s.ref == "" ==> Ensurable(history[k], s)
  {
    if k > 0 {
      RunsNeverBlockTheNext(history, env, k - 1, s);
      var d, d' := history[k - 1], history[k];
      if OthersPush(d, d', env) {
        OthersKeepFree(d, d', env);
      } else {
        assert Runs(d, d', env);
        var f: Faults, t: Setting, tree: Tree, able: bool, err: Option<string> :|
          t.ref == "" && StageEnds(f, d, d', t, env, tree, able, err);
        RunKeepsFree(f, d, d', t, env, tree, able, err);
      }
    }
  }

  /** A local change that is in the way stays so through any number of runs, as long as
      the repository stays as it is. */
  lemma {:induction false} InTheWayIsForGood(history: seq<Disk>, env: string, k: nat, s: Setting)
    requires forall i :: 0 < i < |history| ==> Runs(history[i - 1], history[i], env)
    requires k < |history| && history[0].present && s.ref == "" && !Ensurable(history[0], s)
    ensures history[k] == history[0].(ops := history[k].ops) && !Ensurable(history[k], s)
  {
    if k > 0 {
      InTheWayIsForGood(history, env, k - 1, s);
      var d, d' := history[k - 1], history[k];
      assert Runs(d, d', env);
      var f: Faults, t: Setting, tree: Tree, able: bool, err: Option<string> :|
        t.ref == "" && StageEnds(f, d, d', t, env, tree, able, err);
      assert Ensurable(d, t) == Ensurable(d, s);
      assert Seen(d', d'.origin) == Seen(d, d.origin);
    }
  }

  /** A unit's manifest is written, the next write fails. */
  lemma OneFileWritten(v: Unit, env: string, namespace: string, f: Faults, n: nat)
    requires '/' !in v.name && f(n).None? && f(n + 1).Some? && !CarriedOut(f(n + 1))
    ensures var w := UnitsWritten(map[], env, namespace, [v], f, n);
            w.err.Some? && w.tree == map[InOverlay(env, DeploymentFile(v)) := DeploymentContent(namespace, v)]
  {
    UnitFilesAreInOverlay(env, v);
    assert [v][..0] == [];
    assert UnitsWritten(map[], env, namespace, [], f, n) == Writing(map[], n, None);
  }

  lemma OneFileCleaned(env: string, u: Unit, c: Content)
    ensures Cleaned(map[InOverlay(env, DeploymentFile(u)) := c], env) == map[]
  {
    FileNamesDisjoint(u, u);
  }

  /** It takes somebody else to get there: a unit's manifest was rewritten, the next write
      failed, and the remote has since changed that very manifest. */
  lemma CutShortRunCanBlockTheNext(
      u: Unit, v: Unit, env: string, namespace: string, other: Content, f: Faults, n: nat, url: string, world: World)
    requires '/' !in u.name && v.name == u.name
    requires DeploymentContent(namespace, v) != DeploymentContent(namespace, u) && other != DeploymentContent(namespace, u)
    requires f(n).None? && f(n + 1).Some? && !CarriedOut(f(n + 1))
    ensures var p := InOverlay(env, DeploymentFile(u));
            var before := map[p := DeploymentContent(namespace, u)];
            var w := UnitsWritten(Cleaned(before, env), env, namespace, [v], f, n);
            var d := Disk(w.ops, true, url, map[url := map[p := other]], {env}, w.tree, before, before, true, 1);
            w.err.Some? && !Ensurable(d, Setting(url, "", world))
  {
    var p := InOverlay(env, DeploymentFile(u));
    var before := map[p := DeploymentContent(namespace, u)];
    OneFileCleaned(env, u, DeploymentContent(namespace, u));
    OneFileWritten(v, env, namespace, f, n);
    var w := UnitsWritten(map[], env, namespace, [v], f, n);
    assert DeploymentFile(v) == DeploymentFile(u);
    OneRewrittenFileBlocks(p, DeploymentContent(namespace, u), DeploymentContent(namespace, v), other, w.ops, url, env, world);
  }

  lemma OneRewrittenFileBlocks(p: Path, was: Content, now: Content, other: Content, n: nat, url: string, env: string, world: World)
    requires now != was && was != other
    ensures var d := Disk(n, true, url, map[url := map[p := other]], {env}, map[p := now], map[p := was], map[p := was], true, 1);
            !Ensurable(d, Setting(url, "", world))
  {
    var d := Disk(n, true, url, map[url := map[p := other]], {env}, map[p := now], map[p := was], map[p := was], true, 1);
    var s := Setting(url, "", world);
    RecoversIff(d, s);
    assert p in d.working && Entry(d.working, p) == Some(now) && Entry(d.head, p) == Some(was) && Entry(Base(d, s), p) == Some(other);
  }
}
