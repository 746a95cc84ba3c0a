/** The working clone of a manifests repository: ensuring it, CommitAndPush and
    removeAndPush as they change the working tree, the index, HEAD and the branch at
    its origin. */
module ManifestsClone {
  import opened Prelude
  import opened ManifestsRepo
  import opened Overlay
  import opened Rollout

  class Clone {
    const fault: Faults
    var ops: nat
    /** Whether there is a clone, and where from. */
    var present: bool
    var origin: string
    /** The repositories by their URL. */
    var hosts: map<string, Tree>
    var dirs: set<string>
    var working: Tree
    var index: Tree
    var head: Tree
    /** HEAD contains the tip of the origin's branch. */
    var forward: bool
    var commits: nat

    function State(): Disk
      reads this
    {
      Disk(ops, present, origin, hosts, dirs, working, index, head, forward, commits)
    }

    /** The clone with its origin as the remote. */
    function Contents(): Repo
      reads this
    {
      Seen(State(), origin)
    }

    /** At most the origin was written, with what HEAD is now. */
    twostate predicate OnlyPushed()
      reads this
    {
      present == old(present) && origin == old(origin) && (hosts == old(hosts) || hosts == old(hosts)[origin := head])
    }

    constructor (hosts: map<string, Tree>, fault: Faults)
      ensures State() == Disk(0, false, "", hosts, {}, map[], map[], map[], true, 0) && this.fault == fault
    {
      this.fault, this.hosts, ops, present, origin := fault, hosts, 0, false, "";
      dirs, working, index, head, forward, commits := {}, map[], map[], map[], true, 0;
    }

    /** The next operation of the file system or of git: the error that is seen, and
        whether it took effect. */
    method Op() returns (err: Option<string>, done: bool)
      modifies this`ops
      ensures ops == old(ops) + 1 && err == ErrorText(fault(old(ops))) && done == CarriedOut(fault(old(ops)))
    {
      err, done := ErrorText(fault(ops)), CarriedOut(fault(ops));
      ops := ops + 1;
    }

    /** The loop meets the files in any order; the first removal that fails ends it. */
    method CleanOverlay(env: string) returns (err: Option<string>)
      modifies this`working, this`ops
      ensures ops >= old(ops) && (err.None? <==> NoFaults(fault, old(ops), ops))
      ensures err.None? ==> working == Cleaned(old(working), env)
      ensures OnlyGeneratedGone(old(working), working, env)
    {
      var done;
      err, done := Op();
      if err.Some? {
        return;
      }
      var files := set p | p in working && p.InOverlay? && p.env == env :: p;
      while files != {}
        invariant err.None? && ops >= old(ops) && NoFaults(fault, old(ops), ops)
        invariant forall p :: p in files ==> p.InOverlay? && p.env == env
        invariant OnlyGeneratedGone(old(working), working, env) && GeneratedAmong(working, files, env)
        decreases files
      {
        var p :| p in files;
        OneMoreGone(old(working), working, files, env, p);
        files := files - {p};
        if Generated(p.name) {
          err := RemoveFile(p);
          if err.Some? {
            return;
          }
        }
      }
      OnlyGeneratedGoneIsCleaned(old(working), working, env);
    }

    /** The first write that fails ends it, carried out or not. */
    method WriteUnits(env: string, namespace: string, units: seq<Unit>) returns (err: Option<string>, entries: seq<string>)
      modifies this`working, this`ops
      ensures Writing(working, ops, err) == UnitsWritten(old(working), env, namespace, units, fault, old(ops))
      ensures err.None? ==> entries == Entries(units)
    {
      entries := [];
      err := None;
      for i := 0 to |units|
        invariant err.None? && Writing(working, ops, err) == UnitsWritten(old(working), env, namespace, units[..i], fault, old(ops))
        invariant entries == Entries(units[..i])
      {
        assert units[..i + 1][..i] == units[..i];
        ghost var done := UnitsWritten(old(working), env, namespace, units[..i + 1], fault, old(ops));
        var u := units[i];
        err := WriteFile(At(env, DeploymentFile(u)), DeploymentContent(namespace, u));
        if err.Some? {
          assert Writing(working, ops, err) == done;
          WritingStops(old(working), env, namespace, units, fault, old(ops), i + 1);
          return;
        }
        err := WriteFile(At(env, ServiceFile(u)), ServiceContent(namespace, u));
        if err.Some? {
          assert Writing(working, ops, err) == done;
          WritingStops(old(working), env, namespace, units, fault, old(ops), i + 1);
          return;
        }
        entries := entries + [DeploymentFile(u), ServiceFile(u)];
      }
      assert units[..|units|] == units;
    }

    method WriteFile(p: Path, c: Content) returns (err: Option<string>)
      modifies this`working, this`ops
      ensures Writing(working, ops, err) == FileWritten(Writing(old(working), old(ops), None), fault, p, c)
    {
      var done;
      err, done := Op();
      if done {
        working := working[p := c];
      }
    }

    /** stat: whether looking for environment.yaml works; an error of it is taken for a
        missing file. */
    method WriteIndex(env: string, header: seq<string>, entries: seq<string>, stat: bool) returns (err: Option<string>)
      modifies this`working, this`ops
      ensures Writing(working, ops, err)
              == FileWritten(Writing(old(working), old(ops), None), fault, InOverlay(env, INDEX),
                             Text(Unlines(IndexLines(header, stat && InOverlay(env, ENVIRONMENT) in old(working), entries))))
    {
      var lines := header;
      if stat && InOverlay(env, ENVIRONMENT) in working {
        lines := lines + [Bullet(ENVIRONMENT)];
      }
      var start := lines;
      for i := 0 to |entries|
        invariant lines == start + BulletsFor(entries[..i])
      {
        assert entries[..i + 1] == entries[..i] + [entries[i]];
        lines := lines + [Bullet(entries[i])];
      }
      assert entries[..|entries|] == entries;
      assert lines == IndexLines(header, stat && InOverlay(env, ENVIRONMENT) in working, entries);
      err := WriteFile(InOverlay(env, INDEX), Text(Unlines(lines)));
    }

    /** Commit what is staged, then push it. */
    method CommitThenPush() returns (err: Option<string>)
      modifies this`head, this`hosts, this`commits, this`ops
      ensures End(Contents(), ops, err) == CommittedAndPushed(old(Contents()), fault, old(ops))
      ensures OnlyPushed()
    {
      var done;
      err, done := Op();
      if done {
        head, commits := index, commits + 1;
      }
      if err.Some? {
        return Some("commit: " + err.value);
      }
      err, done := Op();
      if !forward {
        return Some("push: rejected, not a fast-forward");
      }
      if done {
        hosts := hosts[origin := head];
      }
      if err.Some? {
        return Some("push: " + err.value);
      }
    }

    /** Clean the overlay, write the units, write the index. */
    method Regenerate(env: string, namespace: string, units: seq<Unit>, stat: bool) returns (err: Option<string>)
      modifies this`working, this`ops
      ensures ops >= old(ops) && (err.None? <==> NoFaults(fault, old(ops), ops))
      ensures err.None? ==> working == Rendered(old(working), env, namespace, units, stat)
      ensures SameOutside(old(working), working, env)
    {
      err := CleanOverlay(env);
      if err.Some? {
        return;
      }
      err := WriteAll(env, namespace, units, stat);
    }

    /** The units' files, then the index. */
    method WriteAll(env: string, namespace: string, units: seq<Unit>, stat: bool) returns (err: Option<string>)
      modifies this`working, this`ops
      ensures ops >= old(ops) && (err.None? <==> NoFaults(fault, old(ops), ops))
      ensures err.None? ==>
                var files := WithUnits(old(working), env, namespace, units);
                working == files[InOverlay(env, INDEX) := Text(IndexText(stat && InOverlay(env, ENVIRONMENT) in files, Entries(units)))]
      ensures SameOutside(old(working), working, env)
    {
      var entries;
      ghost var t, n := working, ops;
      err, entries := WriteUnits(env, namespace, units);
      WritingEnds(t, env, namespace, units, fault, n);
      if err.Some? {
        return;
      }
      ghost var w := Writing(working, ops, err);
      ghost var c := Text(Unlines(IndexLines(HEADER, stat && InOverlay(env, ENVIRONMENT) in working, entries)));
      FileWrittenEnds(t, env, w, fault, n, InOverlay(env, INDEX), c);
      err := WriteIndex(env, HEADER, entries, stat);
    }

    method StageOverlay(env: string) returns (err: Option<string>)
      modifies this`index, this`ops
      ensures ops == old(ops) + 1 && err == ErrorText(fault(old(ops)))
      ensures index == if CarriedOut(fault(old(ops))) then Staged(old(index), working, env) else old(index)
    {
      var done;
      err, done := Op();
      if done {
        index := Staged(index, working, env);
      }
    }

    method CommitIfChanged(env: string) returns (err: Option<string>)
      modifies this`index, this`head, this`hosts, this`commits, this`ops
      ensures End(Contents(), ops, err) == ChangesCommitted(old(Contents()), env, fault, old(ops))
      ensures OnlyPushed()
    {
      err := StageOverlay(env);
      if err.Some? {
        return;
      }
      var done;
      // git diff --cached --quiet: 0 clean, 1 dirty, anything else is an error
      err, done := Op();
      if err.Some? {
        return;
      }
      if index != head {
        err := CommitThenPush();
      }
    }

    /** Nil exactly when nothing failed and the push, if there is something to push, is
        accepted; then the rendering is published. On an error the remote is as it was,
        or it is the rendering all the same. */
    method CommitAndPush(env: string, namespace: string, units: seq<Unit>, stat: bool) returns (err: Option<string>)
      modifies this`dirs, this`working, this`index, this`head, this`hosts, this`commits, this`ops
      ensures ops >= old(ops)
      ensures env == "" ==> err.Some? && Contents() == old(Contents()) && ops == old(ops)
      ensures var before, w := old(Contents()).(dirs := old(dirs) + {env}), Rendered(old(working), env, namespace, units, stat);
              && (err.None? <==> env != "" && NoFaults(fault, old(ops), ops) && Pushable(before, w, env))
              && (err.None? ==> Contents() == Published(before, w, env))
              && EndsOneOfThree(before, w, env, Contents()) && OverlayOnly(before, Contents(), env)
      ensures OnlyPushed()
    {
      if env == "" {
        return Some("environment must not be empty");
      }
      var done;
      err, done := Op();
      if done {
        dirs := dirs + {env};
      }
      if err.Some? {
        return;
      }
      err := RenderAndCommit(env, namespace, units, stat);
    }

    method RenderAndCommit(env: string, namespace: string, units: seq<Unit>, stat: bool) returns (err: Option<string>)
      modifies this`working, this`index, this`head, this`hosts, this`commits, this`ops
      ensures ops >= old(ops)
      ensures var w := Rendered(old(working), env, namespace, units, stat);
              && (err.None? <==> NoFaults(fault, old(ops), ops) && Pushable(old(Contents()), w, env))
              && (err.None? ==> Contents() == Published(old(Contents()), w, env))
              && EndsOneOfThree(old(Contents()), w, env, Contents()) && OverlayOnly(old(Contents()), Contents(), env)
      ensures OnlyPushed()
    {
      err := Regenerate(env, namespace, units, stat);
      if err.Some? {
        return;
      }
      ghost var now, n := Contents(), ops;
      CommitEndings(now, env, fault, n);
      WorkingTreeComesLast(old(Contents()), working, env, ChangesCommitted(now, env, fault, n).repo);
      err := CommitIfChanged(env);
    }

    method RemoveUnitFiles(env: string, units: seq<Unit>) returns (err: Option<string>)
      modifies this`working, this`ops
      ensures ops >= old(ops) && (err.None? <==> NoFaults(fault, old(ops), ops))
      ensures err.None? ==> working == WithoutUnitFiles(old(working), env, units)
      ensures SameOutside(old(working), working, env)
    {
      err := None;
      for i := 0 to |units|
        invariant err.None? && ops >= old(ops) && NoFaults(fault, old(ops), ops)
        invariant working == WithoutUnitFiles(old(working), env, units[..i]) && SameOutside(old(working), working, env)
      {
        assert units[..i + 1][..i] == units[..i];
        err := RemoveFilesOf(env, units[i]);
        if err.Some? {
          return;
        }
      }
      assert units[..|units|] == units;
    }

    /** Both files, a missing one included; the first removal that fails ends it. */
    method RemoveFilesOf(env: string, u: Unit) returns (err: Option<string>)
      modifies this`working, this`ops
      ensures ops > old(ops) && (err.None? <==> NoFaults(fault, old(ops), ops))
      ensures err.None? ==> working == old(working) - {At(env, DeploymentFile(u)), At(env, ServiceFile(u))}
      ensures SameOutside(old(working), working, env)
    {
      UnitFilesAreUnder(env, u);
      err := RemoveFile(At(env, DeploymentFile(u)));
      if err.Some? {
        return;
      }
      err := RemoveFile(At(env, ServiceFile(u)));
    }

    method RemoveFile(p: Path) returns (err: Option<string>)
      modifies this`working, this`ops
      ensures ops == old(ops) + 1 && err == ErrorText(fault(old(ops)))
      ensures working == if CarriedOut(fault(old(ops))) then old(working) - {p} else old(working)
    {
      var done;
      err, done := Op();
      if done {
        working := working - {p};
      }
    }

    method CommitRemoval(env: string) returns (err: Option<string>)
      modifies this`index, this`head, this`hosts, this`commits, this`ops
      ensures End(Contents(), ops, err) == RemovalCommitted(old(Contents()), env, fault, old(ops))
      ensures OnlyPushed()
    {
      err := StageOverlay(env);
      if err.Some? {
        return;
      }
      var done;
      var broken;
      broken, done := Op();
      if index == head {
        if broken.Some? {
          broken, done := Op();
          return Some("commit: nothing to commit");
        }
        return None;
      }
      err := CommitThenPush();
    }

    /** The directory of the overlay has to be there for the index to be written; it
        outlives the files in it. */
    method RemoveAndPush(env: string, units: seq<Unit>, stat: bool) returns (err: Option<string>)
      modifies this`dirs, this`working, this`index, this`head, this`hosts, this`commits, this`ops
      ensures ops >= old(ops)
      ensures !HasDirectory(old(dirs), old(working), env) ==> err.Some? && hosts == old(hosts) && commits == old(commits)
      ensures var before, w := old(Contents()).(dirs := dirs), Removed(old(working), env, units, stat);
              && (HasDirectory(old(dirs), old(working), env) && NoFaults(fault, old(ops), ops) && Pushable(before, w, env) ==> err.None?)
              && (err.None? ==> Pushable(before, w, env) && Contents() == Published(before, w, env))
              && EndsOneOfThree(before, w, env, Contents()) && OverlayOnly(before, Contents(), env)
      ensures OnlyPushed()
    {
      var there := HasDirectory(dirs, working, env);
      if there {
        dirs := dirs + {env};
      }
      err := RemoveUnitFiles(env, units);
      if err.Some? {
        return;
      }
      if !there {
        return Some("no such directory");
      }
      err := CommitRemovedFiles(env, units, stat, old(working));
    }

    /** The second half: the index, then the commit. */
    method CommitRemovedFiles(env: string, units: seq<Unit>, stat: bool, ghost was: Tree) returns (err: Option<string>)
      requires working == WithoutUnitFiles(was, env, units)
      modifies this`working, this`index, this`head, this`hosts, this`commits, this`ops
      ensures ops >= old(ops)
      ensures var w := Removed(was, env, units, stat);
              && (NoFaults(fault, old(ops), ops) && Pushable(old(Contents()), w, env) ==> err.None?)
              && (err.None? ==> Pushable(old(Contents()), w, env) && Contents() == Published(old(Contents()), w, env))
              && EndsOneOfThree(old(Contents()), w, env, Contents()) && OverlayOnly(old(Contents()), Contents(), env)
      ensures OnlyPushed()
    {
      err := WriteIndex(env, REMOVAL_HEADER, [], stat);
      if err.Some? {
        return;
      }
      ghost var now, n := Contents(), ops;
      RemovalEndings(now, env, fault, n);
      WorkingTreeComesLast(old(Contents()), working, env, RemovalCommitted(now, env, fault, n).repo);
      err := CommitRemoval(env);
    }

    /** Clone if there is none, then fetch and check out. The URL is used by the clone
        alone. */
    method EnsureLocalClone(s: Setting) returns (err: Option<string>)
      modifies this`present, this`origin, this`dirs, this`working, this`index, this`head, this`forward, this`ops
      ensures err.None? <==> NoFaults(fault, old(ops), ops) && Ensurable(old(State()), s)
      ensures err.None? ==> present && Contents() == Ensured(old(State()), s)
      ensures Halted(old(State()), State(), s)
    {
      if !present {
        err := MakeClone(s.url);
        if err.Some? {
          return;
        }
      }
      err := FetchAndCheckOut(s);
    }

    /** git clone: whatever the default branch has. */
    method MakeClone(url: string) returns (err: Option<string>)
      requires !present
      modifies this`present, this`origin, this`dirs, this`working, this`index, this`head, this`forward, this`ops
      ensures ops == old(ops) + 1 && (err.None? <==> url in hosts && fault(old(ops)).None?)
      ensures err.None? ==> present
      ensures if present then
                url in hosts && origin == url && Contents() == Repo({}, hosts[url], hosts[url], hosts[url], hosts[url], true, old(commits))
              else State() == old(State()).(ops := ops)
    {
      var done;
      err, done := Op();
      if url !in hosts {
        return Some("clone: repository not found");
      }
      if done {
        present, origin, dirs, forward := true, url, {}, true;
        working, index, head := hosts[url], hosts[url], hosts[url];
      }
      if err.Some? {
        return Some("clone: " + err.value);
      }
    }

    method FetchAndCheckOut(s: Setting) returns (err: Option<string>)
      requires present
      modifies this`dirs, this`working, this`index, this`head, this`forward, this`ops
      ensures ops > old(ops)
      ensures err.None? <==> NoFaults(fault, old(ops), ops) && Ensurable(old(State()), s)
      ensures err.None? ==> Contents() == Ensured(old(State()), s)
      ensures State() == old(State()).(ops := ops) || (Ensurable(old(State()), s) && Contents() == Ensured(old(State()), s))
    {
      var done;
      err, done := Op();
      if origin !in hosts {
        return Some("fetch: repository not found");
      }
      if s.ref != "" && s.world.named.None? {
        return Some("fetch: no such commit");
      }
      if err.Some? {
        return Some("fetch: " + err.value);
      }
      err := CheckOut(if s.ref == "" then Revision(hosts[origin], true) else s.world.named.value);
    }

    method CheckOut(c: Revision) returns (err: Option<string>)
      modifies this`dirs, this`working, this`index, this`head, this`forward, this`ops
      ensures ops == old(ops) + 1
      ensures err.None? <==> fault(old(ops)).None? && !InTheWay(old(Contents()), c.tree)
      ensures err.None? ==> Contents() == CheckedOut(old(Contents()), c)
      ensures Contents() == old(Contents()) || (!InTheWay(old(Contents()), c.tree) && Contents() == CheckedOut(old(Contents()), c))
    {
      var done;
      err, done := Op();
      if InTheWay(Contents(), c.tree) {
        return Some("checkout: local changes would be overwritten");
      }
      if done {
        var switched := SwitchedFiles(Contents(), c.tree);
        dirs := Swept(dirs, working, switched);
        working, index, head, forward := switched, Switched(index, head, c.tree), c.tree, c.forward;
      }
      if err.Some? {
        return Some("checkout: " + err.value);
      }
    }

    /** The key files and the clone. */
    method Prepare(s: Setting) returns (err: Option<string>)
      modifies this`present, this`origin, this`dirs, this`working, this`index, this`head, this`forward, this`ops
      ensures err.None? <==> NoFaults(fault, old(ops), ops) && Ensurable(old(State()), s)
      ensures err.None? ==> present && Contents() == Ensured(old(State()), s)
      ensures Halted(old(State()), State(), s)
    {
      ghost var d := State();
      var done;
      err, done := Op();
      OneOpHalts(d, s);
      if err.Some? {
        return Some("resolve git ssh credentials: " + err.value);
      }
      err := EnsureLocalClone(s);
      HaltedLater(d, State(), s);
      if err.Some? {
        return Some("ensure local clone: " + err.value);
      }
    }

    /** Everything the GitOps path does to a repository: the key files, the clone, the
        rendering, the push. */
    method Publish(s: Setting, env: string, namespace: string, units: seq<Unit>) returns (err: Option<string>)
      modifies this
      ensures StageEnds(fault, old(State()), State(), s, env, PublishedTree(old(State()), s, env, namespace, units),
                        env != "" && Ensurable(old(State()), s), err)
      ensures err.None? ==> NoFaults(fault, old(ops), ops)
    {
      ghost var d := State();
      err := Prepare(s);
      if err.Some? {
        HaltedEnds(fault, d, State(), s, env, PublishedTree(d, s, env, namespace, units), env != "" && Ensurable(d, s), err);
        return;
      }
      ghost var e := State();
      err := CommitAndPush(env, namespace, units, s.world.stat);
      ghost var start := Seen(e, e.origin).(dirs := if env == "" then e.dirs else e.dirs + {env});
      FromCommitToStage(fault, d, e, State(), s, start, Rendered(e.working, env, namespace, units, s.world.stat), env,
                        env != "" && Ensurable(d, s), err);
      if err.Some? {
        return Some("commit and push failed: " + err.value);
      }
    }

    /** The same for removal: the directory has to be in what is checked out. */
    method Withdraw(s: Setting, env: string, units: seq<Unit>) returns (err: Option<string>)
      modifies this
      ensures StageEnds(fault, old(State()), State(), s, env, RemovedTree(old(State()), s, env, units),
                        Removable(old(State()), s, env), err)
    {
      ghost var d := State();
      err := Prepare(s);
      if err.Some? {
        HaltedEnds(fault, d, State(), s, env, RemovedTree(d, s, env, units), Removable(d, s, env), err);
        return;
      }
      ghost var e := State();
      err := RemoveAndPush(env, units, s.world.stat);
      FromCommitToStage(fault, d, e, State(), s, Seen(e, e.origin).(dirs := dirs), Removed(e.working, env, units, s.world.stat), env,
                        Removable(d, s, env), err);
      if err.Some? {
        return Some("remove manifests from gitops repo: " + err.value);
      }
    }
  }
}
