/** Safety of whole runs: any number of installers and recoveries, interleaved step by
    step, failing and dying anywhere. */
module InstallRuns {
  import opened Basics
  import opened Versions
  import opened Artifact
  import opened InstallPlan
  import opened InstallProtocol
  import opened InstallTheorems
  import opened InstallRefinement

  datatype Move = Move(p: Pid, act: Action)

  /** The worlds of a run, each reached from the one before by a move. */
  ghost predicate IsRun(s: Settings, worlds: seq<World>, moves: seq<Move>) {
    && s.roots != []
    && |worlds| == |moves| + 1
    && (forall i :: 0 <= i < |moves| ==> Perform(s, worlds[i], moves[i].p, moves[i].act) == Some(worlds[i + 1]))
  }

  /** Nothing has started: no transaction, every process idle. */
  ghost predicate AtStart(w: World) {
    w.disk.transaction.None? && forall p :: p in w.procs ==> w.procs[p] == Idle
  }

  /** Every step is benign, where it is taken. */
  ghost predicate BenignRun(worlds: seq<World>, moves: seq<Move>)
    requires |worlds| == |moves| + 1
  {
    forall i :: 0 <= i < |moves| ==> Benign(worlds[i], moves[i].p, moves[i].act)
  }

  function OnDisk(d: Disk): Workspace {
    Workspace(d.lock, d.dirs)
  }

  /** What is seen along a run: it starts as the disk does and each step is seen as it should be. */
  ghost predicate Sees(s: Settings, worlds: seq<World>, moves: seq<Move>, seen: seq<Workspace>)
    requires |worlds| == |moves| + 1
  {
    && |seen| == |worlds|
    && seen[0] == OnDisk(worlds[0].disk)
    && (forall i :: 0 <= i < |worlds| ==> Inv(s, worlds[i], seen[i]))
    && (forall i :: 0 <= i < |moves| ==> SeenAs(s, worlds[i], moves[i].p, moves[i].act, seen[i], seen[i + 1]))
  }

  lemma StartIsSeen(s: Settings, w: World)
    requires s.roots != [] && AtStart(w)
    ensures Inv(s, w, OnDisk(w.disk))
  {
  }

  lemma SeenAtRest(s: Settings, w: World, a: Workspace)
    requires Inv(s, w, a) && w.disk.transaction.None?
    ensures a == OnDisk(w.disk)
  {
  }

  /** Every benign run is seen as a sequence of installs that each happen at once. */
  lemma {:induction false} RunIsSeen(s: Settings, worlds: seq<World>, moves: seq<Move>) returns (seen: seq<Workspace>)
    requires IsRun(s, worlds, moves) && AtStart(worlds[0]) && BenignRun(worlds, moves)
    ensures Sees(s, worlds, moves, seen)
    decreases |moves|
  {
    hide SeenAs, Inv, Benign, Perform;
    if moves == [] {
      StartIsSeen(s, worlds[0]);
      seen := [OnDisk(worlds[0].disk)];
    } else {
      var n := |moves| - 1;
      forall i | 0 <= i < n
        ensures Perform(s, worlds[..n + 1][i], moves[..n][i].p, moves[..n][i].act) == Some(worlds[..n + 1][i + 1])
      {
        assert Perform(s, worlds[i], moves[i].p, moves[i].act) == Some(worlds[i + 1]);
      }
      forall i | 0 <= i < n ensures Benign(worlds[..n + 1][i], moves[..n][i].p, moves[..n][i].act) {
        assert Benign(worlds[i], moves[i].p, moves[i].act);
      }
      var before := RunIsSeen(s, worlds[..n + 1], moves[..n]);
      assert Inv(s, worlds[..n + 1][n], before[n]);
      assert Benign(worlds[n], moves[n].p, moves[n].act);
      var last := StepRefines(s, worlds[n], before[n], moves[n].p, moves[n].act, worlds[n + 1]);
      seen := before + [last];
      forall i | 0 <= i < |worlds| ensures Inv(s, worlds[i], seen[i]) {
        if i <= n {
          assert Inv(s, worlds[..n + 1][i], before[i]);
        }
      }
      forall i | 0 <= i < |moves| ensures SeenAs(s, worlds[i], moves[i].p, moves[i].act, seen[i], seen[i + 1]) {
        if i < n {
          assert SeenAs(s, worlds[..n + 1][i], moves[..n][i].p, moves[..n][i].act, before[i], before[i + 1]);
        }
      }
    }
  }

  /* Crash atomicity. */

  lemma {:induction false} SeenIsStill(
      s: Settings, worlds: seq<World>, moves: seq<Move>, seen: seq<Workspace>, i: nat, j: nat)
    requires |worlds| == |moves| + 1 && Sees(s, worlds, moves, seen) && i <= j < |worlds|
    requires forall k :: i <= k < j ==> moves[k].act != Finish
    ensures seen[j] == seen[i]
    decreases j - i
  {
    if i < j {
      SeenIsStill(s, worlds, moves, seen, i, j - 1);
      assert SeenAs(s, worlds[j - 1], moves[j - 1].p, moves[j - 1].act, seen[j - 1], seen[j - 1 + 1]);
    }
  }

  /** Whenever no transaction directory is left, the disk is what the finished installs made
      of it: between two such moments without a finished install, whatever started, failed,
      died and was recovered, the lockfile and every directory are the same. */
  lemma CrashesLeaveNoTrace(s: Settings, worlds: seq<World>, moves: seq<Move>, i: nat, j: nat)
    requires IsRun(s, worlds, moves) && AtStart(worlds[0]) && BenignRun(worlds, moves)
    requires i <= j < |worlds|
    requires worlds[i].disk.transaction.None? && worlds[j].disk.transaction.None?
    requires forall k :: i <= k < j ==> moves[k].act != Finish
    ensures OnDisk(worlds[i].disk) == OnDisk(worlds[j].disk)
  {
    var seen := RunIsSeen(s, worlds, moves);
    assert Inv(s, worlds[i], seen[i]) && Inv(s, worlds[j], seen[j]);
    SeenIsStill(s, worlds, moves, seen, i, j);
  }

  lemma FinishIsSeen(s: Settings, w: World, p: Pid, a: Workspace, b: Workspace) returns (job: Job)
    requires s.roots != [] && Perform(s, w, p, Finish).Some? && SeenAs(s, w, p, Finish, a, b)
    ensures p in w.procs && w.procs[p] == Holding(job, Sealed) && GoodJob(s, job) && Commits(a, b, job)
  {
    hide Commits, GoodJob, PlanInstall, UndoNext, PerformHolding;
    job := w.procs[p].job;
    if w.disk.transaction.Some? {
      NotFinish(s, w, p, job, w.procs[p].at, Finish);
    }
  }

  /** And with one finished install in between, they differ by exactly that install, whose
      plan was made against the lockfile it replaced. */
  lemma FinishedInstallIsWhole(s: Settings, worlds: seq<World>, moves: seq<Move>, i: nat, f: nat, j: nat)
    returns (job: Job)
    requires IsRun(s, worlds, moves) && AtStart(worlds[0]) && BenignRun(worlds, moves)
    requires i <= f < j < |worlds|
    requires worlds[i].disk.transaction.None? && worlds[j].disk.transaction.None?
    requires forall k :: i <= k < j ==> (moves[k].act == Finish <==> k == f)
    ensures moves[f].p in worlds[f].procs && worlds[f].procs[moves[f].p] == Holding(job, Sealed)
    ensures GoodJob(s, job) && Commits(OnDisk(worlds[i].disk), OnDisk(worlds[j].disk), job)
    ensures DigestOf(worlds[i].disk.lock) == job.expected
  {
    var seen := RunIsSeen(s, worlds, moves);
    SeenAtRest(s, worlds[i], seen[i]);
    SeenAtRest(s, worlds[j], seen[j]);
    hide Inv, Benign, Commits, GoodJob, Perform, SeenAs;
    SeenIsStill(s, worlds, moves, seen, i, f);
    SeenIsStill(s, worlds, moves, seen, f + 1, j);
    job := FinishIsSeen(s, worlds[f], moves[f].p, seen[f], seen[f + 1]);
  }

  /* No lost update. */

  /** Along a run the visible lock changes only when an install finishes, and then from the
      very lock its plan was made against to the lock it planned. */
  lemma NoLostUpdate(s: Settings, worlds: seq<World>, moves: seq<Move>) returns (seen: seq<Workspace>)
    requires IsRun(s, worlds, moves) && AtStart(worlds[0]) && BenignRun(worlds, moves)
    ensures Sees(s, worlds, moves, seen)
    ensures forall i :: 0 <= i < |moves| && seen[i + 1].lock != seen[i].lock ==>
      && moves[i].act == Finish
      && worlds[i].procs[moves[i].p].Holding?
      && DigestOf(seen[i].lock) == worlds[i].procs[moves[i].p].job.expected
      && seen[i + 1].lock == Some(worlds[i].procs[moves[i].p].job.next)
    ensures forall i :: 0 <= i < |worlds| && worlds[i].disk.transaction.None? ==> worlds[i].disk.lock == seen[i].lock
  {
    seen := RunIsSeen(s, worlds, moves);
    forall i | 0 <= i < |moves| && seen[i + 1].lock != seen[i].lock
      ensures moves[i].act == Finish
      ensures moves[i].p in worlds[i].procs && worlds[i].procs[moves[i].p].Holding?
      ensures DigestOf(seen[i].lock) == worlds[i].procs[moves[i].p].job.expected
      ensures seen[i + 1].lock == Some(worlds[i].procs[moves[i].p].job.next)
    {
      assert SeenAs(s, worlds[i], moves[i].p, moves[i].act, seen[i], seen[i + 1]);
    }
    forall i | 0 <= i < |worlds| && worlds[i].disk.transaction.None? ensures worlds[i].disk.lock == seen[i].lock {
      assert Inv(s, worlds[i], seen[i]);
    }
  }

  /* Lock and disk agree. */

  /** Every module of the lockfile is in its directory, file for file; ids and directories
      are distinct. */
  ghost predicate Agrees(s: Settings, a: Workspace) {
    && ValidModules(s, Modules(a.lock))
    && (forall m :: m in Modules(a.lock) ==> Unmodified(a.dirs, m))
  }

  lemma KeptDirectoryIsNoDestination(s: Settings, job: Job, m: Installed)
    requires GoodJob(s, job) && m in Modules(job.previous) && !Replaced(job.entries, m.id)
    ensures !IsDestination(job, m.directory)
  {
    NextMembers(Modules(job.previous), job.entries);
    forall e | e in job.entries ensures e.installed.directory != m.directory {
      var k :| 0 <= k < |job.entries| && job.entries[k] == e;
      assert InstalledOf(job.entries)[k] == e.installed;
      assert e.installed in job.next.modules && m in job.next.modules;
      var i :| 0 <= i < |job.next.modules| && job.next.modules[i] == m;
      var j :| 0 <= j < |job.next.modules| && job.next.modules[j] == e.installed;
      assert m.id != e.installed.id;
      if i < j {
        assert Lower(job.next.modules[i].directory) != Lower(job.next.modules[j].directory);
      } else {
        assert Lower(job.next.modules[j].directory) != Lower(job.next.modules[i].directory);
      }
    }
  }

  lemma CommitKeepsOthers(s: Settings, a: Workspace, b: Workspace, job: Job)
    requires GoodJob(s, job) && Commits(a, b, job)
    ensures forall m :: m in Modules(a.lock) && !Replaced(job.entries, m.id) ==>
      m in Modules(b.lock) && Lookup(b.dirs, m.directory) == Lookup(a.dirs, m.directory)
  {
    hide ValidModules, EntryFits;
    NextMembers(Modules(job.previous), job.entries);
    forall m | m in Modules(a.lock) && !Replaced(job.entries, m.id)
      ensures m in Modules(b.lock) && Lookup(b.dirs, m.directory) == Lookup(a.dirs, m.directory)
    {
      KeptDirectoryIsNoDestination(s, job, m);
    }
  }

  lemma CommittedIsUnmodified(s: Settings, a: Workspace, b: Workspace, job: Job, i: nat)
    requires GoodJob(s, job) && Commits(a, b, job) && i < |job.entries|
    ensures Unmodified(b.dirs, job.entries[i].installed)
  {
    hide ValidModules, EntryFits, NextModules, DirectoryHashes, IsDestination;
    var e := job.entries[i];
    assert e in job.entries && EntryFits(s, Modules(job.previous), e);
    FittingHashesMatch(s, Modules(job.previous), e);
    FittingIsRecorded(s, Modules(job.previous), e);
  }

  lemma FittingIsRecorded(s: Settings, snapshot: seq<Installed>, e: PlannedEntry)
    requires EntryFits(s, snapshot, e)
    ensures e.installed.files == Recorded(e.files)
  {
  }

  lemma CommitKeepsAgreement(s: Settings, a: Workspace, b: Workspace, job: Job)
    requires Agrees(s, a) && GoodJob(s, job) && Commits(a, b, job)
    ensures Agrees(s, b)
    ensures forall m :: m in Modules(a.lock) && !Replaced(job.entries, m.id) ==>
      m in Modules(b.lock) && Lookup(b.dirs, m.directory) == Lookup(a.dirs, m.directory)
  {
    hide ValidModules, EntryFits, NextModules, DirectoryHashes, Replaced, IsDestination;
    CommitKeepsOthers(s, a, b, job);
    NextMembers(Modules(job.previous), job.entries);
    forall m | m in Modules(b.lock) ensures Unmodified(b.dirs, m) {
      if m in InstalledOf(job.entries) {
        var i :| 0 <= i < |job.entries| && InstalledOf(job.entries)[i] == m;
        CommittedIsUnmodified(s, a, b, job, i);
      } else {
        assert Unmodified(a.dirs, m);
      }
    }
  }

  lemma StepKeepsAgreement(s: Settings, w: World, p: Pid, act: Action, a: Workspace, b: Workspace)
    requires SeenAs(s, w, p, act, a, b) && Agrees(s, a)
    ensures Agrees(s, b)
  {
    hide Agrees, Commits, GoodJob;
    if act == Finish {
      CommitKeepsAgreement(s, a, b, w.procs[p].job);
    }
  }

  lemma {:induction false} SeenAgrees(
      s: Settings, worlds: seq<World>, moves: seq<Move>, seen: seq<Workspace>, i: nat)
    requires |worlds| == |moves| + 1 && Sees(s, worlds, moves, seen) && i < |worlds|
    requires Agrees(s, seen[0])
    ensures Agrees(s, seen[i])
    decreases i
  {
    hide Agrees, SeenAs, Inv, Commits, GoodJob;
    if i > 0 {
      var k := i - 1;
      SeenAgrees(s, worlds, moves, seen, k);
      assert SeenAs(s, worlds[k], moves[k].p, moves[k].act, seen[k], seen[k + 1]);
      StepKeepsAgreement(s, worlds[k], moves[k].p, moves[k].act, seen[k], seen[k + 1]);
    }
  }

  /** If the lockfile and the directories agree at the start, they agree whenever no
      transaction is left, over every run. */
  lemma LockAndDiskAgree(s: Settings, worlds: seq<World>, moves: seq<Move>, i: nat)
    requires IsRun(s, worlds, moves) && AtStart(worlds[0]) && BenignRun(worlds, moves)
    requires i < |worlds| && worlds[i].disk.transaction.None?
    requires Agrees(s, OnDisk(worlds[0].disk))
    ensures Agrees(s, OnDisk(worlds[i].disk))
  {
    var seen := RunIsSeen(s, worlds, moves);
    SeenAgrees(s, worlds, moves, seen, i);
    assert Inv(s, worlds[i], seen[i]);
  }

  /* Append-only history. */

  /** Every module of the first list is in the second, not older, with all its migrations. */
  ghost predicate Continues(before: seq<Installed>, after: seq<Installed>) {
    forall m :: m in before ==> exists n :: n in after && Succeeds(m, n)
  }

  predicate Succeeds(m: Installed, n: Installed) {
    n.id == m.id && !Older(n.version, m.version) && KeepsMigrations(m.files, n.files)
  }

  lemma ContinuesTransitive(a: seq<Installed>, b: seq<Installed>, c: seq<Installed>)
    requires Continues(a, b) && Continues(b, c)
    ensures Continues(a, c)
  {
    forall m | m in a ensures exists n :: n in c && Succeeds(m, n) {
      var k :| k in b && Succeeds(m, k);
      var n :| n in c && Succeeds(k, n);
      assert Succeeds(m, n);
    }
  }

  lemma ReplacedSucceeds(s: Settings, job: Job, m: Installed) returns (n: Installed)
    requires GoodJob(s, job) && m in Modules(job.previous) && Replaced(job.entries, m.id)
    ensures n in InstalledOf(job.entries) && Succeeds(m, n)
  {
    hide KeepsMigrations, Older, AcceptableFiles, NextModules, Recorded;
    var e :| e in job.entries && e.installed.id == m.id;
    var k :| 0 <= k < |job.entries| && job.entries[k] == e;
    n := e.installed;
    assert InstalledOf(job.entries)[k] == n;
    FoundIfDistinct(Modules(job.previous), m);
    assert EntryFits(s, Modules(job.previous), e);
  }

  lemma CommitContinues(s: Settings, a: Workspace, b: Workspace, job: Job)
    requires GoodJob(s, job) && Commits(a, b, job)
    ensures Continues(Modules(a.lock), Modules(b.lock))
  {
    hide EntryFits, ValidModules, InstalledOf, Replaced;
    NextMembers(Modules(job.previous), job.entries);
    forall m | m in Modules(a.lock) ensures exists n :: n in Modules(b.lock) && Succeeds(m, n) {
      if Replaced(job.entries, m.id) {
        var n := ReplacedSucceeds(s, job, m);
      } else {
        assert Succeeds(m, m);
      }
    }
  }

  lemma ContinuesItself(a: seq<Installed>)
    ensures Continues(a, a)
  {
    forall m | m in a ensures exists n :: n in a && Succeeds(m, n) {
      assert Succeeds(m, m);
    }
  }

  lemma StepContinues(s: Settings, w: World, p: Pid, act: Action, a: Workspace, b: Workspace)
    requires SeenAs(s, w, p, act, a, b)
    ensures Continues(Modules(a.lock), Modules(b.lock))
  {
    hide GoodJob, Commits, Continues;
    if act == Finish {
      CommitContinues(s, a, b, w.procs[p].job);
    } else {
      ContinuesItself(Modules(a.lock));
    }
  }

  lemma {:induction false} SeenContinues(
      s: Settings, worlds: seq<World>, moves: seq<Move>, seen: seq<Workspace>, i: nat, j: nat)
    requires |worlds| == |moves| + 1 && Sees(s, worlds, moves, seen) && i <= j < |worlds|
    ensures Continues(Modules(seen[i].lock), Modules(seen[j].lock))
    decreases j - i
  {
    hide SeenAs, Inv, Continues;
    if i == j {
      ContinuesItself(Modules(seen[i].lock));
    } else {
      var k := j - 1;
      SeenContinues(s, worlds, moves, seen, i, k);
      assert SeenAs(s, worlds[k], moves[k].p, moves[k].act, seen[k], seen[k + 1]);
      StepContinues(s, worlds[k], moves[k].p, moves[k].act, seen[k], seen[k + 1]);
      ContinuesTransitive(Modules(seen[i].lock), Modules(seen[k].lock), Modules(seen[j].lock));
    }
  }

  /** Over every run no module leaves the lockfile or goes back in version, and no migration
      once recorded for it changes or disappears. */
  lemma HistoryIsAppendOnly(s: Settings, worlds: seq<World>, moves: seq<Move>, i: nat, j: nat)
    requires IsRun(s, worlds, moves) && AtStart(worlds[0]) && BenignRun(worlds, moves)
    requires i <= j < |worlds|
    requires worlds[i].disk.transaction.None? && worlds[j].disk.transaction.None?
    ensures Continues(Modules(worlds[i].disk.lock), Modules(worlds[j].disk.lock))
  {
    var seen := RunIsSeen(s, worlds, moves);
    assert Inv(s, worlds[i], seen[i]) && Inv(s, worlds[j], seen[j]);
    SeenContinues(s, worlds, moves, seen, i, j);
  }
}
