/** Facts that tie the installer object to the install protocol: what its steps are, that each
    keeps what is known, and that its rollback is rollback steps in a row. */
module InstallerSteps {
  import opened Basics
  import opened Artifact
  import opened InstallPlan
  import opened InstallProtocol
  import opened InstallTheorems
  import opened InstallRefinement
  import opened InstallRuns
  import opened InstallLimits
  import opened InstallProgress

  /* How a rollback can end. */

  datatype RollbackStatus = RolledBack | Conflict | Died

  /** What a rollback has reached after some steps: the end, a conflict, or a point where it died. */
  ghost predicate Reached(before: Disk, j: Journal, steps: nat, status: RollbackStatus, left: nat, after: Disk)
    requires before.transaction.Some?
  {
    UndoMany(Undoing(before, |j.entries|), j, steps)
    == match status
       case RolledBack => Undone(after)
       case Conflict => Conflicted(after)
       case Died => Undoing(after, left)
  }

  /* One step of one process. */

  /** A step that does not finish an install leaves what is seen as it was. */
  lemma Advances(s: Settings, w: World, a: Workspace, p: Pid, act: Action, v: World)
    requires Inv(s, w, a) && Perform(s, w, p, act) == Some(v) && Benign(w, p, act) && act != Finish
    ensures Inv(s, v, a)
  {
    hide Inv, Perform, Benign;
    var b := StepRefines(s, w, a, p, act, v);
  }

  /** The step that finishes is the planned change. */
  lemma Finishes(s: Settings, w: World, a: Workspace, p: Pid, job: Job, v: World)
    requires Inv(s, w, a) && p in w.procs && w.procs[p] == Holding(job, Sealed)
    requires Perform(s, w, p, Finish) == Some(v) && v.disk.transaction.None?
    ensures Inv(s, v, OnDisk(v.disk)) && Commits(a, OnDisk(v.disk), job)
  {
    hide Perform, Commits, GoodJob;
    var b := StepRefines(s, w, a, p, Finish, v);
    SeenAtRest(s, v, b);
  }

  /** Without a transaction the disk is what is seen. */
  /** A process inside a transaction can always die. */
  lemma CanDie(s: Settings, w: World, a: Workspace, p: Pid)
    requires Inv(s, w, a) && p in w.procs && w.procs[p] != Stopped
    ensures Perform(s, w, p, Crash) == Some(Become(w, p, Stopped))
  {
    assert ProcessOk(s, a, w.disk, p, w.procs[p]);
  }

  /** Where a failure sends an installer. */
  function Given(job: Job, at: Point): Process {
    Holding(job, if at.Made? || at.Owned? then Dropping else BackingOut(|job.entries|))
  }

  lemma CanFail(s: Settings, w: World, a: Workspace, p: Pid, job: Job, at: Point)
    requires Inv(s, w, a) && p in w.procs && w.procs[p] == Holding(job, at)
    requires at.Made? || at.Owned? || at.Journaled? || at.Moving?
    ensures Perform(s, w, p, Fail) == Some(Become(w, p, Given(job, at)))
  {
    hide SoundJob, StandsAt, PlanInstall, UndoNext, PerformWithout, Tracks, Stage;
    assert ProcessOk(s, a, w.disk, p, w.procs[p]);
  }

  /* A rollback is rollback steps of its process. */

  /** The process is rolling back this journal and has this many entries left. */
  predicate RollsBackFrom(process: Process, p: Pid, j: Journal, left: nat) {
    match process
    case Holding(job, BackingOut(n)) => j == JournalOf(p, job) && n == left
    case Recovering(k, n) => j == k && n == left
    case _ => false
  }

  /** Where the process stands after a rollback step. */
  function AfterUndo(process: Process, r: Rollback): Process {
    match r
    case Undoing(_, left) => if process.Holding? then Holding(process.job, BackingOut(left))
                             else if process.Recovering? then Recovering(process.journal, left) else process
    case Undone(_) => if process.Holding? then Holding(process.job, Dropping)
                      else if process.Recovering? then Clearing(process.journal.pid) else process
    case Conflicted(_) => Stopped
  }

  /** The world after its rollback has come to r. */
  function AfterRollback(w: World, p: Pid, r: Rollback): World
    requires p in w.procs
  {
    Become(WithDisk(w, r.disk), p, AfterUndo(w.procs[p], r))
  }

  lemma UndoIsAMove(s: Settings, w: World, p: Pid, j: Journal, left: nat)
    requires s.roots != [] && p in w.procs && RollsBackFrom(w.procs[p], p, j, left)
    requires w.disk.transaction.Some? && left <= |j.entries|
    requires w.procs[p].Holding? ==> |j.entries| == |w.procs[p].job.entries|
    ensures Perform(s, w, p, UndoOne) == Some(AfterRollback(w, p, UndoNext(Undoing(w.disk, left), j)))
  {
    var r := UndoNext(Undoing(w.disk, left), j);
    if r.Conflicted? {
      assert r.disk == w.disk;
    }
  }

  /** The journal's own transaction is there, and nothing still to be undone is unguarded. */
  ghost predicate FreshAt(d: Disk, j: Journal, left: nat) {
    && Current(d, j.pid) && d.transaction.value.journal == Some(j) && left <= |j.entries|
    && Fresh(d, d.transaction.value, j, left)
  }

  lemma UndoIsMoveOf(s: Settings, w: World, a: Workspace, p: Pid, j: Journal, left: nat)
    requires Inv(s, w, a) && p in w.procs && RollsBackFrom(w.procs[p], p, j, left)
    requires w.disk.transaction.Some? && left <= |j.entries|
    ensures s.roots != []
    ensures Perform(s, w, p, UndoOne) == Some(AfterRollback(w, p, UndoNext(Undoing(w.disk, left), j)))
  {
    hide UndoNext, Perform, Benign, Tracks;
    assert ProcessOk(s, a, w.disk, p, w.procs[p]);
    UndoIsAMove(s, w, p, j, left);
  }

  lemma UndoIsBenign(w: World, p: Pid, j: Journal, left: nat)
    requires p in w.procs && RollsBackFrom(w.procs[p], p, j, left) && FreshAt(w.disk, j, left)
    ensures Benign(w, p, UndoOne)
  {
  }

  lemma UndoStaysFresh(s: Settings, w: World, a: Workspace, p: Pid, j: Journal, left: nat)
    requires Inv(s, w, a) && p in w.procs && RollsBackFrom(w.procs[p], p, j, left) && FreshAt(w.disk, j, left)
    ensures var next := UndoNext(Undoing(w.disk, left), j);
      next.Undoing? ==> FreshAt(next.disk, j, next.left)
  {
    hide UndoNext, SoundJob, EntryKnown, EntryHome, Elsewhere, LockKnown, Fresh;
    assert ProcessOk(s, a, w.disk, p, w.procs[p]);
    UndoKeepsFresh(s, a, w.disk, left);
    UndoKeepsTrack(s, a, w.disk, left);
  }

  lemma UndoAdvances(s: Settings, w: World, a: Workspace, p: Pid, j: Journal, left: nat)
    requires Inv(s, w, a) && p in w.procs && RollsBackFrom(w.procs[p], p, j, left) && FreshAt(w.disk, j, left)
    ensures Inv(s, AfterRollback(w, p, UndoNext(Undoing(w.disk, left), j)), a)
  {
    UndoIsMoveOf(s, w, a, p, j, left);
    UndoIsBenign(w, p, j, left);
    hide *;
    Advances(s, w, a, p, UndoOne, AfterRollback(w, p, UndoNext(Undoing(w.disk, left), j)));
  }

  lemma RollbackGoesOn(w: World, p: Pid, j: Journal, left: nat, r: Rollback, end: Rollback)
    requires p in w.procs && RollsBackFrom(w.procs[p], p, j, left) && r.Undoing?
    ensures RollsBackFrom(AfterRollback(w, p, r).procs[p], p, j, r.left)
    ensures AfterRollback(AfterRollback(w, p, r), p, end) == AfterRollback(w, p, end)
  {
    var u := AfterRollback(w, p, r);
    assert AfterUndo(u.procs[p], end) == AfterUndo(w.procs[p], end);
    assert AfterRollback(u, p, end).procs == AfterRollback(w, p, end).procs;
  }

  lemma NoUndoYet(w: World, p: Pid, j: Journal, left: nat)
    requires p in w.procs && RollsBackFrom(w.procs[p], p, j, left)
    ensures AfterRollback(w, p, Undoing(w.disk, left)) == w
  {
    assert AfterUndo(w.procs[p], Undoing(w.disk, left)) == w.procs[p];
  }

  lemma FirstUndo(
      s: Settings, w: World, a: Workspace, p: Pid, j: Journal, left: nat, steps: nat, end: Rollback)
    returns (r: Rollback, next: World)
    requires Inv(s, w, a) && p in w.procs && RollsBackFrom(w.procs[p], p, j, left) && FreshAt(w.disk, j, left)
    requires steps > 0 && end == UndoMany(Undoing(w.disk, left), j, steps)
    ensures Inv(s, next, a)
    ensures !r.Undoing? ==> next == AfterRollback(w, p, end)
    ensures r.Undoing? ==>
      && p in next.procs && RollsBackFrom(next.procs[p], p, j, r.left) && FreshAt(next.disk, j, r.left)
      && end == UndoMany(Undoing(next.disk, r.left), j, steps - 1)
      && AfterRollback(next, p, end) == AfterRollback(w, p, end)
  {
    hide Inv, UndoNext, Fresh;
    RollbackShrinks(Undoing(w.disk, left), j);
    r := UndoNext(Undoing(w.disk, left), j);
    next := AfterRollback(w, p, r);
    UndoAdvances(s, w, a, p, j, left);
    UndoStaysFresh(s, w, a, p, j, left);
    if r.Undoing? {
      RollbackGoesOn(w, p, j, left, r, end);
    }
  }

  lemma NoMoreUndo(w: World, p: Pid, j: Journal, left: nat, end: Rollback)
    requires p in w.procs && RollsBackFrom(w.procs[p], p, j, left) && FreshAt(w.disk, j, left)
    requires end == UndoMany(Undoing(w.disk, left), j, 0)
    ensures AfterRollback(w, p, end) == w
  {
    NoUndoYet(w, p, j, left);
  }

  /** However many rollback steps a process takes, what is seen stays. */
  lemma {:induction false} UndoManyAdvances(
      s: Settings, w: World, a: Workspace, p: Pid, j: Journal, left: nat, steps: nat, end: Rollback)
    returns (v: World)
    requires Inv(s, w, a) && p in w.procs && RollsBackFrom(w.procs[p], p, j, left) && FreshAt(w.disk, j, left)
    requires end == UndoMany(Undoing(w.disk, left), j, steps)
    ensures Inv(s, v, a)
    ensures v == AfterRollback(w, p, end)
    decreases steps, 1
  {
    if steps == 0 {
      NoMoreUndo(w, p, j, left, end);
      v := w;
    } else {
      v := UndoSomeAdvances(s, w, a, p, j, left, steps, end);
    }
  }

  lemma {:induction false} UndoSomeAdvances(
      s: Settings, w: World, a: Workspace, p: Pid, j: Journal, left: nat, steps: nat, end: Rollback)
    returns (v: World)
    requires Inv(s, w, a) && p in w.procs && RollsBackFrom(w.procs[p], p, j, left) && FreshAt(w.disk, j, left)
    requires steps > 0 && end == UndoMany(Undoing(w.disk, left), j, steps)
    ensures Inv(s, v, a)
    ensures v == AfterRollback(w, p, end)
    decreases steps, 0
  {
    hide Inv, UndoMany, UndoNext, AfterRollback, RollsBackFrom, Fresh;
    var r;
    r, v := FirstUndo(s, w, a, p, j, left, steps, end);
    if r.Undoing? {
      v := UndoManyAdvances(s, v, a, p, j, r.left, steps - 1, end);
    }
  }

  /* The journal names only directories the lockfile may name. */

  lemma EntriesAreAmongNext(job: Job, i: nat)
    requires job.next.modules == NextModules(Modules(job.previous), job.entries) && i < |job.entries|
    ensures job.entries[i].installed in job.next.modules
  {
    NextMembers(Modules(job.previous), job.entries);
    assert InstalledOf(job.entries)[i] == job.entries[i].installed;
  }

  lemma EntriesDiffer(job: Job, i: nat, j: nat)
    requires job.next.modules == NextModules(Modules(job.previous), job.entries) && i < j < |job.entries|
    requires forall x, y :: 0 <= x < y < |job.next.modules| ==>
      job.next.modules[x].id != job.next.modules[y].id
      && Lower(job.next.modules[x].directory) != Lower(job.next.modules[y].directory)
    ensures job.entries[i].installed.id != job.entries[j].installed.id
    ensures Lower(job.entries[i].installed.directory) != Lower(job.entries[j].installed.directory)
  {
    hide NextModules, Lower;
    var x, y := PlacesInNext(job, i, j);
    if x < y {
      assert job.next.modules[x].id != job.next.modules[y].id;
    } else {
      assert job.next.modules[y].id != job.next.modules[x].id;
    }
  }

  lemma NoMoreEntriesThanNext(job: Job)
    requires job.next.modules == NextModules(Modules(job.previous), job.entries)
    ensures |job.entries| <= |job.next.modules|
  {
    var all := Kept(Modules(job.previous), job.entries) + InstalledOf(job.entries);
    SortKeepsMultiset((m: Installed) => m.id, all);
    assert |multiset(all)| == |all| && |multiset(job.next.modules)| == |job.next.modules|;
  }

  /** Every journal a planned install writes passes the check a rollback starts with. */
  lemma JournalIsValid(s: Settings, job: Job)
    requires GoodJob(s, job)
    ensures ValidModules(s, InstalledOf(job.entries))
  {
    var modules := InstalledOf(job.entries);
    NoMoreEntriesThanNext(job);
    forall m | m in modules ensures m in job.next.modules {
      var i :| 0 <= i < |modules| && modules[i] == m;
      EntriesAreAmongNext(job, i);
    }
    forall i, j | 0 <= i < j < |modules|
      ensures modules[i].id != modules[j].id && Lower(modules[i].directory) != Lower(modules[j].directory)
    {
      EntriesDiffer(job, i, j);
    }
  }

  function JournalModules(j: Journal): (r: seq<Installed>)
    ensures |r| == |j.entries| && forall i :: 0 <= i < |r| ==> r[i] == j.entries[i].installed
  {
    Map((e: JournalEntry) => e.installed, j.entries)
  }

  lemma JournalPasses(s: Settings, a: Workspace, d: Disk, j: Journal)
    requires Tracks(s, a, d) && d.transaction.Some? && d.transaction.value.journal == Some(j)
    ensures ValidModules(s, JournalModules(j))
  {
    var t := d.transaction.value;
    assert j == JournalOf(t.maker, t.job);
    JournalIsValid(s, t.job);
    assert JournalModules(j) == InstalledOf(t.job.entries);
  }

  /** Where the rollback of a journal that is there starts. */
  ghost predicate Startable(s: Settings, a: Workspace, d: Disk, j: Journal) {
    && Tracks(s, a, d) && d.transaction.Some? && d.transaction.value.journal == Some(j)
    && Fresh(d, d.transaction.value, j, |j.entries|)
  }

  lemma GuardedIsStartable(s: Settings, a: Workspace, d: Disk, j: Journal)
    requires Tracks(s, a, d) && d.transaction.Some? && d.transaction.value.journal == Some(j)
    requires Fresh(d, d.transaction.value, j, |j.entries|)
    ensures Startable(s, a, d, j)
  {
  }

  lemma StartableIsHome(s: Settings, a: Workspace, d: Disk, j: Journal)
    requires Startable(s, a, d, j)
    ensures SoundJob(s, d.transaction.value.job) && Journaling(a, d, d.transaction.value)
    ensures j == JournalOf(d.transaction.value.maker, d.transaction.value.job)
    ensures |j.entries| == |d.transaction.value.job.entries|
    ensures HomeFrom(a, d, d.transaction.value, |j.entries|)
  {
    assert |j.entries| == |d.transaction.value.job.entries|;
  }

  /** A rollback conflicts only over a lockfile that is neither the old nor the new one. */
  lemma OnlyTheLockConflicts(s: Settings, a: Workspace, d: Disk, j: Journal)
    requires Startable(s, a, d, j)
    requires RunRollback(Undoing(d, |j.entries|), j).Conflicted?
    ensures d.lock != j.previous && d.lock != Some(j.next)
  {
    hide Startable, Tracks, Journaling, HomeFrom, SoundJob, Fresh;
    StartableIsFresh(s, a, d, j);
    StartableIsHome(s, a, d, j);
    RollbackRestores(s, a, d, |j.entries|);
  }

  lemma StartableIsFreshAt(s: Settings, a: Workspace, d: Disk, j: Journal)
    requires Startable(s, a, d, j)
    ensures FreshAt(d, j, |j.entries|)
  {
  }

  lemma {:induction false} UndoManyKeepsMaker(r: Rollback, j: Journal, steps: nat)
    requires r.Undoing? && r.disk.transaction.Some? && r.left <= |j.entries|
    ensures var e := UndoMany(r, j, steps).disk;
      e.transaction.Some? && e.transaction.value.maker == r.disk.transaction.value.maker
    decreases steps
  {
    hide UndoNext;
    if steps > 0 {
      UndoKeepsMaker(r.disk, r.left, j);
      RollbackShrinks(r, j);
      if UndoNext(r, j).Undoing? {
        UndoManyKeepsMaker(UndoNext(r, j), j, steps - 1);
      }
    }
  }

  lemma StartableIsFresh(s: Settings, a: Workspace, d: Disk, j: Journal)
    requires Startable(s, a, d, j)
    ensures d.transaction.Some? && d.transaction.value.journal == Some(j)
    ensures Fresh(d, d.transaction.value, j, |j.entries|)
  {
  }

  /** What a rollback cut off or ended leaves: the disk still tracks the workspace, and at the end
      it is the workspace. */
  ghost predicate Tracked(s: Settings, a: Workspace, r: Rollback) {
    Tracks(s, a, r.disk) && r.disk.transaction.Some? && (r.Undone? ==> Untouched(a, r.disk))
  }

  lemma {:induction false} UndoManyTracks(s: Settings, a: Workspace, d: Disk, left: nat, j: Journal, steps: nat)
    requires Tracks(s, a, d) && d.transaction.Some? && d.transaction.value.journal == Some(j) && left <= |j.entries|
    requires HomeFrom(a, d, d.transaction.value, left) && Fresh(d, d.transaction.value, j, left)
    ensures Tracked(s, a, UndoMany(Undoing(d, left), j, steps))
    decreases steps
  {
    hide Tracks, HomeFrom, Fresh, UndoNext;
    if steps > 0 {
      var r := FirstUndoTracks(s, a, d, left, j);
      RollbackShrinks(Undoing(d, left), j);
      if r.Undoing? {
        UndoManyTracks(s, a, r.disk, r.left, j, steps - 1);
      }
    }
  }

  lemma FirstUndoTracks(s: Settings, a: Workspace, d: Disk, left: nat, j: Journal) returns (r: Rollback)
    requires Tracks(s, a, d) && d.transaction.Some? && d.transaction.value.journal == Some(j) && left <= |j.entries|
    requires HomeFrom(a, d, d.transaction.value, left) && Fresh(d, d.transaction.value, j, left)
    ensures r == UndoNext(Undoing(d, left), j) && Tracked(s, a, r)
    ensures r.Undoing? ==>
      && r.disk.transaction.Some? && r.disk.transaction.value.journal == Some(j) && r.left <= |j.entries|
      && HomeFrom(a, r.disk, r.disk.transaction.value, r.left) && Fresh(r.disk, r.disk.transaction.value, j, r.left)
  {
    hide SoundJob, EntryKnown, EntryHome, Elsewhere, LockKnown, UndoNext;
    r := UndoNext(Undoing(d, left), j);
    UndoKeepsFresh(s, a, d, left);
    UndoKeepsTrack(s, a, d, left);
  }

  lemma StartableRollback(s: Settings, a: Workspace, d: Disk, j: Journal, steps: nat, conflict: bool)
    requires Startable(s, a, d, j)
    requires conflict ==> RunRollback(Undoing(d, |j.entries|), j).Conflicted?
    ensures Tracked(s, a, UndoMany(Undoing(d, |j.entries|), j, steps))
    ensures conflict ==> d.lock != j.previous && d.lock != Some(j.next)
  {
    StartableIsHome(s, a, d, j);
    UndoManyTracks(s, a, d, |j.entries|, j, steps);
    if conflict {
      OnlyTheLockConflicts(s, a, d, j);
    }
  }

  lemma OwnJournalIsStartable(s: Settings, w: World, a: Workspace, p: Pid, job: Job)
    requires Inv(s, w, a) && p in w.procs && w.procs[p] == Holding(job, BackingOut(|job.entries|))
    ensures |JournalOf(p, job).entries| == |job.entries| && Startable(s, a, w.disk, JournalOf(p, job))
    ensures w.disk.transaction.Some? && w.disk.transaction.value.journal == Some(JournalOf(p, job))
        && Tracks(s, a, w.disk)
  {
    hide Benign, SoundJob, EntryKnown, EntryHome, Elsewhere, LockKnown, Fresh;
    assert ProcessOk(s, a, w.disk, p, w.procs[p]);
  }

  lemma SeenIsTracked(s: Settings, w: World, a: Workspace)
    requires Inv(s, w, a)
    ensures Tracks(s, a, w.disk)
  {
  }

  lemma OpenedIsUntouched(s: Settings, a: Workspace, d: Disk)
    requires Tracks(s, a, d) && d.transaction.Some? && d.transaction.value.journal.None?
    ensures Untouched(a, d)
  {
  }

  /** An untouched disk tracks its workspace with and without the transaction directory. */
  lemma DroppingTracks(s: Settings, a: Workspace, d: Disk)
    ensures Untouched(a, d) ==> Tracks(s, a, d.(transaction := None)) && OnDisk(d) == a
  {
  }

  /* What single steps lead to. */

  lemma CheckIs(
      s: Settings, w: World, p: Pid, plan: Plan, lock: Option<LockText>, seen: map<string, Tree>,
      planned: Result<Job, InstallError>)
    requires s.roots != [] && p in w.procs && w.procs[p] == Planning(plan, lock)
    requires planned == PlanInstall(s, lock, seen, plan)
    ensures Perform(s, w, p, CheckDirectories(seen))
         == Some(Become(w, p, if planned.Ok? then Ready(planned.value) else Stopped))
  {
  }

  lemma StagingWorks(s: Settings, w: World, a: Workspace, p: Pid, job: Job, k: nat)
    requires Inv(s, w, a) && p in w.procs && w.procs[p] == Holding(job, Owned(k)) && k < |job.entries|
    ensures w.disk.transaction.Some? && Stage(job.entries[k].files).Some?
    ensures var t := w.disk.transaction.value;
      var u := t.(stages := t.stages[k := Stage(job.entries[k].files).value]);
      Perform(s, w, p, StageNext) == Some(Become(WithDisk(w, Transact(w.disk, u)), p, Holding(job, Owned(k + 1))))
  {
    hide Stage, Benign, GoodJob, Apart, HashesMatch, EntryIs, EntryKnown;
    assert ProcessOk(s, a, w.disk, p, w.procs[p]);
    StageStep(s, a, w.disk, w.disk.transaction.value, k);
  }

  /** While nobody interferes with an install that was planned on what is seen, the directories
      are where it expects them. */
  lemma NothingInTheWay(s: Settings, w: World, a: Workspace, p: Pid, job: Job, k: nat, aside: bool)
    requires Inv(s, w, a) && p in w.procs && w.procs[p] == Holding(job, Moving(k, aside)) && k < |job.entries|
    requires Installable(a, job)
    ensures w.disk.transaction.Some?
    ensures !aside && job.entries[k].previous.Some? ==>
      Unmodified(w.disk.dirs, job.entries[k].previous.value) && Directory(job, k) in w.disk.dirs
    ensures aside == job.entries[k].previous.Some? ==>
      Directory(job, k) !in w.disk.dirs && k in w.disk.transaction.value.stages
  {
    var d := w.disk;
    assert ProcessOk(s, a, d, p, w.procs[p]);
    var t := d.transaction.value;
    if aside {
      assert EntryIs(a, d, t, k, InstallTheorems.Aside);
    } else {
      WaitingIsFree(s, a, d, t, k);
    }
  }

  lemma DropIs(s: Settings, w: World, p: Pid)
    requires s.roots != [] && p in w.procs && w.disk.transaction.Some?
    requires w.procs[p].Clearing? || (w.procs[p].Holding? && w.procs[p].at == Dropping)
    ensures Perform(s, w, p, Drop) == Some(Become(WithDisk(w, w.disk.(transaction := None)), p, Stopped))
  {
  }

  lemma JournalIs(s: Settings, w: World, p: Pid, job: Job)
    requires s.roots != [] && p in w.procs && w.procs[p] == Holding(job, Owned(|job.entries|))
    requires w.disk.transaction.Some?
    ensures Perform(s, w, p, WriteJournal)
         == Some(Become(WithDisk(w, Transact(w.disk, w.disk.transaction.value.(journal := Some(JournalOf(p, job))))), p,
                        Holding(job, Journaled)))
  {
  }

  lemma BackUpIs(s: Settings, w: World, p: Pid, job: Job, k: nat)
    requires s.roots != [] && p in w.procs && w.procs[p] == Holding(job, Moving(k, false)) && w.disk.transaction.Some?
    requires k < |job.entries| && job.entries[k].previous.Some?
    ensures var directory := Directory(job, k);
      Perform(s, w, p, MoveAside)
      == if Unmodified(w.disk.dirs, job.entries[k].previous.value) && directory in w.disk.dirs then
           Some(Become(WithDisk(w, SetAside(w.disk, w.disk.transaction.value, directory, k)), p,
             Holding(job, Moving(k, true))))
         else Some(Become(w, p, Given(job, Moving(k, false))))
  {
  }

  lemma PlaceIs(s: Settings, w: World, p: Pid, job: Job, k: nat, aside: bool)
    requires s.roots != [] && p in w.procs && w.procs[p] == Holding(job, Moving(k, aside)) && w.disk.transaction.Some?
    requires k < |job.entries| && aside == job.entries[k].previous.Some?
    ensures var directory := Directory(job, k);
      Perform(s, w, p, MoveIn)
      == if directory !in w.disk.dirs && k in w.disk.transaction.value.stages then
           Some(Become(WithDisk(w, MovedIn(w.disk, w.disk.transaction.value, directory, k)), p,
                       Holding(job, Moving(k + 1, false))))
         else Some(Become(w, p, Given(job, Moving(k, aside))))
  {
  }
}
