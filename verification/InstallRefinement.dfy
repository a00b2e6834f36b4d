/** Every step of the install protocol, taken by any process in any reachable world, is
    invisible except the one that finishes an install. */
module InstallRefinement {
  import opened Basics
  import opened Artifact
  import opened InstallPlan
  import opened InstallProtocol
  import opened InstallTheorems

  /** What the theorems ask of a step. An installer that writes its journal does not find, in place
      of the lock it planned against, exactly the one it would write. A recovery whose transaction
      is there does not step on an unguarded entry; one whose transaction is gone takes no step
      that would change the disk, and does not remove the transaction of another installer. */
  ghost predicate Benign(w: World, p: Pid, act: Action) {
    p in w.procs ==>
      match (w.procs[p], act)
      case (Holding(job, Owned(_)), WriteJournal) => w.disk.lock == job.previous || w.disk.lock != Some(job.next)
      case (Recovering(j, left), UndoOne) => left <= |j.entries| ==> BenignUndo(w.disk, j, left)
      case (Clearing(owner), Drop) => w.disk.transaction.Some? ==> Current(w.disk, owner)
      case _ => true
  }

  ghost predicate BenignUndo(d: Disk, j: Journal, left: nat)
    requires left <= |j.entries|
  {
    if Current(d, j.pid) then GuardedAt(d, d.transaction.value, j, left) else RecoverNext(d, left, j).disk == d
  }

  lemma GoodJobIsSound(s: Settings, job: Job)
    requires GoodJob(s, job)
    ensures SoundJob(s, job)
  {
    GoodJobIsApart(s, job);
    forall e | e in job.entries ensures HashesMatch(e) {
      FittingHashesMatch(s, Modules(job.previous), e);
    }
  }

  /* Steps on the disk. */

  lemma StageStep(s: Settings, a: Workspace, d: Disk, t: Transaction, k: nat)
    requires d.transaction == Some(t) && SoundJob(s, t.job) && StandsAt(a, d, t, Owned(k)) && k < |t.job.entries|
    ensures Stage(t.job.entries[k].files).Some?
    ensures var u := t.(stages := t.stages[k := Stage(t.job.entries[k].files).value]);
      StandsAt(a, Transact(d, u), u, Owned(k + 1))
  {
    hide AcceptableFiles, DirectoryHashes, Recorded, Apart, ValidModules, NextModules, FindModule, KeepsMigrations;
    var e := t.job.entries[k];
    assert e in t.job.entries;
    FittingHashesMatch(s, Modules(t.job.previous), e);
  }

  lemma JournalStep(s: Settings, a: Workspace, d: Disk, t: Transaction)
    requires d.transaction == Some(t) && SoundJob(s, t.job) && StandsAt(a, d, t, Owned(|t.job.entries|))
    requires d.lock == t.job.previous || d.lock != Some(t.job.next)
    ensures var u := t.(journal := Some(JournalOf(t.maker, t.job)));
      StandsAt(a, Transact(d, u), u, Journaled)
  {
    var u := t.(journal := Some(JournalOf(t.maker, t.job)));
    var d' := Transact(d, u);
    forall i | 0 <= i < |t.job.entries| ensures EntryIs(a, d', u, i, Waiting) && EntryKnown(a, d', u, i) {
      assert Lookup(t.stages, i) == Some(TreeOf(t.job.entries[i]));
      assert EntryIs(a, d', u, i, Waiting);
    }
  }

  /** The disk after one entry's view changes to one of a given phase. */
  lemma EntryMoves(a: Workspace, d: Disk, e: Disk, i: nat, phase: Phase)
    requires d.transaction.Some? && Apart(d.transaction.value.job) && i < |d.transaction.value.job.entries|
    requires Journaling(a, d, d.transaction.value)
    requires OnlyChanges(d, e, i, Directory(d.transaction.value.job, i))
    requires EntryIs(a, e, e.transaction.value.(job := d.transaction.value.job), i, phase)
    ensures Journaling(a, e, e.transaction.value)
    ensures forall k, ph | 0 <= k < |d.transaction.value.job.entries| && k != i
              :: EntryIs(a, d, d.transaction.value, k, ph) ==> EntryIs(a, e, e.transaction.value, k, ph)
  {
    var t, u := d.transaction.value, e.transaction.value;
    OtherEntriesKeep(a, d, e, t.job, i);
    forall k | 0 <= k < |t.job.entries| ensures EntryKnown(a, e, u, k) {
      if k != i {
        assert EntryKnown(a, d, t, k);
      }
    }
  }

  /** The disk with entry k moved to its backup. */
  function SetAside(d: Disk, t: Transaction, directory: string, k: nat): Disk
    requires directory in d.dirs
  {
    Transact(WithoutDirectory(d, directory), t.(backups := t.backups[k := d.dirs[directory]]))
  }

  lemma EntrySetAside(s: Settings, a: Workspace, d: Disk, t: Transaction, k: nat)
    requires d.transaction == Some(t) && SoundJob(s, t.job)
    requires k < |t.job.entries| && t.job.entries[k].previous.Some? && EntryIs(a, d, t, k, Waiting)
    requires Unmodified(d.dirs, t.job.entries[k].previous.value) && Directory(t.job, k) in d.dirs
    ensures var e := SetAside(d, t, Directory(t.job, k), k);
      EntryIs(a, e, e.transaction.value, k, Aside) && OnlyChanges(d, e, k, Directory(t.job, k))
  {
    hide Apart, HashesMatch, AcceptableFiles, ValidModules, NextModules, KeepsMigrations, FindModule;
    assert t.job.entries[k] in t.job.entries;
    assert EntryFits(s, Modules(t.job.previous), t.job.entries[k]);
  }

  lemma AsideStep(s: Settings, a: Workspace, d: Disk, t: Transaction, k: nat)
    requires d.transaction == Some(t) && SoundJob(s, t.job) && StandsAt(a, d, t, Moving(k, false))
    requires k < |t.job.entries| && t.job.entries[k].previous.Some?
    requires Unmodified(d.dirs, t.job.entries[k].previous.value) && Directory(t.job, k) in d.dirs
    ensures var e := SetAside(d, t, Directory(t.job, k), k);
      StandsAt(a, e, e.transaction.value, Moving(k, true))
  {
    var e := SetAside(d, t, Directory(t.job, k), k);
    assert EntryIs(a, d, t, k, Waiting);
    EntrySetAside(s, a, d, t, k);
    EntryMoves(a, d, e, k, Aside);
    forall i | 0 <= i < k ensures EntryIs(a, e, e.transaction.value, i, Placed) {
      assert EntryIs(a, d, t, i, Placed);
    }
    forall i | k < i < |t.job.entries| ensures EntryIs(a, e, e.transaction.value, i, Waiting) {
      assert EntryIs(a, d, t, i, Waiting);
    }
  }

  function MovedIn(d: Disk, t: Transaction, directory: string, k: nat): Disk
    requires k in t.stages
  {
    Transact(d.(dirs := d.dirs[directory := t.stages[k]]), t.(stages := t.stages - {k}))
  }

  lemma MoveInStep(s: Settings, a: Workspace, d: Disk, t: Transaction, k: nat, aside: bool)
    requires d.transaction == Some(t) && SoundJob(s, t.job) && StandsAt(a, d, t, Moving(k, aside))
    requires k < |t.job.entries| && aside == t.job.entries[k].previous.Some?
    requires Directory(t.job, k) !in d.dirs && k in t.stages
    ensures var e := MovedIn(d, t, Directory(t.job, k), k);
      StandsAt(a, e, e.transaction.value, Moving(k + 1, false))
  {
    hide GoodJob, HashesMatch, EntryKnown, Apart;
    var e := MovedIn(d, t, Directory(t.job, k), k);
    assert EntryIs(a, d, t, k, if aside then Aside else Waiting);
    assert EntryIs(a, e, e.transaction.value, k, Placed);
    EntryMoves(a, d, e, k, Placed);
    forall i | 0 <= i < k ensures EntryIs(a, e, e.transaction.value, i, Placed) {
      assert EntryIs(a, d, t, i, Placed);
    }
    forall i | k < i < |t.job.entries| ensures EntryIs(a, e, e.transaction.value, i, Waiting) {
      assert EntryIs(a, d, t, i, Waiting);
    }
  }

  lemma SealStep(s: Settings, a: Workspace, d: Disk, t: Transaction)
    requires d.transaction == Some(t) && StandsAt(a, d, t, Moving(|t.job.entries|, false))
    ensures StandsAt(a, d.(lock := Some(t.job.next)), t, Sealed)
  {
    var e := d.(lock := Some(t.job.next));
    forall i | 0 <= i < |t.job.entries| ensures EntryIs(a, e, t, i, Placed) && EntryKnown(a, e, t, i) {
      assert EntryIs(a, d, t, i, Placed);
      assert EntryIs(a, e, t, i, Placed);
    }
  }

  /** A sealed install is the visible change it planned. */
  lemma SealedCommits(s: Settings, a: Workspace, d: Disk, t: Transaction)
    requires d.transaction == Some(t) && StandsAt(a, d, t, Sealed)
    ensures Commits(a, Workspace(d.lock, d.dirs), t.job)
  {
    forall e | e in t.job.entries ensures Lookup(d.dirs, e.installed.directory) == Some(TreeOf(e)) {
      var i :| 0 <= i < |t.job.entries| && t.job.entries[i] == e;
      assert EntryIs(a, d, t, i, Placed);
    }
  }

  /* Steps of the world. */

  /** The world w leads to, seen as b: the same, or changed by a finished install. */
  ghost predicate SeenAs(s: Settings, w: World, p: Pid, act: Action, a: Workspace, b: Workspace) {
    if act == Finish
    then p in w.procs && w.procs[p].Holding? && GoodJob(s, w.procs[p].job) && Commits(a, b, w.procs[p].job)
    else b == a
  }

  /** A step that changes only where its process stands. */
  lemma BystanderStep(s: Settings, w: World, a: Workspace, p: Pid, process: Process)
    requires Inv(s, w, a) && Alive(w, p) && ProcessOk(s, a, w.disk, p, process)
    requires Recovers(process) ==> !Alive(w, DeadOwner(process))
    ensures Inv(s, Become(w, p, process), a)
  {
    hide ProcessOk, Tracks;
    StepKeepsInv(s, w, a, p, w.disk, a, process);
  }

  /** While a process alone is inside a transaction it made, what is known of the others does not
      depend on the disk. */
  lemma OthersStand(s: Settings, w: World, a: Workspace, p: Pid, d: Disk, b: Workspace)
    requires Inv(s, w, a) && Alive(w, p)
    requires d.transaction.Some? ==> d.transaction.value.maker == p
    requires forall q :: q in w.procs && q != p ==> !w.procs[q].Holding?
    ensures forall q :: q in w.procs && q != p ==> ProcessOk(s, b, d, q, w.procs[q])
  {
    forall q | q in w.procs && q != p ensures ProcessOk(s, b, d, q, w.procs[q]) {
      assert ProcessOk(s, a, w.disk, q, w.procs[q]);
    }
  }

  lemma OneHolder(s: Settings, w: World, a: Workspace, p: Pid)
    requires Inv(s, w, a)
    requires w.disk.transaction.Some? ==> w.disk.transaction.value.maker == p
    ensures forall q :: q in w.procs && q != p ==> !w.procs[q].Holding?
  {
    forall q | q in w.procs && q != p ensures !w.procs[q].Holding? {
      assert ProcessOk(s, a, w.disk, q, w.procs[q]);
    }
  }

  lemma HolderStep(s: Settings, w: World, a: Workspace, p: Pid, d: Disk, b: Workspace, process: Process)
    requires Inv(s, w, a) && p in w.procs && w.procs[p].Holding?
    requires Tracks(s, b, d) && ProcessOk(s, b, d, p, process) && !Recovers(process)
    requires d.transaction.Some? ==> d.transaction.value.maker == p
    ensures Inv(s, Become(WithDisk(w, d), p, process), b)
  {
    hide Tracks, StandsAt;
    assert ProcessOk(s, a, w.disk, p, w.procs[p]);
    OneHolder(s, w, a, p);
    OthersStand(s, w, a, p, d, b);
    StepKeepsInv(s, w, a, p, d, b, process);
  }

  lemma StartRecoveryStep(s: Settings, w: World, a: Workspace, p: Pid, v: World)
    requires Inv(s, w, a) && p in w.procs && w.procs[p] == Idle
    requires Perform(s, w, p, StartRecovery) == Some(v)
    ensures Inv(s, v, a)
  {
    hide PerformHolding, PlanInstall, UndoNext, SoundJob, EntryKnown, Elsewhere, LockKnown, StandsAt;
    assert v == Become(w, p, v.procs[p]);
    BystanderStep(s, w, a, p, v.procs[p]);
  }

  lemma IdleStep(s: Settings, w: World, a: Workspace, p: Pid, act: Action, v: World)
    requires Inv(s, w, a) && p in w.procs && w.procs[p] == Idle
    requires Perform(s, w, p, act) == Some(v)
    ensures Inv(s, v, a) && act != Finish
  {
    hide Tracks, StandsAt, PlanInstall, PerformHolding;
    if act == StartRecovery {
      StartRecoveryStep(s, w, a, p, v);
    } else {
      BystanderStep(s, w, a, p, v.procs[p]);
      assert v == Become(w, p, v.procs[p]);
    }
  }

  lemma PlanningStep(s: Settings, w: World, a: Workspace, p: Pid, seen: map<string, Tree>, v: World)
    requires Inv(s, w, a) && p in w.procs && w.procs[p].Planning?
    requires Perform(s, w, p, CheckDirectories(seen)) == Some(v)
    ensures Inv(s, v, a)
  {
    hide UndoNext, PerformHolding, Tracks, Apart, HashesMatch;
    if v.procs[p].Ready? {
      PlannedJobIsGood(s, w.procs[p].lock, seen, w.procs[p].plan);
      GoodJobIsSound(s, v.procs[p].job);
    }
    BystanderStep(s, w, a, p, v.procs[p]);
    assert v == Become(w, p, v.procs[p]);
  }

  lemma NewTransactionIsOk(s: Settings, a: Workspace, d: Disk, p: Pid, job: Job)
    requires Tracks(s, a, d) && d.transaction.None? && SoundJob(s, job)
    ensures var e := Transact(d, Transaction(p, job, None, map[], map[], None));
      Tracks(s, a, e) && ProcessOk(s, a, e, p, Holding(job, Made))
  {
    hide SoundJob;
  }

  lemma MakeDirectoryStep(s: Settings, w: World, a: Workspace, p: Pid, v: World)
    requires Inv(s, w, a) && p in w.procs && w.procs[p].Ready?
    requires Perform(s, w, p, MakeDirectory) == Some(v)
    ensures Inv(s, v, a)
  {
    hide PlanInstall, PerformHolding, PerformWithout, UndoNext, SoundJob, Tracks, StandsAt, RecoverNext;
    var job := w.procs[p].job;
    assert ProcessOk(s, a, w.disk, p, w.procs[p]);
    if w.disk.transaction.None? {
      NewTransactionIsOk(s, a, w.disk, p, job);
      OneHolder(s, w, a, p);
      OthersStand(s, w, a, p, v.disk, a);
      StepKeepsInv(s, w, a, p, v.disk, a, Holding(job, Made));
      assert v == Become(WithDisk(w, v.disk), p, Holding(job, Made));
    } else {
      BystanderStep(s, w, a, p, Stopped);
      assert v == Become(w, p, Stopped);
    }
  }

  lemma OutsideStep(s: Settings, w: World, a: Workspace, p: Pid, act: Action, v: World)
    requires Inv(s, w, a) && p in w.procs && (w.procs[p].Looked? || w.procs[p].Planning? || w.procs[p].Ready?)
    requires Perform(s, w, p, act) == Some(v)
    ensures Inv(s, v, a) && act != Finish
  {
    hide UndoNext, PlanInstall, PerformHolding, Tracks, StandsAt, ProcessOk;
    if act.CheckDirectories? {
      PlanningStep(s, w, a, p, act.seen, v);
    } else if act == MakeDirectory {
      MakeDirectoryStep(s, w, a, p, v);
    } else {
      OutsiderIsOk(s, a, w.disk, p, v.procs[p]);
      BystanderStep(s, w, a, p, v.procs[p]);
      assert v == Become(w, p, v.procs[p]);
    }
  }

  lemma OutsiderIsOk(s: Settings, a: Workspace, d: Disk, p: Pid, process: Process)
    requires process.Planning? || process == Stopped
    ensures ProcessOk(s, a, d, p, process) && !Recovers(process)
  {
  }

  /** The step touches only the disk and this process, and both are as they should be. */
  ghost predicate Effect(s: Settings, w: World, p: Pid, b: Workspace, v: World) {
    && p in v.procs
    && Tracks(s, b, v.disk)
    && ProcessOk(s, b, v.disk, p, v.procs[p])
    && v == Become(WithDisk(w, v.disk), p, v.procs[p])
  }

  /* Recoveries, any number of them. */

  /** A recovery whose transaction is there: no installer is inside it. */
  lemma RecoveredByNobodyAlive(s: Settings, w: World, a: Workspace, p: Pid)
    requires Inv(s, w, a) && p in w.procs && Recovers(w.procs[p]) && Current(w.disk, DeadOwner(w.procs[p]))
    ensures forall q :: q in w.procs ==> !w.procs[q].Holding?
  {
    forall q | q in w.procs ensures !w.procs[q].Holding? {
      assert ProcessOk(s, a, w.disk, q, w.procs[q]);
    }
  }

  lemma UndoLeavesOther(s: Settings, a: Workspace, d: Disk, left: nat, q: Pid, other: Process)
    requires d.transaction.Some? && SoundJob(s, d.transaction.value.job)
    requires Journaling(a, d, d.transaction.value) && HomeFrom(a, d, d.transaction.value, left)
    requires GuardedAt(d, d.transaction.value, d.transaction.value.journal.value, left)
    requires ProcessOk(s, a, d, q, other) && !other.Holding?
    ensures ProcessOk(s, a, UndoNext(Undoing(d, left), d.transaction.value.journal.value).disk, q, other)
  {
    hide SoundJob, EntryKnown, EntryHome, Elsewhere, LockKnown, UndoNext;
    var t := d.transaction.value;
    var next := UndoNext(Undoing(d, left), t.journal.value);
    UndoKeepsTrack(s, a, d, left);
    match other {
      case Recovering(j, l) =>
        if Current(d, j.pid) {
          UndoLeavesHome(s, a, d, left, l);
        }
      case Clearing(owner) =>
        if Current(d, owner) {
          UndoLeavesHome(s, a, d, left, 0);
          AllHomeIsUntouched(s, a, next.disk, next.disk.transaction.value);
        }
      case _ =>
    }
  }

  lemma CurrentUndoStep(s: Settings, w: World, a: Workspace, p: Pid, v: World)
    requires Inv(s, w, a) && p in w.procs && w.procs[p].Recovering? && Current(w.disk, w.procs[p].journal.pid)
    requires Perform(s, w, p, UndoOne) == Some(v) && Benign(w, p, UndoOne)
    ensures Inv(s, v, a)
  {
    hide PerformHolding, PlanInstall, SoundJob, EntryKnown, Elsewhere, LockKnown, StandsAt, UndoNext, EntryHome;
    var d, left := w.disk, w.procs[p].left;
    assert ProcessOk(s, a, d, p, w.procs[p]);
    UndoKeepsTrack(s, a, d, left);
    RecoveredByNobodyAlive(s, w, a, p);
    forall q | q in w.procs && q != p ensures ProcessOk(s, a, v.disk, q, w.procs[q]) {
      UndoLeavesOther(s, a, d, left, q, w.procs[q]);
    }
    assert Effect(s, w, p, a, v);
    StepKeepsInv(s, w, a, p, v.disk, a, v.procs[p]);
  }

  lemma StaleUndoStep(s: Settings, w: World, a: Workspace, p: Pid, v: World)
    requires Inv(s, w, a) && p in w.procs && w.procs[p].Recovering? && !Current(w.disk, w.procs[p].journal.pid)
    requires Perform(s, w, p, UndoOne) == Some(v) && Benign(w, p, UndoOne)
    ensures Inv(s, v, a)
  {
    hide PerformHolding, PlanInstall, UndoNext, Tracks, Journaling, HomeFrom;
    assert v == Become(w, p, v.procs[p]);
    BystanderStep(s, w, a, p, v.procs[p]);
  }

  lemma DropStep(s: Settings, w: World, a: Workspace, p: Pid, v: World)
    requires Inv(s, w, a) && p in w.procs && w.procs[p].Clearing?
    requires Perform(s, w, p, Drop) == Some(v) && Benign(w, p, Drop)
    ensures Inv(s, v, a)
  {
    hide PerformHolding, PlanInstall, Journaling, HomeFrom, StandsAt;
    assert ProcessOk(s, a, w.disk, p, w.procs[p]);
    if w.disk.transaction.None? {
      assert v == Become(w, p, Stopped);
      BystanderStep(s, w, a, p, Stopped);
    } else {
      RecoveredByNobodyAlive(s, w, a, p);
      OthersStand(s, w, a, p, v.disk, a);
      StepKeepsInv(s, w, a, p, v.disk, a, Stopped);
    }
  }

  lemma RecoveryStep(s: Settings, w: World, a: Workspace, p: Pid, act: Action, v: World)
    requires Inv(s, w, a) && p in w.procs && Recovers(w.procs[p])
    requires Perform(s, w, p, act) == Some(v) && Benign(w, p, act)
    ensures Inv(s, v, a) && act != Finish
  {
    hide UndoNext, Tracks, StandsAt, PerformHolding, PlanInstall, Journaling, RecoverNext, ProcessOk;
    if act == Crash {
      OutsiderIsOk(s, a, w.disk, p, Stopped);
      BystanderStep(s, w, a, p, Stopped);
      assert v == Become(w, p, Stopped);
    } else if act == Drop {
      DropStep(s, w, a, p, v);
    } else if Current(w.disk, w.procs[p].journal.pid) {
      CurrentUndoStep(s, w, a, p, v);
    } else {
      StaleUndoStep(s, w, a, p, v);
    }
  }

  /* An installer inside its transaction, action by action. */

  /** Where the installer stands, as the invariant says. */
  ghost predicate Stands(s: Settings, w: World, a: Workspace, p: Pid, job: Job, at: Point) {
    && p in w.procs && w.procs[p] == Holding(job, at)
    && w.disk.transaction.Some? && w.disk.transaction.value.maker == p && w.disk.transaction.value.job == job
    && Tracks(s, a, w.disk)
    && StandsAt(a, w.disk, w.disk.transaction.value, at)
  }

  lemma PreparingEffect(s: Settings, w: World, a: Workspace, p: Pid, job: Job, at: Point, act: Action, v: World)
    requires Stands(s, w, a, p, job, at) && (at.Made? || at.Owned?)
    requires PerformHolding(s, w, p, job, at, act) == Some(v) && Benign(w, p, act) && act != Crash
    ensures Effect(s, w, p, a, v)
  {
    hide UndoNext, PlanInstall, EntryKnown, GoodJob, Apart, HashesMatch, EntryIs;
    var d, t := w.disk, w.disk.transaction.value;
    if act == StageNext {
      StageStep(s, a, d, t, at.staged);
    } else if act == WriteJournal {
      JournalStep(s, a, d, t);
    }
  }

  /** An installer that has undone nothing has nothing unguarded. */
  lemma NothingUndoneIsFresh(a: Workspace, d: Disk, t: Transaction)
    requires Journaling(a, d, t)
    requires forall i :: 0 <= i < |t.job.entries| ==>
      EntryIs(a, d, t, i, Waiting) || EntryIs(a, d, t, i, Aside) || EntryIs(a, d, t, i, Placed)
    ensures |t.journal.value.entries| == |t.job.entries|
    ensures Fresh(d, t, t.journal.value, |t.job.entries|)
  {
    hide EntryKnown, Elsewhere, LockKnown;
    forall i | 0 <= i < |t.job.entries|
      ensures !Unguarded(ViewOf(d, t, i, t.journal.value.entries[i].installed.directory),
                         t.journal.value.entries[i].installed, t.journal.value.entries[i].previous)
    {
      JournalMatches(t.maker, t.job, i);
      assert EntryIs(a, d, t, i, Waiting) || EntryIs(a, d, t, i, Aside) || EntryIs(a, d, t, i, Placed);
    }
  }

  lemma RereadEffect(s: Settings, w: World, a: Workspace, p: Pid, job: Job, act: Action, v: World)
    requires Stands(s, w, a, p, job, Journaled)
    requires PerformHolding(s, w, p, job, Journaled, act) == Some(v) && act != Crash
    ensures Effect(s, w, p, a, v)
  {
    hide UndoNext, SoundJob, EntryKnown, Elsewhere, LockKnown, Fresh, InPhase;
    NothingUndoneIsFresh(a, w.disk, w.disk.transaction.value);
    assert HomeFrom(a, w.disk, w.disk.transaction.value, |job.entries|);
  }

  lemma GivingUpEffect(s: Settings, w: World, a: Workspace, p: Pid, job: Job, k: nat, aside: bool)
    requires Stands(s, w, a, p, job, Moving(k, aside))
    ensures Effect(s, w, p, a, Become(w, p, Holding(job, BackingOut(|job.entries|))))
  {
    hide UndoNext, SoundJob, EntryKnown, Elsewhere, LockKnown, Fresh, InPhase;
    NothingUndoneIsFresh(a, w.disk, w.disk.transaction.value);
    assert HomeFrom(a, w.disk, w.disk.transaction.value, |job.entries|);
  }

  lemma MoveAsideEffect(s: Settings, w: World, a: Workspace, p: Pid, job: Job, k: nat, v: World)
    requires Stands(s, w, a, p, job, Moving(k, false))
    requires PerformHolding(s, w, p, job, Moving(k, false), MoveAside) == Some(v)
    ensures Effect(s, w, p, a, v)
  {
    hide UndoNext, GoodJob, Apart, HashesMatch, EntryKnown, EntryIs, Unmodified;
    var d, t, directory := w.disk, w.disk.transaction.value, Directory(job, k);
    if !Unmodified(d.dirs, job.entries[k].previous.value) || directory !in d.dirs {
      GivingUpEffect(s, w, a, p, job, k, false);
    } else {
      AsideStep(s, a, d, t, k);
      assert v == Become(WithDisk(w, SetAside(d, t, directory, k)), p, Holding(job, Moving(k, true)));
    }
  }

  lemma MoveInEffect(s: Settings, w: World, a: Workspace, p: Pid, job: Job, k: nat, aside: bool, v: World)
    requires Stands(s, w, a, p, job, Moving(k, aside))
    requires PerformHolding(s, w, p, job, Moving(k, aside), MoveIn) == Some(v)
    ensures Effect(s, w, p, a, v)
  {
    hide UndoNext, GoodJob, Apart, HashesMatch, EntryKnown, EntryIs;
    var d, t, directory := w.disk, w.disk.transaction.value, Directory(job, k);
    if directory in d.dirs || k !in t.stages {
      GivingUpEffect(s, w, a, p, job, k, aside);
    } else {
      MoveInStep(s, a, d, t, k, aside);
      assert v == Become(WithDisk(w, MovedIn(d, t, directory, k)), p, Holding(job, Moving(k + 1, false)));
    }
  }

  lemma MovingEffect(
      s: Settings, w: World, a: Workspace, p: Pid, job: Job, k: nat, aside: bool, act: Action, v: World)
    requires Stands(s, w, a, p, job, Moving(k, aside))
    requires PerformHolding(s, w, p, job, Moving(k, aside), act) == Some(v) && act != Crash
    ensures Effect(s, w, p, a, v)
  {
    match act {
      case MoveAside => MoveAsideEffect(s, w, a, p, job, k, v);
      case MoveIn => MoveInEffect(s, w, a, p, job, k, aside, v);
      case WriteLock => SealStep(s, a, w.disk, w.disk.transaction.value);
      case Fail => GivingUpEffect(s, w, a, p, job, k, aside);
      case _ =>
    }
  }

  lemma BackingOutEffect(s: Settings, w: World, a: Workspace, p: Pid, job: Job, left: nat, act: Action, v: World)
    requires Stands(s, w, a, p, job, BackingOut(left))
    requires PerformHolding(s, w, p, job, BackingOut(left), act) == Some(v) && act != Crash
    ensures Effect(s, w, p, a, v)
  {
    hide EntryIs, EntryKnown, EntryHome, SoundJob, UndoNext;
    var d, t := w.disk, w.disk.transaction.value;
    UndoKeepsFresh(s, a, d, left);
    UndoKeepsTrack(s, a, d, left);
    assert t.journal == Some(JournalOf(p, job));
    assert act == UndoOne;
    match UndoNext(Undoing(d, left), JournalOf(p, job)) {
      case Undoing(e, rest) => assert v == Become(WithDisk(w, e), p, Holding(job, BackingOut(rest)));
      case Undone(e) => assert v == Become(WithDisk(w, e), p, Holding(job, Dropping));
      case Conflicted(e) => assert v == Become(WithDisk(w, d), p, Stopped);
    }
  }

  lemma FinishEffect(s: Settings, w: World, a: Workspace, p: Pid, job: Job, act: Action, v: World)
    requires Stands(s, w, a, p, job, Sealed)
    requires PerformHolding(s, w, p, job, Sealed, act) == Some(v) && act != Crash
    ensures act == Finish && Effect(s, w, p, Workspace(w.disk.lock, w.disk.dirs), v)
    ensures GoodJob(s, job) && Commits(a, Workspace(w.disk.lock, w.disk.dirs), job)
  {
    hide UndoNext, EntryIs, EntryKnown, GoodJob, Apart, HashesMatch, Commits;
    SealedCommits(s, a, w.disk, w.disk.transaction.value);
  }

  lemma DroppingEffect(s: Settings, w: World, a: Workspace, p: Pid, job: Job, act: Action, v: World)
    requires Stands(s, w, a, p, job, Dropping)
    requires PerformHolding(s, w, p, job, Dropping, act) == Some(v) && act != Crash
    ensures act == Drop && Effect(s, w, p, a, v)
  {
    hide UndoNext, GoodJob, Apart, HashesMatch, EntryKnown;
  }

  lemma CrashStops(s: Settings, w: World, p: Pid, job: Job, at: Point)
    requires s.roots != [] && p in w.procs && w.procs[p] == Holding(job, at) && w.disk.transaction.Some?
    ensures Perform(s, w, p, Crash) == Some(Become(w, p, Stopped))
  {
  }

  lemma HoldingStep(s: Settings, w: World, a: Workspace, p: Pid, act: Action, v: World) returns (b: Workspace)
    requires Inv(s, w, a) && p in w.procs && w.procs[p].Holding?
    requires Perform(s, w, p, act) == Some(v) && Benign(w, p, act)
    ensures Inv(s, v, b) && SeenAs(s, w, p, act, a, b)
  {
    hide UndoNext, Tracks, StandsAt, PerformHolding, Commits, GoodJob;
    b := a;
    var job, at := w.procs[p].job, w.procs[p].at;
    assert ProcessOk(s, a, w.disk, p, w.procs[p]);
    assert Stands(s, w, a, p, job, at);
    assert PerformHolding(s, w, p, job, at, act) == Some(v);
    if act == Crash {
      BystanderStep(s, w, a, p, Stopped);
      CrashStops(s, w, p, job, at);
    } else {
      match at {
        case Made => PreparingEffect(s, w, a, p, job, at, act, v);
        case Owned(_) => PreparingEffect(s, w, a, p, job, at, act, v);
        case Journaled => RereadEffect(s, w, a, p, job, act, v);
        case Moving(k, aside) => MovingEffect(s, w, a, p, job, k, aside, act, v);
        case Sealed =>
          FinishEffect(s, w, a, p, job, act, v);
          b := Workspace(w.disk.lock, w.disk.dirs);
        case BackingOut(left) => BackingOutEffect(s, w, a, p, job, left, act, v);
        case Dropping => DroppingEffect(s, w, a, p, job, act, v);
      }
      HolderKeepsMaker(s, w, p, job, at, act, v);
      HolderStep(s, w, a, p, v.disk, b, v.procs[p]);
      if act == Finish {
        NotFinish(s, w, p, job, at, act);
      }
    }
  }

  lemma UndoKeepsMaker(d: Disk, left: nat, j: Journal)
    requires d.transaction.Some? && left <= |j.entries|
    ensures var e := UndoNext(Undoing(d, left), j).disk;
      e.transaction.Some? && e.transaction.value.maker == d.transaction.value.maker
      && e.transaction.value.job == d.transaction.value.job
  {
  }

  lemma HolderKeepsMaker(s: Settings, w: World, p: Pid, job: Job, at: Point, act: Action, v: World)
    requires w.disk.transaction.Some? && w.disk.transaction.value.maker == p
    requires PerformHolding(s, w, p, job, at, act) == Some(v)
    ensures p in v.procs && (v.procs[p] == Stopped || (v.procs[p].Holding? && v.procs[p].job == job))
    ensures v.disk.transaction.Some? ==>
      v.disk.transaction.value.maker == p && v.disk.transaction.value.job == w.disk.transaction.value.job
  {
    hide UndoNext, Stage, Unmodified, DirectoryHashes;
    match at {
      case BackingOut(left) =>
        if left <= |job.entries| {
          UndoKeepsMaker(w.disk, left, JournalOf(p, job));
        }
      case _ =>
    }
  }

  lemma NotFinish(s: Settings, w: World, p: Pid, job: Job, at: Point, act: Action)
    requires w.disk.transaction.Some? && PerformHolding(s, w, p, job, at, act).Some? && act == Finish
    ensures at == Sealed
  {
  }

  /** Any step of any process keeps the invariant and is seen as nothing, unless it finishes
      an install: then it is seen as that install happening at once. */
  lemma StepRefines(s: Settings, w: World, a: Workspace, p: Pid, act: Action, v: World) returns (b: Workspace)
    requires Inv(s, w, a) && Perform(s, w, p, act) == Some(v) && Benign(w, p, act)
    ensures Inv(s, v, b) && SeenAs(s, w, p, act, a, b)
  {
    b := a;
    match w.procs[p] {
      case Idle => IdleStep(s, w, a, p, act, v);
      case Looked(_) => OutsideStep(s, w, a, p, act, v);
      case Planning(_, _) => OutsideStep(s, w, a, p, act, v);
      case Ready(_) => OutsideStep(s, w, a, p, act, v);
      case Holding(_, _) => b := HoldingStep(s, w, a, p, act, v);
      case Recovering(_, _) => RecoveryStep(s, w, a, p, act, v);
      case Clearing(_) => RecoveryStep(s, w, a, p, act, v);
      case Stopped =>
    }
  }
}
