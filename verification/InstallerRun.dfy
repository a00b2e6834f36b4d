/** The installer as it runs: one object over the workspace whose methods make the changes in
    the order of the code, and may fail or die before any of them. Every change is a step of
    the install protocol. */
module InstallerRun {
  import opened Basics
  import opened Artifact
  import opened InstallPlan
  import opened InstallProtocol
  import opened InstallTheorems
  import opened InstallRuns
  import opened InstallLimits
  import opened InstallProgress
  import opened InstallPlanning
  import opened InstallerSteps

  /** What becomes of the next change: it is made, it is refused, or the process dies first. */
  datatype Fate = Goes | Fails | Dies

  /** How a stretch of an install ended: done, given up with an error to be handled, or cut off. */
  datatype Step = Done | GaveUp | CutOff

  function Fated(fates: seq<Fate>, act: Action): Action {
    if fates == [] || fates[0].Goes? then act else if fates[0].Fails? then Fail else Crash
  }

  /** A failure outside the transaction ends the process. */
  function FatedOutside(fates: seq<Fate>, act: Action): Action {
    if fates == [] || fates[0].Goes? then act else Crash
  }

  datatype Outcome =
    | Succeeded(modules: seq<Installed>)
    | Refused(error: InstallError)
    | Busy
    | RolledBackAfterFailure
    | Interrupted

  datatype Recovery = NothingPending | Unreadable | OwnerAlive | Pending | Recovered | LockChanged | RecoveryCutOff

  class Installer {
    const s: Settings
    const me: Pid
    var dirs: map<string, Tree>
    var lock: Option<LockText>
    var transaction: Option<Transaction>
    /** The fates of the next changes; past the end every change is made. */
    var fates: seq<Fate>
    /** Where every process stands in the protocol, this one included. */
    ghost var procs: map<Pid, Process>

    constructor (s: Settings, me: Pid, w: World, fates: seq<Fate>)
      ensures this.s == s && this.me == me && World() == w && this.fates == fates
    {
      this.s, this.me, this.fates := s, me, fates;
      dirs, lock, transaction, procs := w.disk.dirs, w.disk.lock, w.disk.transaction, w.procs;
    }

    function Disk(): Disk
      reads this`dirs, this`lock, this`transaction
    {
      InstallProtocol.Disk(dirs, lock, transaction)
    }

    ghost function World(): World
      reads this`dirs, this`lock, this`transaction, this`procs
    {
      InstallProtocol.World(Disk(), procs)
    }

    /** The world keeps the invariant of the protocol while the workspace is seen as a, and this
        process stands as given. */
    ghost predicate Stands(a: Workspace, process: Process)
      reads this`dirs, this`lock, this`transaction, this`procs
    {
      s.roots != [] && me in procs && procs[me] == process && Inv(s, World(), a)
    }

    /** The last change was this step of the protocol. */
    ghost predicate Performed(before: World, act: Action)
      reads this`dirs, this`lock, this`transaction, this`procs
    {
      s.roots != [] && Perform(s, before, me, act) == Some(World())
    }

    method Tick() returns (fate: Fate)
      modifies this`fates
      ensures fate == (if old(fates) == [] then Goes else old(fates)[0])
      ensures fates == if old(fates) == [] then [] else old(fates)[1..]
    {
      fate := Goes;
      if fates != [] {
        fate, fates := fates[0], fates[1..];
      }
    }

    /** False when the change is not made. */
    method Survives() returns (alive: bool)
      modifies this`fates
      ensures alive == (old(fates) == [] || old(fates)[0].Goes?)
      ensures old(fates) == [] ==> fates == []
    {
      var fate := Tick();
      alive := fate == Goes;
    }

    /* Before the transaction. */

    ghost method Die(a: Workspace)
      requires me in procs && procs[me] != Stopped && Stands(a, procs[me])
      modifies this`procs
      ensures Stands(a, Stopped) && Performed(old(World()), Crash)
      ensures procs == old(procs)[me := Stopped]
    {
      var before := World();
      CanDie(s, before, a, me);
      procs := procs[me := Stopped];
      Advances(s, before, a, me, Crash, World());
    }

    /** Is a transaction in the way? */
    method LookAround(plan: Plan, ghost a: Workspace) returns (free: bool)
      requires Stands(a, Idle)
      modifies this`procs
      ensures free == transaction.None?
      ensures Stands(a, if free then Looked(plan) else Stopped)
      ensures Performed(old(World()), Look(plan))
    {
      hide Inv;
      ghost var before := World();
      free := transaction.None?;
      procs := procs[me := if free then Looked(plan) else Stopped];
      Advances(s, before, a, me, Look(plan), World());
    }

    /** Reads the lockfile. */
    method ReadLockfile(plan: Plan, ghost a: Workspace) returns (text: Option<LockText>)
      requires Stands(a, Looked(plan))
      modifies this`procs
      ensures text == lock && Stands(a, Planning(plan, text))
      ensures Performed(old(World()), ReadLock)
    {
      hide Inv;
      ghost var before := World();
      text := lock;
      procs := procs[me := Planning(plan, text)];
      Advances(s, before, a, me, ReadLock, World());
    }

    /** Plans against the lockfile read before and the directories as they are. */
    method PlanAgainst(plan: Plan, text: Option<LockText>, ghost a: Workspace)
      returns (planned: Result<Job, InstallError>)
      requires Stands(a, Planning(plan, text))
      modifies this`procs
      ensures planned == PlanInstall(s, text, dirs, plan)
      ensures planned.Ok? ==> planned.value.previous == text && GoodJob(s, planned.value)
      ensures Stands(a, if planned.Ok? then Ready(planned.value) else Stopped)
      ensures Performed(old(World()), CheckDirectories(dirs))
    {
      hide Inv, PlanInstall;
      ghost var before := World();
      planned := PlanModules(s, text, dirs, plan);
      procs := procs[me := if planned.Ok? then Ready(planned.value) else Stopped];
      CheckIs(s, before, me, plan, text, dirs, planned);
      Advances(s, before, a, me, CheckDirectories(dirs), World());
    }

    /** The exclusive mkdir. */
    method MakeTransaction(job: Job, ghost a: Workspace) returns (step: Step)
      requires Stands(a, Ready(job)) && transaction.None?
      modifies this`transaction, this`procs, this`fates
      ensures step != GaveUp
      ensures step == Done ==> Stands(a, Holding(job, Made)) && transaction.Some?
      ensures step == CutOff ==> Stands(a, Stopped) && transaction.None?
      ensures old(fates) == [] ==> step == Done && fates == []
      ensures Performed(old(World()), FatedOutside(old(fates), MakeDirectory))
    {
      hide Inv;
      ghost var before := World();
      var alive := Survives();
      if !alive {
        Die(a);
        return CutOff;
      }
      transaction := Some(Transaction(me, job, None, map[], map[], None));
      procs := procs[me := Holding(job, Made)];
      Advances(s, before, a, me, MakeDirectory, World());
      return Done;
    }

    /* Inside the transaction. */

    /** A change that is not made: the error is to be handled, or the process is dead. */
    method Lose(fate: Fate, job: Job, ghost at: Point, ghost a: Workspace) returns (step: Step)
      requires fate != Goes && Stands(a, Holding(job, at))
      requires at.Made? || at.Owned? || at.Journaled? || at.Moving?
      modifies this`procs
      ensures step == if fate == Fails then GaveUp else CutOff
      ensures Stands(a, if fate == Fails then Given(job, at) else Stopped)
      ensures Performed(old(World()), if fate == Fails then Fail else Crash)
    {
      hide Inv;
      ghost var before := World();
      if fate == Dies {
        Die(a);
        return CutOff;
      }
      CanFail(s, before, a, me, job, at);
      procs := procs[me := Given(job, at)];
      Advances(s, before, a, me, Fail, World());
      return GaveUp;
    }

    /** Where a step leaves an installer that stood at `at`. */
    ghost predicate Ends(a: Workspace, step: Step, job: Job, at: Point, next: Point)
      reads this`dirs, this`lock, this`transaction, this`procs
    {
      match step
      case Done => Stands(a, Holding(job, next))
      case GaveUp => Stands(a, Given(job, at))
      case CutOff => Stands(a, Stopped)
    }

    /** Writes owner.json. */
    method WriteOwner(job: Job, ghost a: Workspace) returns (step: Step)
      requires Stands(a, Holding(job, Made)) && transaction.Some?
      modifies this`transaction, this`procs, this`fates
      ensures transaction.Some? && Ends(a, step, job, Made, Owned(0))
      ensures old(fates) == [] ==> step == Done && fates == []
      ensures Performed(old(World()), Fated(old(fates), NameOwner))
    {
      hide Inv;
      ghost var before := World();
      var fate := Tick();
      if fate != Goes {
        step := Lose(fate, job, Made, a);
        return;
      }
      transaction := Some(transaction.value.(owner := Some(me)));
      procs := procs[me := Holding(job, Owned(0))];
      Advances(s, before, a, me, NameOwner, World());
      return Done;
    }

    /** Stages the files of entry k. */
    method StageEntry(job: Job, k: nat, ghost a: Workspace) returns (step: Step)
      requires Stands(a, Holding(job, Owned(k))) && transaction.Some? && k < |job.entries|
      modifies this`transaction, this`procs, this`fates
      ensures transaction.Some? && Ends(a, step, job, Owned(k), Owned(k + 1))
      ensures old(fates) == [] ==> step == Done && fates == []
      ensures Performed(old(World()), Fated(old(fates), StageNext))
    {
      hide Inv;
      ghost var before := World();
      var fate := Tick();
      if fate != Goes {
        step := Lose(fate, job, Owned(k), a);
        return;
      }
      StagingWorks(s, before, a, me, job, k);
      var tree := StageFiles(s.layout, job.entries[k].files);
      transaction := Some(transaction.value.(stages := transaction.value.stages[k := tree.value]));
      procs := procs[me := Holding(job, Owned(k + 1))];
      Advances(s, before, a, me, StageNext, World());
      return Done;
    }

    /** Stages every entry. */
    method StageEntries(job: Job, ghost a: Workspace) returns (step: Step)
      requires Stands(a, Holding(job, Owned(0))) && transaction.Some?
      modifies this`transaction, this`procs, this`fates
      ensures transaction.Some? && Ends(a, step, job, Owned(0), Owned(|job.entries|))
      ensures old(fates) == [] ==> step == Done && fates == []
    {
      hide Inv, Perform;
      for k := 0 to |job.entries|
        invariant transaction.Some? && Stands(a, Holding(job, Owned(k)))
        invariant old(fates) == [] ==> fates == []
      {
        step := StageEntry(job, k, a);
        if step != Done {
          return;
        }
      }
      return Done;
    }

    /** Renames the journal into place. */
    method PlaceJournal(job: Job, ghost a: Workspace) returns (step: Step)
      requires Stands(a, Holding(job, Owned(|job.entries|))) && transaction.Some? && lock == job.previous
      modifies this`transaction, this`procs, this`fates
      ensures transaction.Some? && Ends(a, step, job, Owned(|job.entries|), Journaled)
      ensures old(fates) == [] ==> step == Done && fates == []
      ensures Performed(old(World()), Fated(old(fates), WriteJournal))
    {
      hide Inv, Perform;
      ghost var before := World();
      var fate := Tick();
      if fate != Goes {
        step := Lose(fate, job, Owned(|job.entries|), a);
        return;
      }
      transaction := Some(transaction.value.(journal := Some(JournalOf(me, job))));
      procs := procs[me := Holding(job, Journaled)];
      JournalIs(s, before, me, job);
      Advances(s, before, a, me, WriteJournal, World());
      return Done;
    }

    /** Reads the lock again. */
    method ConfirmLock(job: Job, ghost a: Workspace) returns (step: Step)
      requires Stands(a, Holding(job, Journaled)) && transaction.Some?
      modifies this`procs, this`fates
      ensures Ends(a, step, job, Journaled, Moving(0, false))
      ensures step == Done ==> lock == job.previous
      ensures old(fates) == [] && lock == job.previous ==> step == Done && fates == []
      ensures Performed(old(World()), Fated(old(fates), Reread))
    {
      hide Inv;
      ghost var before := World();
      var fate := Tick();
      if fate != Goes {
        step := Lose(fate, job, Journaled, a);
        return;
      }
      if lock == job.previous {
        step, procs := Done, procs[me := Holding(job, Moving(0, false))];
      } else {
        step, procs := GaveUp, procs[me := Given(job, Journaled)];
      }
      Advances(s, before, a, me, Reread, World());
    }

    /** Renames the old directory of entry k into the transaction, if it is unmodified. */
    method BackUp(job: Job, k: nat, ghost a: Workspace) returns (step: Step)
      requires Stands(a, Holding(job, Moving(k, false))) && transaction.Some?
      requires k < |job.entries| && job.entries[k].previous.Some?
      modifies this`dirs, this`transaction, this`procs, this`fates
      ensures transaction.Some? && Ends(a, step, job, Moving(k, false), Moving(k, true))
      ensures old(fates) == [] && Installable(a, job) ==> step == Done && fates == []
      ensures Performed(old(World()), Fated(old(fates), MoveAside))
    {
      hide Inv, Perform, PlanInstall, UndoNext, DirectoryHashes, Installable, Unmodified, SoundJob, GoodJob;
      ghost var before := World();
      var fate := Tick();
      if fate != Goes {
        step := Lose(fate, job, Moving(k, false), a);
        return;
      }
      if Installable(a, job) {
        NothingInTheWay(s, before, a, me, job, k, false);
      }
      var directory := job.entries[k].installed.directory;
      if Unmodified(dirs, job.entries[k].previous.value) && directory in dirs {
        transaction := Some(transaction.value.(backups := transaction.value.backups[k := dirs[directory]]));
        dirs := dirs - {directory};
        step, procs := Done, procs[me := Holding(job, Moving(k, true))];
      } else {
        step, procs := GaveUp, procs[me := Given(job, Moving(k, false))];
      }
      BackUpIs(s, before, me, job, k);
      Advances(s, before, a, me, MoveAside, World());
    }

    /** Renames the staged directory of entry k to its destination, if that is free. */
    method PlaceStage(job: Job, k: nat, ghost a: Workspace) returns (step: Step)
      requires k < |job.entries| && Stands(a, Holding(job, Moving(k, job.entries[k].previous.Some?)))
      requires transaction.Some?
      modifies this`dirs, this`transaction, this`procs, this`fates
      ensures transaction.Some?
      ensures Ends(a, step, job, Moving(k, job.entries[k].previous.Some?), Moving(k + 1, false))
      ensures old(fates) == [] && Installable(a, job) ==> step == Done && fates == []
      ensures Performed(old(World()), Fated(old(fates), MoveIn))
    {
      hide Inv, Perform, PlanInstall, UndoNext, Installable, SoundJob, GoodJob;
      var fate := Tick();
      if fate == Goes {
        step := RenameStage(job, k, a);
      } else {
        step := Lose(fate, job, Moving(k, job.entries[k].previous.Some?), a);
      }
    }

    method RenameStage(job: Job, k: nat, ghost a: Workspace) returns (step: Step)
      requires k < |job.entries| && Stands(a, Holding(job, Moving(k, job.entries[k].previous.Some?)))
      requires transaction.Some?
      modifies this`dirs, this`transaction, this`procs
      ensures transaction.Some?
      ensures Ends(a, step, job, Moving(k, job.entries[k].previous.Some?), Moving(k + 1, false))
      ensures Installable(a, job) ==> step == Done
      ensures Performed(old(World()), MoveIn)
    {
      hide Inv, Perform, PlanInstall, UndoNext, DirectoryHashes, Installable, SoundJob, GoodJob;
      ghost var before := World();
      var aside := job.entries[k].previous.Some?;
      if Installable(a, job) {
        NothingInTheWay(s, before, a, me, job, k, aside);
      }
      var directory := job.entries[k].installed.directory;
      if directory !in dirs && k in transaction.value.stages {
        dirs := dirs[directory := transaction.value.stages[k]];
        transaction := Some(transaction.value.(stages := transaction.value.stages - {k}));
        step, procs := Done, procs[me := Holding(job, Moving(k + 1, false))];
      } else {
        step, procs := GaveUp, procs[me := Given(job, Moving(k, aside))];
      }
      PlaceIs(s, before, me, job, k, aside);
      Advances(s, before, a, me, MoveIn, World());
    }

    /** Moves the old directory of entry k aside, if it has one, and the new one in. */
    method MoveDirectory(job: Job, k: nat, ghost a: Workspace) returns (step: Step)
      requires k < |job.entries| && Stands(a, Holding(job, Moving(k, false))) && transaction.Some?
      modifies this`dirs, this`transaction, this`procs, this`fates
      ensures transaction.Some? && Ends(a, step, job, Moving(k, false), Moving(k + 1, false))
      ensures old(fates) == [] && Installable(a, job) ==> step == Done && fates == []
    {
      hide Inv, Perform, PlanInstall, UndoNext, SoundJob, GoodJob, Installable;
      if job.entries[k].previous.Some? {
        step := BackUp(job, k, a);
        if step != Done {
          return;
        }
      }
      step := PlaceStage(job, k, a);
    }

    /** Moves the directories of every entry. */
    method MoveDirectories(job: Job, ghost a: Workspace) returns (step: Step)
      requires Stands(a, Holding(job, Moving(0, false))) && transaction.Some?
      modifies this`dirs, this`transaction, this`procs, this`fates
      ensures transaction.Some? && Ends(a, step, job, Moving(0, false), Moving(|job.entries|, false))
      ensures old(fates) == [] && Installable(a, job) ==> step == Done && fates == []
    {
      hide Inv, Perform, PlanInstall, UndoNext, SoundJob, GoodJob, Installable;
      for k := 0 to |job.entries|
        invariant transaction.Some? && Stands(a, Holding(job, Moving(k, false)))
        invariant old(fates) == [] && Installable(a, job) ==> fates == []
      {
        step := MoveDirectory(job, k, a);
        if step != Done {
          return;
        }
      }
      return Done;
    }

    /** Renames the next lock over the old one. */
    method ReplaceLock(job: Job, ghost a: Workspace) returns (step: Step)
      requires Stands(a, Holding(job, Moving(|job.entries|, false))) && transaction.Some?
      modifies this`lock, this`procs, this`fates
      ensures Ends(a, step, job, Moving(|job.entries|, false), Sealed)
      ensures lock == if step == Done then Some(job.next) else old(lock)
      ensures old(fates) == [] ==> step == Done && fates == []
      ensures Performed(old(World()), Fated(old(fates), WriteLock))
    {
      hide Inv;
      ghost var before := World();
      var fate := Tick();
      if fate != Goes {
        step := Lose(fate, job, Moving(|job.entries|, false), a);
        return;
      }
      lock := Some(job.next);
      procs := procs[me := Holding(job, Sealed)];
      Advances(s, before, a, me, WriteLock, World());
      return Done;
    }

    /** Removes the transaction directory of a sealed install: from here on the install is seen. */
    method CleanUp(job: Job, ghost a: Workspace) returns (done: bool)
      requires Stands(a, Holding(job, Sealed)) && transaction.Some?
      modifies this`transaction, this`procs, this`fates
      ensures done ==> transaction.None? && Stands(OnDisk(Disk()), Stopped) && Commits(a, OnDisk(Disk()), job)
      ensures !done ==> Stands(a, Stopped)
      ensures old(fates) == [] ==> done && fates == []
      ensures Performed(old(World()), FatedOutside(old(fates), Finish))
    {
      hide Inv;
      ghost var before := World();
      var alive := Survives();
      if !alive {
        Die(a);
        return false;
      }
      transaction := None;
      procs := procs[me := Stopped];
      Finishes(s, before, a, me, job, World());
      return true;
    }

    /** Ends this process where it stands. `calm` says that no entry is unguarded; then this is a crash
        of the protocol. */
    ghost method Stop(a: Workspace, calm: bool)
      requires me in procs && procs[me] != Stopped && (calm ==> Stands(a, procs[me]))
      modifies this`procs
      ensures procs == old(procs)[me := Stopped]
      ensures calm ==> Stands(a, Stopped)
    {
      if calm {
        Die(a);
      } else {
        procs := procs[me := Stopped];
      }
    }

    /** Removes the transaction directory of an install that is given up. */
    method GiveUp(ghost a: Workspace, ghost calm: bool) returns (done: bool)
      requires me in procs && (procs[me].Clearing? || (procs[me].Holding? && procs[me].at == Dropping))
      requires calm && procs[me].Clearing? ==> Current(Disk(), procs[me].owner)
      requires transaction.Some? && (calm ==> Stands(a, procs[me]))
      modifies this`transaction, this`procs, this`fates
      ensures calm ==> Stands(a, Stopped)
      ensures transaction == if done then None else old(transaction)
      ensures calm && done ==> OnDisk(Disk()) == a
      ensures old(fates) == [] ==> done && fates == []
      ensures calm ==> Performed(old(World()), FatedOutside(old(fates), Drop))
    {
      hide Inv, Perform;
      ghost var before := World();
      var alive := Survives();
      if !alive {
        if calm {
          CanDie(s, before, a, me);
        }
        Stop(a, calm);
        return false;
      }
      transaction := None;
      procs := procs[me := Stopped];
      if calm {
        DropIs(s, before, me);
        Advances(s, before, a, me, Drop, World());
        SeenAtRest(s, World(), a);
      }
      return true;
    }

    /* Rolling back. */

    /** Undoes what a journal records, last entry first, and restores the lockfile. Where it is
        not cut off it ends as a rollback run to its end does. */
    method Rollback(j: Journal) returns (status: RollbackStatus, ghost steps: nat, ghost left: nat)
      requires transaction.Some?
      modifies this`dirs, this`lock, this`transaction, this`fates
      ensures old(Disk()).transaction.Some?
      ensures Reached(old(Disk()), j, steps, status, left, Disk()) && left <= |j.entries|
      ensures transaction.Some?
      ensures status == RolledBack ==> RunRollback(Undoing(old(Disk()), |j.entries|), j) == Undone(Disk())
      ensures old(fates) == [] ==> status != Died && fates == []
      ensures status == Conflict ==> RunRollback(Undoing(old(Disk()), |j.entries|), j) == Conflicted(Disk())
    {
      hide DirectoryHashes;
      ghost var start := Undoing(Disk(), |j.entries|);
      var n: nat := |j.entries|;
      steps, left := 0, n;
      while n > 0
        invariant n <= |j.entries| && transaction.Some?
        invariant old(fates) == [] ==> fates == []
        invariant UndoMany(start, j, steps) == Undoing(Disk(), n)
      {
        left := n;
        var alive := true;
        var clear := true;
        alive, clear, steps := ClearDestination(j, n, start, steps);
        if !alive {
          status := Died;
          return;
        }
        if !clear {
          status := Conflict;
          UndoManyMore(start, j, steps);
          UndoManyEnds(start, j, steps + 1);
          steps := steps + 1;
          return;
        }
        alive, clear, steps := PutBackup(j, n, start, steps);
        if !alive {
          status := Died;
          return;
        }
        if !clear {
          status := Conflict;
          UndoManyMore(start, j, steps);
          UndoManyEnds(start, j, steps + 1);
          steps := steps + 1;
          return;
        }
        n := n - 1;
      }
      left := 0;
      UndoManyMore(start, j, steps);
      if lock != j.previous && lock != Some(j.next) {
        status, steps := Conflict, steps + 1;
        UndoManyEnds(start, j, steps);
        return;
      }
      var alive := Survives();
      if !alive {
        status := Died;
        return;
      }
      lock := j.previous;
      status, steps := RolledBack, steps + 1;
      UndoManyEnds(start, j, steps);
    }

    /** Removes what this install placed for the entry before n, if it is there. */
    method ClearDestination(j: Journal, n: nat, ghost start: Rollback, ghost before: nat)
      returns (alive: bool, clear: bool, ghost steps: nat)
      requires start.Undoing? && start.disk.transaction.Some? && start.left <= |j.entries|
      requires 0 < n <= |j.entries| && transaction.Some?
      requires UndoMany(start, j, before) == Undoing(Disk(), n)
      modifies this`dirs, this`fates
      ensures UndoMany(start, j, steps) == Undoing(Disk(), n)
      ensures old(fates) == [] ==> alive && fates == []
      ensures alive && !clear ==> UndoNext(Undoing(Disk(), n), j) == Conflicted(Disk())
      ensures alive && clear ==>
        var v := ViewOf(Disk(), transaction.value, n - 1, j.entries[n - 1].installed.directory);
        v.stage == None && v.dest.Some? ==>
          && j.entries[n - 1].previous.Some? && v.backup == None
          && DirectoryHashes(v.dest.value) != j.entries[n - 1].installed.files
          && DirectoryHashes(v.dest.value) == j.entries[n - 1].previous.value.files
    {
      var i := n - 1;
      var e := j.entries[i];
      var destination := e.installed.directory;
      var moved := i !in transaction.value.stages;
      alive, clear, steps := true, true, before;
      if moved && destination in dirs {
        var hashes := DirectoryHashes(dirs[destination]);
        if hashes == e.installed.files {
          alive := Survives();
          if !alive {
            return;
          }
          UndoManyMore(start, j, steps);
          dirs := dirs - {destination};
          steps := steps + 1;
        } else if !(e.previous.Some? && hashes == e.previous.value.files && i !in transaction.value.backups) {
          clear := false;
        }
      }
    }

    /** Puts the backup of the entry before n back, if there is one. */
    method PutBackup(j: Journal, n: nat, ghost start: Rollback, ghost before: nat)
      returns (alive: bool, clear: bool, ghost steps: nat)
      requires start.Undoing? && start.disk.transaction.Some? && start.left <= |j.entries|
      requires 0 < n <= |j.entries| && transaction.Some?
      requires UndoMany(start, j, before) == Undoing(Disk(), n)
      requires var v := ViewOf(Disk(), transaction.value, n - 1, j.entries[n - 1].installed.directory);
        v.stage == None && v.dest.Some? ==>
          && j.entries[n - 1].previous.Some? && v.backup == None
          && DirectoryHashes(v.dest.value) != j.entries[n - 1].installed.files
          && DirectoryHashes(v.dest.value) == j.entries[n - 1].previous.value.files
      modifies this`dirs, this`transaction, this`fates
      ensures transaction.Some?
      ensures alive && clear ==> UndoMany(start, j, steps) == Undoing(Disk(), n - 1)
      ensures !(alive && clear) ==> UndoMany(start, j, steps) == Undoing(Disk(), n)
      ensures old(fates) == [] ==> alive && fates == []
      ensures alive && !clear ==> UndoNext(Undoing(Disk(), n), j) == Conflicted(Disk())
    {
      var i := n - 1;
      var destination := j.entries[i].installed.directory;
      alive, clear, steps := true, true, before;
      UndoManyMore(start, j, steps);
      if i in transaction.value.backups {
        if destination in dirs {
          clear := false;
          return;
        }
        alive := Survives();
        if !alive {
          return;
        }
        dirs := dirs[destination := transaction.value.backups[i]];
        transaction := Some(transaction.value.(backups := transaction.value.backups - {i}));
      }
      steps := steps + 1;
    }

    /** The rollback of a journal that is there. While no entry is unguarded every step is one of the
        protocol, and the disk goes on tracking the workspace and ends as it. */
    method RollBackAll(j: Journal, ghost a: Workspace, ghost calm: bool) returns (status: RollbackStatus)
      requires me in procs && RollsBackFrom(procs[me], me, j, |j.entries|)
      requires transaction.Some? && transaction.value.journal == Some(j) && Tracks(s, a, Disk())
      requires calm ==> Stands(a, procs[me]) && Startable(s, a, Disk(), j)
      modifies this`dirs, this`lock, this`transaction, this`procs, this`fates
      ensures transaction.Some?
      ensures me in procs && (status == RolledBack ==>
        procs[me] == if old(procs[me]).Holding? then Holding(old(procs[me]).job, Dropping) else Clearing(j.pid))
      ensures status != RolledBack ==> procs[me] == Stopped
      ensures calm ==> Stands(a, procs[me]) && Current(Disk(), j.pid) && (status == RolledBack ==> Untouched(a, Disk()))
      ensures calm && status == Conflict ==> old(lock) != j.previous && old(lock) != Some(j.next)
      ensures old(fates) == [] ==> status != Died && fates == []
    {
      hide Inv, Startable, Tracks;
      ghost var before := World();
      ghost var steps, left;
      JournalPasses(s, a, Disk(), j);
      var valid := ValidateLock(s, JournalModules(j));
      assert valid;
      status, steps, left := Rollback(j);
      ghost var end := UndoMany(Undoing(before.disk, |j.entries|), j, steps);
      procs := AfterRollback(before, me, end).procs;
      if calm {
        StartableRollback(s, a, before.disk, j, steps, status == Conflict);
        StartableIsFreshAt(s, a, before.disk, j);
        UndoManyKeepsMaker(Undoing(before.disk, |j.entries|), j, steps);
        ghost var v := UndoManyAdvances(s, before, a, me, j, |j.entries|, steps, end);
        assert World() == v;
      }
      if status == Died {
        Stop(a, calm);
      }
    }

    /* The commands. */

    /** From the transaction directory to the journal. */
    method Prepare(job: Job, ghost a: Workspace) returns (step: Step)
      requires Stands(a, Holding(job, Made)) && transaction.Some? && lock == job.previous
      modifies this`transaction, this`procs, this`fates
      ensures transaction.Some?
      ensures step == Done ==> Stands(a, Holding(job, Journaled))
      ensures step == GaveUp ==> Stands(a, Holding(job, Dropping))
      ensures step == CutOff ==> Stands(a, Stopped)
      ensures old(fates) == [] ==> step == Done && fates == []
    {
      hide Inv, Perform;
      step := WriteOwner(job, a);
      if step == Done {
        step := StageEntries(job, a);
        if step == Done {
          step := PlaceJournal(job, a);
        }
      }
    }

    /** From the journal to the replaced lock. */
    method Exchange(job: Job, ghost a: Workspace) returns (step: Step)
      requires Stands(a, Holding(job, Journaled)) && transaction.Some? && lock == job.previous
      modifies this`dirs, this`lock, this`transaction, this`procs, this`fates
      ensures transaction.Some? && (lock == job.previous || lock == Some(job.next))
      ensures step == Done ==> Stands(a, Holding(job, Sealed))
      ensures step == GaveUp ==> Stands(a, Holding(job, BackingOut(|job.entries|)))
      ensures step == CutOff ==> Stands(a, Stopped)
      ensures old(fates) == [] && Installable(a, job) ==> step == Done && fates == []
    {
      hide Inv, Perform;
      step := ConfirmLock(job, a);
      if step == Done {
        step := MoveDirectories(job, a);
        if step == Done {
          step := ReplaceLock(job, a);
        }
      }
    }

    /** From the transaction directory to the replaced lock. */
    method Proceed(job: Job, ghost a: Workspace) returns (step: Step, journalWritten: bool)
      requires Stands(a, Holding(job, Made)) && transaction.Some? && lock == job.previous
      modifies this`dirs, this`lock, this`transaction, this`procs, this`fates
      ensures transaction.Some? && (lock == job.previous || lock == Some(job.next))
      ensures step == Done ==> Stands(a, Holding(job, Sealed))
      ensures step == GaveUp ==>
        Stands(a, Holding(job, if journalWritten then BackingOut(|job.entries|) else Dropping))
      ensures step == CutOff ==> Stands(a, Stopped)
      ensures old(fates) == [] && Installable(a, job) ==> step == Done && fates == []
    {
      hide Inv, Perform;
      journalWritten := false;
      step := Prepare(job, a);
      if step == Done {
        journalWritten := true;
        step := Exchange(job, a);
      }
    }

    /** The error handler: rolls back if the journal was written, and removes the transaction. */
    method Handle(job: Job, journalWritten: bool, ghost a: Workspace) returns (done: bool)
      requires Stands(a, Holding(job, if journalWritten then BackingOut(|job.entries|) else Dropping))
      requires transaction.Some? && (lock == job.previous || lock == Some(job.next))
      modifies this`dirs, this`lock, this`transaction, this`procs, this`fates
      ensures Stands(a, Stopped)
      ensures done ==> transaction.None? && OnDisk(Disk()) == a
      ensures old(fates) == [] ==> done
    {
      hide Inv, Perform, Tracks, Startable, UndoNext;
      if journalWritten {
        OwnJournalIsStartable(s, World(), a, me, job);
        var status := RollBackAll(JournalOf(me, job), a, true);
        if status != RolledBack {
          return false;
        }
      }
      done := GiveUp(a, true);
    }

    /** Everything before the transaction: nothing when one is in the way, else what is planned. */
    method Decide(plan: Plan, ghost a: Workspace) returns (planned: Option<Result<Job, InstallError>>)
      requires Stands(a, Idle)
      modifies this`procs
      ensures planned == if transaction.Some? then None else Some(PlanInstall(s, lock, dirs, plan))
      ensures Stands(a, if planned.Some? && planned.value.Ok? then Ready(planned.value.value) else Stopped)
      ensures planned.Some? && planned.value.Ok? ==>
        a == OnDisk(Disk()) && lock == planned.value.value.previous && Installable(a, planned.value.value)
    {
      hide Inv, Perform, PlanInstall, GoodJob, Installable;
      var free := LookAround(plan, a);
      if !free {
        return None;
      }
      SeenAtRest(s, World(), a);
      hide Stands;
      var text := ReadLockfile(plan, a);
      var job := PlanAgainst(plan, text, a);
      if job.Ok? {
        PlannedIsInstallable(s, lock, dirs, plan);
      }
      return Some(job);
    }

    /** Applies a plan. */
    method Install(plan: Plan, ghost a: Workspace) returns (outcome: Outcome)
      requires Stands(a, Idle)
      modifies this`dirs, this`lock, this`transaction, this`procs, this`fates
      ensures (outcome == Busy <==> old(transaction).Some?) && (outcome == Busy ==> Disk() == old(Disk()))
      ensures old(transaction).None? ==>
        (outcome.Refused? <==> PlanInstall(s, old(lock), old(dirs), plan).Err?)
      ensures outcome.Refused? ==>
        PlanInstall(s, old(lock), old(dirs), plan) == Err(outcome.error) && Disk() == old(Disk())
      ensures outcome.Succeeded? ==>
        && transaction.None? && Stands(OnDisk(Disk()), Stopped)
        && PlanInstall(s, old(lock), old(dirs), plan).Ok?
        && Commits(a, OnDisk(Disk()), PlanInstall(s, old(lock), old(dirs), plan).value)
        && outcome.modules == InstalledOf(PlanInstall(s, old(lock), old(dirs), plan).value.entries)
      ensures !outcome.Succeeded? ==> Stands(a, Stopped)
      ensures outcome.RolledBackAfterFailure? ==> transaction.None? && OnDisk(Disk()) == a
      ensures old(fates) == [] ==> outcome.Busy? || outcome.Refused? || outcome.Succeeded?
    {
      hide Stands, Perform, PlanInstall, Commits, Installable;
      var planned := Decide(plan, a);
      if planned.None? {
        return Busy;
      }
      if planned.value.Err? {
        return Refused(planned.value.error);
      }
      outcome := Apply(planned.value.value, a);
    }

    /** Carries a planned install out, or undoes it. */
    method Apply(job: Job, ghost a: Workspace) returns (outcome: Outcome)
      requires Stands(a, Ready(job)) && transaction.None? && lock == job.previous && Installable(a, job)
      modifies this`dirs, this`lock, this`transaction, this`procs, this`fates
      ensures outcome.Succeeded? || outcome.RolledBackAfterFailure? || outcome.Interrupted?
      ensures outcome.Succeeded? ==>
        && transaction.None? && Stands(OnDisk(Disk()), Stopped)
        && Commits(a, OnDisk(Disk()), job) && outcome.modules == InstalledOf(job.entries)
      ensures !outcome.Succeeded? ==> Stands(a, Stopped)
      ensures outcome.RolledBackAfterFailure? ==> transaction.None? && OnDisk(Disk()) == a
      ensures old(fates) == [] ==> outcome.Succeeded?
    {
      hide Inv, Perform, Commits;
      var step := MakeTransaction(job, a);
      if step == CutOff {
        return Interrupted;
      }
      var journalWritten;
      step, journalWritten := Proceed(job, a);
      match step {
        case Done =>
          var cleaned := CleanUp(job, a);
          outcome := if cleaned then Succeeded(InstalledOf(job.entries)) else Interrupted;
        case GaveUp =>
          var undone := Handle(job, journalWritten, a);
          outcome := if undone then RolledBackAfterFailure else Interrupted;
        case CutOff =>
          outcome := Interrupted;
      }
    }

    /** No entry of the journal, if there is one, is unguarded. */
    ghost predicate Guarded()
      reads this`dirs, this`lock, this`transaction
    {
      transaction.Some? && transaction.value.journal.Some? ==>
        Fresh(Disk(), transaction.value, transaction.value.journal.value, |transaction.value.journal.value.entries|)
    }

    /** Starts a recovery of what a dead process left: takes the role, or steps back. */
    method StartRecovering(ownerAlive: bool, ghost a: Workspace) returns (step: Recovery)
      requires Stands(a, Idle)
      requires transaction.Some? && OwnerOf(transaction.value).Some? ==>
        ownerAlive == Alive(World(), OwnerOf(transaction.value).value)
      modifies this`procs
      ensures step == match transaction
        case None => NothingPending
        case Some(t) => if OwnerOf(t).None? then Unreadable else if ownerAlive then OwnerAlive else Pending
      ensures procs == old(procs)[me := Recoverer(step, transaction)]
      ensures Performed(old(World()), StartRecovery)
      ensures Stands(a, procs[me])
    {
      hide Inv;
      ghost var before := World();
      if transaction.None? {
        step := NothingPending;
      } else if OwnerOf(transaction.value).None? {
        step := Unreadable;
      } else {
        step := if ownerAlive then OwnerAlive else Pending;
      }
      procs := procs[me := Recoverer(step, transaction)];
      Advances(s, before, a, me, StartRecovery, World());
    }

    /** Undoes what a dead process left, when its owner is gone, whoever else recovers it. Unless an
        earlier rollback has put an entry back over the same files, its steps are those of the
        protocol: a recovery that ends leaves the workspace as it was before the interrupted
        install, and one that is cut off can be started again. */
    method Recover(ownerAlive: bool, ghost a: Workspace) returns (result: Recovery)
      requires Stands(a, Idle)
      requires transaction.Some? && OwnerOf(transaction.value).Some? ==>
        ownerAlive == Alive(World(), OwnerOf(transaction.value).value)
      modifies this`dirs, this`lock, this`transaction, this`procs, this`fates
      ensures old(Guarded()) ==> Stands(a, Stopped) && Tracks(s, a, Disk())
      ensures result == Recovered ==> transaction.None? && (old(Guarded()) ==> OnDisk(Disk()) == a)
      ensures (result == NothingPending <==> old(transaction).None?)
      ensures result in {NothingPending, Unreadable, OwnerAlive} ==> Disk() == old(Disk())
      ensures old(Guarded()) && result == LockChanged ==>
        && old(transaction).Some? && old(transaction).value.journal.Some?
        && old(lock) != old(transaction).value.journal.value.previous
        && old(lock) != Some(old(transaction).value.journal.value.next)
      ensures old(fates) == [] && old(transaction).Some? && OwnerOf(old(transaction).value).Some? && !ownerAlive ==>
        result == Recovered || result == LockChanged
      ensures result != Pending
    {
      hide Inv, Perform, Tracks, Fresh, Startable, UndoNext;
      SeenIsTracked(s, World(), a);
      ghost var calm := Guarded();
      result := StartRecovering(ownerAlive, a);
      if result != Pending {
        return;
      }
      if transaction.value.journal.Some? {
        if Guarded() {
          GuardedIsStartable(s, a, Disk(), transaction.value.journal.value);
        }
        var status := RollBackAll(transaction.value.journal.value, a, calm);
        if calm {
          SeenIsTracked(s, World(), a);
        }
        if status != RolledBack {
          return if status == Conflict then LockChanged else RecoveryCutOff;
        }
      } else {
        OpenedIsUntouched(s, a, Disk());
      }
      DroppingTracks(s, a, Disk());
      var done := GiveUp(a, calm);
      result := if done then Recovered else RecoveryCutOff;
    }
  }

  /** Where a recovery stands after its first look. */
  function Recoverer(step: Recovery, transaction: Option<Transaction>): Process {
    if step != Pending || transaction.None? then Stopped
    else if transaction.value.journal.None? then
      (match OwnerOf(transaction.value) case Some(owner) => Clearing(owner) case None => Stopped)
    else Recovering(transaction.value.journal.value, |transaction.value.journal.value.entries|)
  }
}
