/** Any number of recoveries of one install, interleaved and dying anywhere: none of their steps is
    harmful, unless the install updates a module to the very files it has. */
module InstallRecoveries {
  import opened Basics
  import opened InstallPlan
  import opened InstallProtocol
  import opened InstallTheorems
  import opened InstallRefinement
  import opened InstallRuns
  import opened InstallProgress
  import opened InstallStale

  /** One process applies one plan, which it checks against the directories as they are; the others
      only recover. */
  ghost predicate OneInstall(worlds: seq<World>, moves: seq<Move>, p: Pid, plan: Plan)
    requires |worlds| == |moves| + 1
  {
    forall i :: 0 <= i < |moves| ==> Allowed(worlds[i], moves[i].p, moves[i].act, p, plan)
  }

  predicate Allowed(w: World, q: Pid, act: Action, p: Pid, plan: Plan) {
    && (act.Look? ==> q == p && act.plan == plan)
    && (act.CheckDirectories? ==> act.seen == w.disk.dirs)
  }

  /** What was planned replaces no module by the very files it has. */
  ghost predicate Changing(job: Job) {
    forall e :: e in job.entries ==> !SameHashes(e.installed, e.previous)
  }

  /** Where the installer can stand. */
  predicate Installs(process: Process, a: Workspace, plan: Plan, planned: Result<Job, InstallError>) {
    match process
    case Idle => true
    case Looked(l) => l == plan
    case Planning(l, lock) => l == plan && lock == a.lock
    case Ready(job) => planned == Ok(job)
    case Holding(job, _) => planned == Ok(job)
    case Stopped => true
    case _ => false
  }

  /** Where another process can stand. */
  predicate OnlyRecovers(process: Process, p: Pid, planned: Result<Job, InstallError>) {
    match process
    case Idle => true
    case Recovering(j, left) => planned.Ok? && j == JournalOf(p, planned.value) && left <= |j.entries|
    case Clearing(owner) => owner == p
    case Stopped => true
    case _ => false
  }

  /** The install is under way or interrupted, and what is seen is what it was planned on. */
  ghost predicate Under(s: Settings, w: World, a: Workspace, p: Pid, plan: Plan, planned: Result<Job, InstallError>) {
    && Inv(s, w, a) && p in w.procs
    && Installs(w.procs[p], a, plan, planned)
    && (forall q :: q in w.procs && q != p ==> OnlyRecovers(w.procs[q], p, planned))
    && (w.disk.transaction.Some? ==>
          && planned.Ok? && w.disk.transaction.value.maker == p && w.disk.transaction.value.job == planned.value
          && (w.procs[p].Holding? || w.procs[p] == Stopped))
  }

  /** The install has finished: nothing runs any more. */
  predicate Over(w: World, p: Pid) {
    && w.disk.transaction.None? && p in w.procs && w.procs[p] == Stopped
    && forall q :: q in w.procs ==> w.procs[q] == Idle || w.procs[q] == Stopped
  }

  /** What is needed of the plan. */
  ghost predicate Fit(s: Settings, a: Workspace, plan: Plan, planned: Result<Job, InstallError>)
    requires s.roots != []
  {
    && planned == PlanInstall(s, a.lock, a.dirs, plan)
    && (planned.Ok? ==>
          SoundJob(s, planned.value) && Installable(a, planned.value) && a.lock == planned.value.previous
          && Changing(planned.value))
  }

  lemma ChangingIsGuarded(d: Disk, t: Transaction, p: Pid, job: Job, left: nat)
    requires Changing(job) && left <= |JournalOf(p, job).entries|
    ensures GuardedAt(d, t, JournalOf(p, job), left)
  {
    if left > 0 {
      JournalMatches(p, job, left - 1);
      assert job.entries[left - 1] in job.entries;
    }
  }

  lemma UndoIsBenign(s: Settings, w: World, a: Workspace, p: Pid, plan: Plan, planned: Result<Job, InstallError>,
                     q: Pid)
    requires s.roots != [] && Fit(s, a, plan, planned) && Under(s, w, a, p, plan, planned)
    requires q in w.procs && q != p && w.procs[q].Recovering?
    ensures Benign(w, q, UndoOne)
  {
    hide PlanInstall, SoundJob, Installable, GuardedAt, RecoverNext, Inv;
    var job, left := planned.value, w.procs[q].left;
    if w.disk.transaction.Some? {
      ChangingIsGuarded(w.disk, w.disk.transaction.value, p, job, left);
    } else {
      SeenAtRest(s, w, a);
      assert |JournalOf(p, job).entries| == |job.entries|;
      LateStepIsBenignExactly(s, w, q, job, p, left);
      assert left > 0 ==> job.entries[left - 1] in job.entries;
    }
  }

  lemma JournalIsBenign(s: Settings, w: World, a: Workspace, p: Pid, plan: Plan, planned: Result<Job, InstallError>)
    requires s.roots != [] && Fit(s, a, plan, planned) && Under(s, w, a, p, plan, planned)
    ensures Benign(w, p, WriteJournal)
  {
    hide PlanInstall, SoundJob, Installable;
    assert ProcessOk(s, a, w.disk, p, w.procs[p]);
  }

  lemma UnderIsBenign(
      s: Settings, w: World, a: Workspace, p: Pid, plan: Plan, planned: Result<Job, InstallError>, q: Pid, act: Action)
    requires s.roots != [] && Fit(s, a, plan, planned) && Under(s, w, a, p, plan, planned)
    ensures Benign(w, q, act)
  {
    hide Fit, Inv, BenignUndo;
    if q in w.procs {
      if q == p {
        JournalIsBenign(s, w, a, p, plan, planned);
      } else if w.procs[q].Recovering? {
        UndoIsBenign(s, w, a, p, plan, planned, q);
      }
    }
  }

  /* Steps. */

  /** What no step but the installer's changes: whose transaction it is, and for which job. */
  predicate SameTransaction(d: Disk, e: Disk) {
    e.transaction.Some? ==>
      && d.transaction.Some?
      && e.transaction.value.maker == d.transaction.value.maker && e.transaction.value.job == d.transaction.value.job
  }

  lemma RecovererStays(s: Settings, w: World, a: Workspace, p: Pid, plan: Plan, planned: Result<Job, InstallError>,
                       q: Pid, act: Action, v: World)
    requires s.roots != [] && Under(s, w, a, p, plan, planned) && Allowed(w, q, act, p, plan)
    requires q != p && Perform(s, w, q, act) == Some(v)
    ensures q in v.procs && OnlyRecovers(v.procs[q], p, planned) && SameTransaction(w.disk, v.disk)
  {
    hide PerformHolding, PerformWithout, PlanInstall, UndoNext, StandsAt, SoundJob, RecoverNext;
    match w.procs[q] {
      case Recovering(j, left) =>
        if left <= |j.entries| {
          NextKeepsTransaction(w.disk, left, j);
        }
      case _ =>
    }
  }

  lemma NextKeepsTransaction(d: Disk, left: nat, j: Journal)
    requires left <= |j.entries|
    ensures SameTransaction(d, RecoverNext(d, left, j).disk)
    ensures RecoverNext(d, left, j).Undoing? ==> RecoverNext(d, left, j).left <= |j.entries|
  {
    if d.transaction.Some? {
      UndoKeepsMaker(d, left, j);
    } else {
      StepWithout(d, left, j);
    }
  }

  lemma OutsideStays(s: Settings, w: World, a: Workspace, p: Pid, plan: Plan, planned: Result<Job, InstallError>,
                     act: Action, v: World)
    requires s.roots != [] && Fit(s, a, plan, planned) && Under(s, w, a, p, plan, planned)
        && Allowed(w, p, act, p, plan)
    requires Perform(s, w, p, act) == Some(v) && !w.procs[p].Holding?
    ensures p in v.procs && Installs(v.procs[p], a, plan, planned)
    ensures v.disk.transaction.Some? ==>
      && planned.Ok? && v.procs[p].Holding?
      && v.disk.transaction.value.maker == p && v.disk.transaction.value.job == planned.value
  {
    hide PerformHolding, PerformWithout, PlanInstall, UndoNext, StandsAt, SoundJob, RecoverNext, Inv, Installable;
    SeenAtRest(s, w, a);
  }

  lemma InsideStays(s: Settings, w: World, a: Workspace, p: Pid, plan: Plan, planned: Result<Job, InstallError>,
                    act: Action, v: World)
    requires s.roots != [] && Under(s, w, a, p, plan, planned)
    requires Perform(s, w, p, act) == Some(v) && w.procs[p].Holding?
    ensures p in v.procs && (v.procs[p] == Stopped || v.procs[p].Holding?) && Installs(v.procs[p], a, plan, planned)
    ensures SameTransaction(w.disk, v.disk)
  {
    hide PerformHolding, PerformWithout, PlanInstall, StandsAt, SoundJob, Tracks;
    assert ProcessOk(s, a, w.disk, p, w.procs[p]);
    HolderKeepsMaker(s, w, p, w.procs[p].job, w.procs[p].at, act, v);
  }

  /** While an installer lives nobody recovers what it made. */
  lemma NobodyRecoversTheLiving(
      s: Settings, w: World, a: Workspace, p: Pid, plan: Plan, planned: Result<Job, InstallError>)
    requires Under(s, w, a, p, plan, planned) && w.procs[p] != Stopped
    ensures forall q :: q in w.procs && q != p ==> w.procs[q] == Idle || w.procs[q] == Stopped
  {
    hide Tracks, ProcessOk;
    forall q | q in w.procs && q != p ensures w.procs[q] == Idle || w.procs[q] == Stopped {
      assert OnlyRecovers(w.procs[q], p, planned);
    }
  }

  lemma FinishLeaves(s: Settings, w: World, p: Pid, job: Job, v: World)
    requires s.roots != [] && p in w.procs && w.procs[p].Holding? && w.disk.transaction.Some?
    requires Perform(s, w, p, Finish) == Some(v)
    ensures v == Become(WithDisk(w, w.disk.(transaction := None)), p, Stopped)
  {
    NotFinish(s, w, p, w.procs[p].job, w.procs[p].at, Finish);
  }

  lemma UnderGoesOn(s: Settings, w: World, a: Workspace, p: Pid, plan: Plan, planned: Result<Job, InstallError>,
                    q: Pid, act: Action, v: World)
    requires s.roots != [] && Fit(s, a, plan, planned) && Under(s, w, a, p, plan, planned)
        && Allowed(w, q, act, p, plan)
    requires Perform(s, w, q, act) == Some(v)
    ensures Benign(w, q, act) && (Under(s, v, a, p, plan, planned) || Over(v, p))
  {
    hide Fit, Inv, Perform, Benign, Commits, GoodJob, Installs, OnlyRecovers, Allowed;
    UnderIsBenign(s, w, a, p, plan, planned, q, act);
    var b := StepRefines(s, w, a, q, act, v);
    OnlyItselfChanges(s, w, q, act, v);
    if act == Finish {
      NotARecoverer(w, p, planned, q);
      HolderIsInside(s, w, a, p);
      FinishLeaves(s, w, p, w.procs[p].job, v);
      NobodyRecoversTheLiving(s, w, a, p, plan, planned);
    } else if q != p {
      RecovererStays(s, w, a, p, plan, planned, q, act, v);
    } else if w.procs[p].Holding? {
      InsideStays(s, w, a, p, plan, planned, act, v);
    } else {
      OutsideStays(s, w, a, p, plan, planned, act, v);
    }
  }

  lemma NotARecoverer(w: World, p: Pid, planned: Result<Job, InstallError>, q: Pid)
    requires q in w.procs && w.procs[q].Holding? && (q != p ==> OnlyRecovers(w.procs[q], p, planned))
    ensures q == p
  {
  }

  lemma HolderIsInside(s: Settings, w: World, a: Workspace, p: Pid)
    requires Inv(s, w, a) && p in w.procs && w.procs[p].Holding?
    ensures w.disk.transaction.Some?
  {
    assert ProcessOk(s, a, w.disk, p, w.procs[p]);
  }

  lemma OverGoesOn(s: Settings, w: World, p: Pid, plan: Plan, q: Pid, act: Action, v: World)
    requires s.roots != [] && Over(w, p) && Allowed(w, q, act, p, plan) && Perform(s, w, q, act) == Some(v)
    ensures Benign(w, q, act) && Over(v, p)
  {
    hide PlanInstall, UndoNext, PerformHolding, PerformWithout;
  }

  ghost predicate Goes(s: Settings, w: World, a: Workspace, p: Pid, plan: Plan, planned: Result<Job, InstallError>) {
    Under(s, w, a, p, plan, planned) || Over(w, p)
  }

  lemma {:induction false} RunGoesOn(
      s: Settings, worlds: seq<World>, moves: seq<Move>, a: Workspace, p: Pid, plan: Plan,
      planned: Result<Job, InstallError>, i: nat)
    requires IsRun(s, worlds, moves) && OneInstall(worlds, moves, p, plan) && i < |worlds|
    requires Fit(s, a, plan, planned) && Goes(s, worlds[0], a, p, plan, planned)
    ensures Goes(s, worlds[i], a, p, plan, planned)
    ensures i < |moves| ==> Benign(worlds[i], moves[i].p, moves[i].act)
    decreases i
  {
    hide Fit, Under, Over, Perform, Benign, Allowed;
    if i > 0 {
      RunGoesOn(s, worlds, moves, a, p, plan, planned, i - 1);
      StepGoesOn(s, worlds[i - 1], a, p, plan, planned, moves[i - 1].p, moves[i - 1].act, worlds[i - 1 + 1]);
    }
    if i < |moves| {
      StepGoesOn(s, worlds[i], a, p, plan, planned, moves[i].p, moves[i].act, worlds[i + 1]);
    }
  }

  lemma StepGoesOn(s: Settings, w: World, a: Workspace, p: Pid, plan: Plan, planned: Result<Job, InstallError>,
                   q: Pid, act: Action, v: World)
    requires s.roots != [] && Fit(s, a, plan, planned) && Goes(s, w, a, p, plan, planned) && Allowed(w, q, act, p, plan)
    requires Perform(s, w, q, act) == Some(v)
    ensures Benign(w, q, act) && Goes(s, v, a, p, plan, planned)
  {
    hide Fit, Under, Over, Perform, Benign, Allowed;
    if Over(w, p) {
      OverGoesOn(s, w, p, plan, q, act, v);
    } else {
      UnderGoesOn(s, w, a, p, plan, planned, q, act, v);
    }
  }

  /** One install and any number of recoveries, however they overlap, is a benign run, whatever dies
      where: unless the plan updates a module to the very files it has. */
  lemma RecoveriesOfOneInstallAreBenign(s: Settings, worlds: seq<World>, moves: seq<Move>, p: Pid, plan: Plan)
    requires IsRun(s, worlds, moves) && AtStart(worlds[0]) && p in worlds[0].procs && OneInstall(worlds, moves, p, plan)
    requires var planned := PlanInstall(s, worlds[0].disk.lock, worlds[0].disk.dirs, plan);
      planned.Ok? ==> Changing(planned.value)
    ensures BenignRun(worlds, moves)
  {
    hide PlanInstall, Perform, Inv, Benign;
    var a := OnDisk(worlds[0].disk);
    var planned := PlanInstall(s, a.lock, a.dirs, plan);
    if planned.Ok? {
      PlannedIsSound(s, worlds[0].disk, plan, planned);
    }
    StartIsSeen(s, worlds[0]);
    forall i | 0 <= i < |moves| ensures Benign(worlds[i], moves[i].p, moves[i].act) {
      RunGoesOn(s, worlds, moves, a, p, plan, planned, i);
    }
  }
}
