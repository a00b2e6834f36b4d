/** Runs that can be made: an undisturbed install finishes; and one plan applied by two
    processes at once ends with the lockfile reverted under the installed modules. */
module InstallProgress {
  import opened Basics
  import opened InstallPlan
  import opened InstallProtocol
  import opened InstallTheorems
  import opened InstallRefinement
  import opened InstallRuns
  import opened InstallLimits

  /** The world a list of moves leads to, if every one of them can be made. */
  ghost function WorldAfter(s: Settings, w: World, moves: seq<Move>): Option<World>
    requires s.roots != []
    decreases |moves|
  {
    if moves == [] then Some(w)
    else
      match Perform(s, w, moves[0].p, moves[0].act)
      case None => None
      case Some(v) => WorldAfter(s, v, moves[1..])
  }

  lemma {:induction false} AfterSum(s: Settings, w: World, a: seq<Move>, u: World, b: seq<Move>)
    requires s.roots != [] && WorldAfter(s, w, a) == Some(u)
    ensures WorldAfter(s, w, a + b) == WorldAfter(s, u, b)
    decreases |a|
  {
    if a == [] {
      assert a + b == b;
    } else {
      assert (a + b)[1..] == a[1..] + b;
      AfterSum(s, Perform(s, w, a[0].p, a[0].act).value, a[1..], u, b);
    }
  }

  lemma AfterOne(s: Settings, w: World, a: seq<Move>, u: World, p: Pid, act: Action, v: World)
    requires s.roots != [] && WorldAfter(s, w, a) == Some(u) && Perform(s, u, p, act) == Some(v)
    ensures WorldAfter(s, w, a + [Move(p, act)]) == Some(v)
  {
    AfterSum(s, w, a, u, [Move(p, act)]);
    assert [Move(p, act)][1..] == [];
  }

  /** The workspace is seen as a, and p stands as given; the others may be anywhere. */
  ghost predicate KnownAt(s: Settings, w: World, a: Workspace, p: Pid, process: Process) {
    Inv(s, w, a) && p in w.procs && w.procs[p] == process
  }

  ghost predicate OnlyItself(w: World, v: World, p: Pid) {
    p in v.procs && v.procs == w.procs[p := v.procs[p]]
  }

  lemma OnlyItselfTwice(w: World, u: World, v: World, p: Pid)
    requires OnlyItself(w, u, p) && OnlyItself(u, v, p)
    ensures OnlyItself(w, v, p)
  {
  }

  lemma OnlyItselfChanges(s: Settings, w: World, p: Pid, act: Action, v: World)
    requires s.roots != [] && Perform(s, w, p, act) == Some(v)
    ensures OnlyItself(w, v, p)
  {
    hide PerformHolding, PlanInstall, UndoNext, RecoverNext;
    match w.procs[p] {
      case Holding(job, at) =>
        if w.disk.transaction.Some? {
          OnlyHolderChanges(s, w, p, job, at, act, v);
        }
      case _ =>
    }
  }

  lemma OnlyHolderChanges(s: Settings, w: World, p: Pid, job: Job, at: Point, act: Action, v: World)
    requires w.disk.transaction.Some? && PerformHolding(s, w, p, job, at, act) == Some(v)
    ensures OnlyItself(w, v, p)
  {
  }

  /** One step that does not finish an install, as a run. */
  lemma Go(s: Settings, u: World, a: Workspace, p: Pid, act: Action, v: World) returns (moves: seq<Move>)
    requires p in u.procs && KnownAt(s, u, a, p, u.procs[p])
    requires s.roots != [] && Perform(s, u, p, act) == Some(v) && act != Finish && Benign(u, p, act)
    ensures WorldAfter(s, u, moves) == Some(v)
    ensures p in v.procs && KnownAt(s, v, a, p, v.procs[p]) && OnlyItself(u, v, p)
  {
    hide Inv, Benign, Perform, PerformHolding;
    OnlyItselfChanges(s, u, p, act, v);
    var b := StepRefines(s, u, a, p, act, v);
    moves := OneMove(s, u, p, act, v);
  }

  lemma OneMove(s: Settings, u: World, p: Pid, act: Action, v: World) returns (moves: seq<Move>)
    requires s.roots != [] && Perform(s, u, p, act) == Some(v)
    ensures WorldAfter(s, u, moves) == Some(v)
  {
    moves := [Move(p, act)];
    assert moves[1..] == [];
  }

  /** Two stretches of a run by one process make one. */
  lemma Joined(s: Settings, w: World, a: seq<Move>, u: World, b: seq<Move>, v: World, p: Pid) returns (all: seq<Move>)
    requires s.roots != [] && WorldAfter(s, w, a) == Some(u) && WorldAfter(s, u, b) == Some(v)
    requires OnlyItself(w, u, p) && OnlyItself(u, v, p)
    ensures WorldAfter(s, w, all) == Some(v) && OnlyItself(w, v, p)
  {
    AfterSum(s, w, a, u, b);
    OnlyItselfTwice(w, u, v, p);
    all := a + b;
  }

  /** What the invariant says about a holding process. */
  lemma HolderStands(s: Settings, w: World, a: Workspace, p: Pid, job: Job, at: Point)
    requires KnownAt(s, w, a, p, Holding(job, at))
    ensures Stands(s, w, a, p, job, at) && SoundJob(s, job)
  {
    assert ProcessOk(s, a, w.disk, p, w.procs[p]);
  }

  lemma CanStage(s: Settings, w: World, a: Workspace, p: Pid, job: Job, k: nat) returns (v: World)
    requires Stands(s, w, a, p, job, Owned(k)) && SoundJob(s, job) && k < |job.entries| && s.roots != []
    ensures Perform(s, w, p, StageNext) == Some(v) && p in v.procs && v.procs[p] == Holding(job, Owned(k + 1))
  {
    hide SoundJob, StandsAt, PlanInstall, UndoNext, PerformWithout;
    StageStep(s, a, w.disk, w.disk.transaction.value, k);
    v := Perform(s, w, p, StageNext).value;
  }

  lemma {:induction false} StageAll(s: Settings, w: World, a: Workspace, p: Pid, job: Job, k: nat)
    returns (moves: seq<Move>, v: World)
    requires KnownAt(s, w, a, p, Holding(job, Owned(k))) && k <= |job.entries|
    ensures WorldAfter(s, w, moves) == Some(v)
    ensures KnownAt(s, v, a, p, Holding(job, Owned(|job.entries|)))
    ensures OnlyItself(w, v, p)
    decreases |job.entries| - k
  {
    hide Perform, PerformHolding, SoundJob, StandsAt, Tracks, ProcessOk;
    if k == |job.entries| {
      moves, v := [], w;
      assert w.procs == w.procs[p := w.procs[p]];
    } else {
      HolderStands(s, w, a, p, job, Owned(k));
      var u := CanStage(s, w, a, p, job, k);
      var first := Go(s, w, a, p, StageNext, u);
      var more;
      more, v := StageAll(s, u, a, p, job, k + 1);
      moves := Joined(s, w, first, u, more, v, p);
    }
  }

  /** From a planned job to its last staged file. */
  lemma Prepares(s: Settings, w: World, a: Workspace, p: Pid, job: Job) returns (moves: seq<Move>, v: World)
    requires KnownAt(s, w, a, p, Ready(job)) && w.disk.transaction.None?
    ensures WorldAfter(s, w, moves) == Some(v)
    ensures KnownAt(s, v, a, p, Holding(job, Owned(|job.entries|)))
    ensures OnlyItself(w, v, p)
  {
    hide PlanInstall, UndoNext, StandsAt, Tracks, ProcessOk, OnlyItself, WorldAfter;
    var t := Transaction(p, job, None, map[], map[], None);
    var u1 := Become(WithDisk(w, Transact(w.disk, t)), p, Holding(job, Made));
    var first := Go(s, w, a, p, MakeDirectory, u1);
    var u2 := Become(WithDisk(u1, Transact(u1.disk, t.(owner := Some(p)))), p, Holding(job, Owned(0)));
    var second := Go(s, u1, a, p, NameOwner, u2);
    first := Joined(s, w, first, u1, second, u2, p);
    second, v := StageAll(s, u2, a, p, job, 0);
    moves := Joined(s, w, first, u2, second, v, p);
  }

  /** New modules have a free destination and updated ones are as the lockfile says. */
  ghost predicate Installable(a: Workspace, job: Job) {
    forall e :: e in job.entries ==>
      match e.previous
      case None => e.installed.directory !in a.dirs
      case Some(old_) => Unmodified(a.dirs, old_)
  }

  lemma WaitingIsFree(s: Settings, a: Workspace, d: Disk, t: Transaction, k: nat)
    requires d.transaction == Some(t) && SoundJob(s, t.job) && Installable(a, t.job) && k < |t.job.entries|
    requires EntryIs(a, d, t, k, Waiting)
    ensures k in t.stages
    ensures t.job.entries[k].previous.None? ==> Directory(t.job, k) !in d.dirs
    ensures t.job.entries[k].previous.Some? ==>
      Unmodified(d.dirs, t.job.entries[k].previous.value) && Directory(t.job, k) in d.dirs
  {
    var e := t.job.entries[k];
    assert e in t.job.entries && EntryFits(s, Modules(t.job.previous), e);
    assert Lookup(d.dirs, Directory(t.job, k)) == Lookup(a.dirs, Directory(t.job, k));
  }

  lemma CanMoveAside(s: Settings, w: World, a: Workspace, p: Pid, job: Job, k: nat) returns (v: World)
    requires Stands(s, w, a, p, job, Moving(k, false)) && SoundJob(s, job) && Installable(a, job) && s.roots != []
    requires k < |job.entries| && job.entries[k].previous.Some?
    ensures Perform(s, w, p, MoveAside) == Some(v) && p in v.procs && v.procs[p] == Holding(job, Moving(k, true))
  {
    hide PlanInstall, UndoNext, SoundJob, Journaling, EntryFits, GoodJob;
    var d, t := w.disk, w.disk.transaction.value;
    WaitingIsFree(s, a, d, t, k);
    v := Become(WithDisk(w, SetAside(d, t, Directory(job, k), k)), p, Holding(job, Moving(k, true)));
    assert PerformHolding(s, w, p, job, Moving(k, false), MoveAside) == Some(v);
  }

  lemma CanMoveIn(s: Settings, w: World, a: Workspace, p: Pid, job: Job, k: nat, aside: bool) returns (v: World)
    requires Stands(s, w, a, p, job, Moving(k, aside)) && SoundJob(s, job) && Installable(a, job) && s.roots != []
    requires k < |job.entries| && aside == job.entries[k].previous.Some?
    ensures Perform(s, w, p, MoveIn) == Some(v) && p in v.procs && v.procs[p] == Holding(job, Moving(k + 1, false))
  {
    hide UndoNext, PlanInstall, SoundJob, Journaling;
    var d, t := w.disk, w.disk.transaction.value;
    if aside {
      assert EntryIs(a, d, t, k, InstallTheorems.Aside);
    } else {
      WaitingIsFree(s, a, d, t, k);
    }
    v := Perform(s, w, p, MoveIn).value;
  }

  lemma MoveOne(s: Settings, w: World, a: Workspace, p: Pid, job: Job, k: nat) returns (moves: seq<Move>, v: World)
    requires KnownAt(s, w, a, p, Holding(job, Moving(k, false))) && Installable(a, job) && k < |job.entries|
    ensures WorldAfter(s, w, moves) == Some(v)
    ensures KnownAt(s, v, a, p, Holding(job, Moving(k + 1, false)))
    ensures OnlyItself(w, v, p)
  {
    hide PerformHolding, Perform, Installable, SoundJob, StandsAt, Tracks, ProcessOk;
    var u := w;
    moves := [];
    assert w.procs == w.procs[p := w.procs[p]];
    HolderStands(s, w, a, p, job, Moving(k, false));
    var aside := job.entries[k].previous.Some?;
    if aside {
      u := CanMoveAside(s, w, a, p, job, k);
      moves := Go(s, w, a, p, MoveAside, u);
      HolderStands(s, u, a, p, job, Moving(k, true));
    }
    v := CanMoveIn(s, u, a, p, job, k, aside);
    var last := Go(s, u, a, p, MoveIn, v);
    moves := Joined(s, w, moves, u, last, v, p);
  }

  lemma {:induction false} MoveUpTo(s: Settings, w: World, a: Workspace, p: Pid, job: Job, k: nat, end: nat)
    returns (moves: seq<Move>, v: World)
    requires KnownAt(s, w, a, p, Holding(job, Moving(k, false))) && Installable(a, job) && k <= end <= |job.entries|
    ensures WorldAfter(s, w, moves) == Some(v)
    ensures KnownAt(s, v, a, p, Holding(job, Moving(end, false)))
    ensures OnlyItself(w, v, p)
    decreases end - k
  {
    if k == end {
      moves, v := [], w;
      assert w.procs == w.procs[p := w.procs[p]];
    } else {
      var first, u := MoveOne(s, w, a, p, job, k);
      var more;
      more, v := MoveUpTo(s, u, a, p, job, k + 1, end);
      moves := Joined(s, w, first, u, more, v, p);
    }
  }

  lemma CanJournal(s: Settings, w: World, a: Workspace, p: Pid, job: Job) returns (v: World)
    requires Stands(s, w, a, p, job, Owned(|job.entries|)) && s.roots != []
    ensures Perform(s, w, p, WriteJournal) == Some(v) && p in v.procs && v.procs[p] == Holding(job, Journaled)
    ensures v == Become(WithDisk(w, v.disk), p, Holding(job, Journaled))
    ensures v.disk == Transact(w.disk, w.disk.transaction.value.(journal := Some(JournalOf(p, job))))
    ensures v.disk.lock == a.lock
  {
    hide UndoNext, PlanInstall, Tracks, Journaling, EntryIs;
    v := Perform(s, w, p, WriteJournal).value;
  }

  lemma CanReread(s: Settings, w: World, a: Workspace, p: Pid, job: Job) returns (v: World)
    requires Stands(s, w, a, p, job, Journaled) && a.lock == job.previous && s.roots != []
    ensures Perform(s, w, p, Reread) == Some(v) && p in v.procs && v.procs[p] == Holding(job, Moving(0, false))
  {
    v := Perform(s, w, p, Reread).value;
  }

  lemma CanWriteLock(s: Settings, w: World, a: Workspace, p: Pid, job: Job) returns (v: World)
    requires Stands(s, w, a, p, job, Moving(|job.entries|, false)) && s.roots != []
    ensures Perform(s, w, p, WriteLock) == Some(v) && p in v.procs && v.procs[p] == Holding(job, Sealed)
  {
    hide UndoNext, PlanInstall, Tracks, Journaling, EntryIs, EntryKnown;
    v := Perform(s, w, p, WriteLock).value;
  }

  /** From the last staged file to the lock being read again. */
  lemma Commences(s: Settings, w: World, a: Workspace, p: Pid, job: Job) returns (moves: seq<Move>, v: World)
    requires KnownAt(s, w, a, p, Holding(job, Owned(|job.entries|))) && a.lock == job.previous
    ensures WorldAfter(s, w, moves) == Some(v)
    ensures KnownAt(s, v, a, p, Holding(job, Moving(0, false))) && OnlyItself(w, v, p)
  {
    HolderStands(s, w, a, p, job, Owned(|job.entries|));
    var u := CanJournal(s, w, a, p, job);
    var first := Go(s, w, a, p, WriteJournal, u);
    HolderStands(s, u, a, p, job, Journaled);
    v := CanReread(s, u, a, p, job);
    var second := Go(s, u, a, p, Reread, v);
    moves := Joined(s, w, first, u, second, v, p);
  }

  /** The install reaches the point where everything is in place. */
  lemma Seals(s: Settings, w: World, a: Workspace, p: Pid, job: Job) returns (moves: seq<Move>, v: World)
    requires KnownAt(s, w, a, p, Ready(job)) && w.disk.transaction.None?
    requires a.lock == job.previous && Installable(a, job)
    ensures WorldAfter(s, w, moves) == Some(v)
    ensures KnownAt(s, v, a, p, Holding(job, Sealed)) && OnlyItself(w, v, p)
  {
    hide Perform, PerformHolding, Installable, SoundJob, StandsAt, Tracks, ProcessOk, WorldAfter, OnlyItself;
    var m1, u1 := Prepares(s, w, a, p, job);
    var m2, u2 := Commences(s, u1, a, p, job);
    var m3, u3 := MoveUpTo(s, u2, a, p, job, 0, |job.entries|);
    HolderStands(s, u3, a, p, job, Moving(|job.entries|, false));
    v := CanWriteLock(s, u3, a, p, job);
    var m4 := Go(s, u3, a, p, WriteLock, v);
    m1 := Joined(s, w, m1, u1, m2, u2, p);
    m1 := Joined(s, w, m1, u2, m3, u3, p);
    moves := Joined(s, w, m1, u3, m4, v, p);
  }

  lemma SealedFinishes(s: Settings, u: World, a: Workspace, p: Pid, job: Job) returns (v: World)
    requires KnownAt(s, u, a, p, Holding(job, Sealed))
    ensures Perform(s, u, p, Finish) == Some(v)
    ensures v == Become(WithDisk(u, u.disk.(transaction := None)), p, Stopped)
    ensures Commits(a, OnDisk(v.disk), job) && KnownAt(s, v, OnDisk(v.disk), p, Stopped)
  {
    hide UndoNext, PlanInstall, StandsAt, SoundJob, Tracks, Commits, GoodJob;
    HolderStands(s, u, a, p, job, Sealed);
    v := Become(WithDisk(u, u.disk.(transaction := None)), p, Stopped);
    assert Perform(s, u, p, Finish) == Some(v);
    var b := StepRefines(s, u, a, p, Finish, v);
    SeenAtRest(s, v, b);
  }

  /** Undisturbed, a planned install that nothing stands in the way of finishes, and what it
      leaves is exactly its plan. */
  lemma UndisturbedInstallFinishes(s: Settings, w: World, a: Workspace, p: Pid, job: Job)
    returns (moves: seq<Move>, v: World)
    requires KnownAt(s, w, a, p, Ready(job)) && w.disk.transaction.None?
    requires a.lock == job.previous && Installable(a, job)
    ensures WorldAfter(s, w, moves) == Some(v)
    ensures v.disk.transaction.None? && v.procs == w.procs[p := Stopped]
    ensures Commits(OnDisk(w.disk), OnDisk(v.disk), job)
    ensures KnownAt(s, v, OnDisk(v.disk), p, Stopped)
  {
    hide PerformHolding, Perform, Benign, Commits, SoundJob, Stands;
    var u;
    moves, u := Seals(s, w, a, p, job);
    v := SealedFinishes(s, u, a, p, job);
    AfterOne(s, w, moves, u, p, Finish, v);
    moves := moves + [Move(p, Finish)];
    SeenAtRest(s, w, a);
  }

  /* One plan applied twice at once. */

  lemma PassesOne(s: Settings, w: World, a: Workspace, p: Pid, job: Job, left: nat)
    requires s.roots != [] && p in w.procs && w.procs[p] == Holding(job, BackingOut(left)) && 0 < left <= |job.entries|
    requires w.disk.transaction.Some? && w.disk.transaction.value.maker == p && w.disk.transaction.value.job == job
    requires Contested(a, w.disk)
    ensures Perform(s, w, p, UndoOne) == Some(Become(w, p, Holding(job, BackingOut(left - 1))))
  {
    hide PlanInstall, Unmodified;
    var d, t := w.disk, w.disk.transaction.value;
    JournalMatches(p, job, left - 1);
    assert EntryIs(a, d, t, left - 1, Waiting);
    assert UndoNext(Undoing(d, left), JournalOf(p, job)) == Undoing(d, left - 1);
  }

  lemma {:induction false} PassAll(s: Settings, w: World, a: Workspace, p: Pid, job: Job, left: nat)
    returns (moves: seq<Move>, v: World)
    requires s.roots != [] && p in w.procs && w.procs[p] == Holding(job, BackingOut(left)) && left <= |job.entries|
    requires w.disk.transaction.Some? && w.disk.transaction.value.maker == p && w.disk.transaction.value.job == job
    requires Contested(a, w.disk)
    ensures WorldAfter(s, w, moves) == Some(v)
    ensures v.disk == w.disk && v.procs == w.procs[p := Holding(job, BackingOut(0))]
    decreases left
  {
    hide Perform, Contested;
    if left == 0 {
      moves, v := [], w;
      assert v.procs == w.procs[p := w.procs[p]];
    } else {
      PassesOne(s, w, a, p, job, left);
      var u := Become(w, p, Holding(job, BackingOut(left - 1)));
      moves, v := PassAll(s, u, a, p, job, left - 1);
      AfterOne(s, w, [], w, p, UndoOne, u);
      AfterSum(s, w, [] + [Move(p, UndoOne)], u, moves);
      moves := [] + [Move(p, UndoOne)] + moves;
    }
  }

  lemma StagedIsContested(s: Settings, w: World, a: Workspace, p: Pid, job: Job, d: Disk)
    requires Stands(s, w, a, p, job, Owned(|job.entries|))
    requires d == Transact(w.disk, w.disk.transaction.value.(journal := Some(JournalOf(p, job))))
    ensures Contested(a, d)
  {
    var t := w.disk.transaction.value;
    forall i | 0 <= i < |job.entries| ensures EntryIs(a, d, d.transaction.value, i, Waiting) {
      assert Lookup(t.stages, i) == Some(TreeOf(job.entries[i]));
    }
  }

  /** A prepared installer that meets its own next lock: it backs out, and writes back the old one. */
  lemma LoserReverts(s: Settings, w: World, a: Workspace, p: Pid, job: Job) returns (moves: seq<Move>, v: World)
    requires KnownAt(s, w, a, p, Holding(job, Owned(|job.entries|)))
    requires a.lock == Some(job.next) && job.previous != Some(job.next)
    ensures WorldAfter(s, w, moves) == Some(v)
    ensures v.disk.transaction.None? && v.disk.lock == job.previous && v.disk.dirs == a.dirs
  {
    hide PlanInstall, Inv, Unmodified, UndoNext, EntryIs, Tracks;
    HolderStands(s, w, a, p, job, Owned(|job.entries|));
    var u1 := CanJournal(s, w, a, p, job);
    var d := u1.disk;
    StagedIsContested(s, w, a, p, job, d);
    AfterOne(s, w, [], w, p, WriteJournal, u1);
    moves := [] + [Move(p, WriteJournal)];
    var u2 := Become(u1, p, Holding(job, BackingOut(|job.entries|)));
    AfterOne(s, w, moves, u1, p, Reread, u2);
    moves := moves + [Move(p, Reread)];
    var more, u3 := PassAll(s, u2, a, p, job, |job.entries|);
    AfterSum(s, w, moves, u2, more);
    moves := moves + more;
    v := LastOfLoser(s, u3, p, job);
    AfterOne(s, w, moves, u3, p, UndoOne, Become(WithDisk(u3, d.(lock := job.previous)), p, Holding(job, Dropping)));
    moves := moves + [Move(p, UndoOne)];
    AfterOne(s, w, moves, Become(WithDisk(u3, d.(lock := job.previous)), p, Holding(job, Dropping)), p, Drop, v);
    moves := moves + [Move(p, Drop)];
  }

  lemma LastOfLoser(s: Settings, w: World, p: Pid, job: Job) returns (v: World)
    requires s.roots != [] && p in w.procs && w.procs[p] == Holding(job, BackingOut(0))
    requires w.disk.transaction.Some? && w.disk.lock == Some(job.next)
    ensures var u := Become(WithDisk(w, w.disk.(lock := job.previous)), p, Holding(job, Dropping));
      Perform(s, w, p, UndoOne) == Some(u) && Perform(s, u, p, Drop) == Some(v)
    ensures v.disk == w.disk.(lock := job.previous, transaction := None)
  {
    var u := Become(WithDisk(w, w.disk.(lock := job.previous)), p, Holding(job, Dropping));
    assert UndoNext(Undoing(w.disk, 0), JournalOf(p, job)) == Undone(w.disk.(lock := job.previous));
    v := Perform(s, u, p, Drop).value;
  }

  lemma SameLockSameModule(s: Settings, job: Job, e: PlannedEntry)
    requires GoodJob(s, job) && e in job.entries && job.previous == Some(job.next)
    ensures e.previous == Some(e.installed)
  {
    NextMembers(Modules(job.previous), job.entries);
    var i :| 0 <= i < |job.entries| && job.entries[i] == e;
    assert InstalledOf(job.entries)[i] == e.installed;
    FoundIfDistinct(Modules(job.previous), e.installed);
  }

  /** A job that changes what is recorded of some module changes the lockfile. */
  lemma NextIsNew(s: Settings, job: Job, e: PlannedEntry)
    requires GoodJob(s, job) && e in job.entries && e.previous != Some(e.installed)
    ensures job.previous != Some(job.next)
  {
    if job.previous == Some(job.next) {
      SameLockSameModule(s, job, e);
    }
  }

  lemma PlannedIsInstallable(s: Settings, lock: Option<LockText>, dirs: map<string, Tree>, plan: Plan)
    requires s.roots != [] && PlanInstall(s, lock, dirs, plan).Ok?
    ensures Installable(Workspace(lock, dirs), PlanInstall(s, lock, dirs, plan).value)
  {
    EntriesAreInstallable(s, Modules(lock), dirs, plan, plan.releases, [], 0);
  }

  ghost predicate EntryInstallable(dirs: map<string, Tree>, e: PlannedEntry) {
    match e.previous
    case None => e.installed.directory !in dirs
    case Some(old_) => Unmodified(dirs, old_)
  }

  lemma {:induction false} EntriesAreInstallable(
      s: Settings, snapshot: seq<Installed>, dirs: map<string, Tree>, plan: Plan, releases: seq<PlannedRelease>,
      entries: seq<PlannedEntry>, size: nat)
    requires s.roots != []
    requires PlanEntries(s, snapshot, dirs, plan, releases, entries, size).Ok?
    requires forall e :: e in entries ==> EntryInstallable(dirs, e)
    ensures forall e :: e in PlanEntries(s, snapshot, dirs, plan, releases, entries, size).value ==>
      EntryInstallable(dirs, e)
    decreases |releases|
  {
    if releases != [] {
      var (entry, total) := PlanEntry(s, snapshot, dirs, plan, releases[0], size).value;
      EntriesAreInstallable(s, snapshot, dirs, plan, releases[1..], entries + [entry], total);
    }
  }

  /** An installer that journals over the very lock it would write can lose it. Whatever plan passes
      its checks, there is a run in which two processes apply it at once and which ends, no
      transaction left, with every planned directory in place and the lockfile of before. */
  lemma OnePlanTwiceLosesTheLock(s: Settings, w: World, p: Pid, q: Pid, plan: Plan)
    returns (moves: seq<Move>, v: World)
    requires s.roots != [] && AtStart(w) && p in w.procs && q in w.procs && p != q
    requires PlanInstall(s, w.disk.lock, w.disk.dirs, plan).Ok?
    requires w.disk.lock != Some(PlanInstall(s, w.disk.lock, w.disk.dirs, plan).value.next)
    ensures WorldAfter(s, w, moves) == Some(v) && v.disk.transaction.None?
    ensures var job := PlanInstall(s, w.disk.lock, w.disk.dirs, plan).value;
      && v.disk.lock == w.disk.lock != Some(job.next)
      && forall e :: e in job.entries ==> Lookup(v.disk.dirs, e.installed.directory) == Some(TreeOf(e))
  {
    hide PlanInstall, Perform, PerformHolding, Inv, GoodJob, SoundJob, Installable, WorldAfter, TreeOf;
    var planned, a := PlanInstall(s, w.disk.lock, w.disk.dirs, plan), OnDisk(w.disk);
    var job := planned.value;
    StartIsSeen(s, w);
    var m0, u0 := GetsReady(s, w, a, p, plan, planned);
    var m1, u1 := GetsReady(s, u0, a, q, plan, planned);
    var m2, u2 := UndisturbedInstallFinishes(s, u1, a, p, job);
    var b := OnDisk(u2.disk);
    var m3, u3 := Prepares(s, u2, b, q, job);
    var m4;
    m4, v := LoserReverts(s, u3, b, q, job);
    AfterSum(s, w, m0, u0, m1);
    AfterSum(s, w, m0 + m1, u1, m2);
    AfterSum(s, w, m0 + m1 + m2, u2, m3);
    AfterSum(s, w, m0 + m1 + m2 + m3, u3, m4);
    moves := m0 + m1 + m2 + m3 + m4;
  }

  lemma Looks(s: Settings, w: World, p: Pid, plan: Plan)
    requires s.roots != [] && p in w.procs && w.procs[p] == Idle && w.disk.transaction.None?
    ensures Perform(s, w, p, Look(plan)) == Some(Become(w, p, Looked(plan)))
  {
  }

  lemma PlansOn(s: Settings, w: World, p: Pid, plan: Plan, planned: Result<Job, InstallError>)
    requires s.roots != [] && p in w.procs && w.procs[p] == Looked(plan)
    requires planned == PlanInstall(s, w.disk.lock, w.disk.dirs, plan) && planned.Ok?
    ensures var u := Become(w, p, Planning(plan, w.disk.lock));
      && Perform(s, w, p, ReadLock) == Some(u)
      && Perform(s, u, p, CheckDirectories(w.disk.dirs)) == Some(Become(w, p, Ready(planned.value)))
  {
    hide PlanInstall;
    assert Become(Become(w, p, Planning(plan, w.disk.lock)), p, Ready(planned.value))
        == Become(w, p, Ready(planned.value));
  }

  lemma AfterTwo(s: Settings, w: World, a: Move, u: World, b: Move, v: World) returns (moves: seq<Move>)
    requires s.roots != [] && Perform(s, w, a.p, a.act) == Some(u) && Perform(s, u, b.p, b.act) == Some(v)
    ensures WorldAfter(s, w, moves) == Some(v)
  {
    AfterOne(s, w, [], w, a.p, a.act, u);
    AfterOne(s, w, [] + [a], u, b.p, b.act, v);
    moves := [] + [a] + [b];
  }

  /** An idle process looks, reads the lock and checks the directories; nothing else changes. */
  lemma GetsReady(s: Settings, w: World, a: Workspace, p: Pid, plan: Plan, planned: Result<Job, InstallError>)
    returns (moves: seq<Move>, v: World)
    requires KnownAt(s, w, a, p, Idle) && w.disk.transaction.None? && s.roots != []
    requires planned == PlanInstall(s, w.disk.lock, w.disk.dirs, plan) && planned.Ok?
    ensures WorldAfter(s, w, moves) == Some(v) && v == Become(w, p, Ready(planned.value))
    ensures KnownAt(s, v, a, p, Ready(planned.value)) && SoundJob(s, planned.value)
    ensures a == OnDisk(w.disk) && a.lock == planned.value.previous && Installable(a, planned.value)
  {
    hide PlanInstall, Perform, WorldAfter, SoundJob, Tracks;
    var u, job := Become(w, p, Looked(plan)), planned.value;
    v := Become(w, p, Ready(job));
    assert Become(u, p, Ready(job)) == v && Become(u, p, Planning(plan, w.disk.lock)).disk == w.disk;
    Looks(s, w, p, plan);
    PlansOn(s, u, p, plan, planned);
    moves := AfterTwo(s, u, Move(p, ReadLock), Become(u, p, Planning(plan, w.disk.lock)),
                      Move(p, CheckDirectories(w.disk.dirs)), v);
    var first := OneMove(s, w, p, Look(plan), u);
    AfterSum(s, w, first, u, moves);
    moves := first + moves;
    PlannedIsSound(s, w.disk, plan, planned);
    SeenAtRest(s, w, a);
    BystanderStep(s, w, a, p, Ready(job));
  }

  /** A planned job: sound, and fit for the disk it was planned on. */
  lemma PlannedIsSound(s: Settings, d: Disk, plan: Plan, planned: Result<Job, InstallError>)
    requires s.roots != [] && planned == PlanInstall(s, d.lock, d.dirs, plan) && planned.Ok?
    ensures SoundJob(s, planned.value) && Installable(OnDisk(d), planned.value) && d.lock == planned.value.previous
  {
    PlannedJobIsGood(s, d.lock, d.dirs, plan);
    GoodJobIsSound(s, planned.value);
    PlannedIsInstallable(s, d.lock, d.dirs, plan);
  }
}
