/** Runs in which recovery itself does harm: one recovery cut off and another started over an
    update to the same files; and two recoveries at once. */
module InstallRepeats {
  import opened Basics
  import opened Artifact
  import opened InstallPlan
  import opened InstallProtocol
  import opened InstallTheorems
  import opened InstallRefinement
  import opened InstallRuns
  import opened InstallLimits
  import opened InstallProgress
  import opened InstallerSteps

  /* A rollback made of moves. */

  /** Rollback steps of a recovering process, as moves. */
  lemma {:induction false} UndoManyMoves(s: Settings, w: World, p: Pid, j: Journal, left: nat, steps: nat)
    returns (moves: seq<Move>)
    requires s.roots != [] && p in w.procs && w.procs[p] == Recovering(j, left)
    requires w.disk.transaction.Some? && left <= |j.entries|
    ensures WorldAfter(s, w, moves) == Some(AfterRollback(w, p, UndoMany(Undoing(w.disk, left), j, steps)))
    decreases steps
  {
    moves := [];
    if steps == 0 {
      NoUndoYet(w, p, j, left);
    } else {
      UndoIsAMove(s, w, p, j, left);
      RollbackShrinks(Undoing(w.disk, left), j);
      var r := UndoNext(Undoing(w.disk, left), j);
      var u := AfterRollback(w, p, r);
      AfterOne(s, w, [], w, p, UndoOne, u);
      moves := [] + [Move(p, UndoOne)];
      if r.Undoing? {
        var end := UndoMany(r, j, steps - 1);
        RollbackGoesOn(w, p, j, left, r, end);
        var more := UndoManyMoves(s, u, p, j, r.left, steps - 1);
        AfterSum(s, w, moves, u, more);
        moves := moves + more;
      }
    }
  }

  lemma {:induction false} WaitingIsPassedBy(a: Workspace, d: Disk, left: nat, end: nat)
    requires d.transaction.Some?
    requires var t := d.transaction.value;
      t.journal == Some(JournalOf(t.maker, t.job)) && end <= left <= |t.job.entries|
      && forall i :: end <= i < left ==> EntryIs(a, d, t, i, Waiting)
    ensures var t := d.transaction.value;
      && |t.journal.value.entries| == |t.job.entries|
      && UndoMany(Undoing(d, left), t.journal.value, left - end) == Undoing(d, end)
    decreases left
  {
    var t := d.transaction.value;
    if end < left {
      var i := left - 1;
      JournalMatches(t.maker, t.job, i);
      assert EntryIs(a, d, t, i, Waiting);
      assert UndoNext(Undoing(d, left), t.journal.value) == Undoing(d, i);
      WaitingIsPassedBy(a, d, i, end);
    }
  }

  /* The rollback over an entry that is gone. */

  function Refilled(d: Disk, directory: string, tree: Tree): Disk {
    d.(dirs := d.dirs[directory := tree])
  }

  function RefilledEnd(r: Rollback, directory: string, tree: Tree): Rollback {
    match r
    case Undoing(d, left) => Undoing(Refilled(d, directory, tree), left)
    case Undone(d) => Undone(Refilled(d, directory, tree))
    case Conflicted(d) => Conflicted(Refilled(d, directory, tree))
  }

  /** Steps on earlier entries neither see nor touch the directory of a later one. */
  lemma UndoNextElsewhere(job: Job, d: Disk, left: nat, p: Pid, i: nat, tree: Tree)
    requires left <= i < |job.entries| && Apart(job) && d.transaction.Some? && Directory(job, i) !in d.dirs
    ensures |JournalOf(p, job).entries| == |job.entries|
    ensures var next := UndoNext(Undoing(d, left), JournalOf(p, job));
      && Directory(job, i) !in next.disk.dirs
      && UndoNext(Undoing(Refilled(d, Directory(job, i), tree), left), JournalOf(p, job))
         == RefilledEnd(next, Directory(job, i), tree)
  {
    hide DirectoryHashes;
    if left > 0 {
      var x, y := Directory(job, i), Directory(job, left - 1);
      JournalMatches(p, job, left - 1);
      assert Directory(job, left - 1) != Directory(job, i);
      assert d.dirs[x := tree] - {y} == (d.dirs - {y})[x := tree];
      if left - 1 in d.transaction.value.backups {
        var b := d.transaction.value.backups[left - 1];
        assert d.dirs[x := tree][y := b] == d.dirs[y := b][x := tree];
      }
    }
  }

  lemma {:induction false} RollbackElsewhere(job: Job, d: Disk, left: nat, p: Pid, i: nat, tree: Tree)
    requires left <= i < |job.entries| && Apart(job) && d.transaction.Some? && Directory(job, i) !in d.dirs
    requires |JournalOf(p, job).entries| == |job.entries|
    ensures var end := RunRollback(Undoing(d, left), JournalOf(p, job));
      && Directory(job, i) !in end.disk.dirs
      && RunRollback(Undoing(Refilled(d, Directory(job, i), tree), left), JournalOf(p, job))
         == RefilledEnd(end, Directory(job, i), tree)
    decreases left, d.dirs.Keys
  {
    hide UndoNext;
    var j := JournalOf(p, job);
    UndoNextElsewhere(job, d, left, p, i, tree);
    RollbackShrinks(Undoing(d, left), j);
    var next := UndoNext(Undoing(d, left), j);
    if next.Undoing? {
      RollbackElsewhere(job, next.disk, next.left, p, i, tree);
    }
  }

  /** The disk of an install that was interrupted once entry i, an update to the same files, was
      placed and none after it. */
  ghost predicate PlacedUpTo(s: Settings, a: Workspace, d: Disk, job: Job, i: nat) {
    && SoundJob(s, job) && i < |job.entries| && d.transaction.Some? && d.transaction.value.job == job
    && StandsAt(a, d, d.transaction.value, Moving(i + 1, false))
    && SameHashes(job.entries[i].installed, job.entries[i].previous)
  }

  /** The same disk with entry i put back from its backup. */
  function PutBackAt(d: Disk, directory: string, i: nat): Disk
    requires d.transaction.Some? && i in d.transaction.value.backups
  {
    var t := d.transaction.value;
    Transact(d.(dirs := d.dirs[directory := t.backups[i]]), t.(backups := t.backups - {i}))
  }

  lemma PlacedSteps(s: Settings, a: Workspace, d: Disk, job: Job, i: nat)
    requires PlacedUpTo(s, a, d, job, i)
    ensures var t, x := d.transaction.value, Directory(job, i);
      && t.journal == Some(JournalOf(t.maker, job)) && |t.journal.value.entries| == |job.entries|
      && i in t.backups && Lookup(a.dirs, x) == Some(t.backups[i]) && i !in t.stages
      && DirectoryHashes(t.backups[i]) == job.entries[i].installed.files
      && UndoNext(Undoing(d, i + 1), t.journal.value) == Undoing(WithoutDirectory(d, x), i + 1)
      && UndoNext(Undoing(WithoutDirectory(d, x), i + 1), t.journal.value) == Undoing(PutBackAt(d, x, i), i)
  {
    hide GoodJob, EntryKnown, Elsewhere, LockKnown, Apart;
    var t, x := d.transaction.value, Directory(job, i);
    JournalMatches(t.maker, job, i);
    assert EntryIs(a, d, t, i, Placed) && job.entries[i] in job.entries;
    assert (d.dirs - {x})[x := t.backups[i]] == d.dirs[x := t.backups[i]];
  }

  /** A recovery passes over what was never moved, takes entry i out and puts its backup back. */
  lemma PlacedComesBack(s: Settings, a: Workspace, d: Disk, job: Job, i: nat) returns (steps: nat)
    requires PlacedUpTo(s, a, d, job, i)
    ensures var t := d.transaction.value;
      && t.journal == Some(JournalOf(t.maker, job)) && |t.journal.value.entries| == |job.entries| && i in t.backups
      && UndoMany(Undoing(d, |job.entries|), t.journal.value, steps) == Undoing(PutBackAt(d, Directory(job, i), i), i)
  {
    hide UndoNext, EntryIs, SoundJob, EntryKnown;
    var t, n := d.transaction.value, |job.entries|;
    PlacedSteps(s, a, d, job, i);
    WaitingIsPassedBy(a, d, n, i + 1);
    steps := n - (i + 1);
    UndoManyMore(Undoing(d, n), t.journal.value, steps);
    UndoManyMore(Undoing(d, n), t.journal.value, steps + 1);
    steps := steps + 2;
  }

  lemma BackChangesOne(s: Settings, a: Workspace, d: Disk, job: Job, i: nat)
    requires PlacedUpTo(s, a, d, job, i) && i in d.transaction.value.backups
    ensures var back := PutBackAt(d, Directory(job, i), i);
      && OnlyChanges(d, back, i, Directory(job, i)) && EntryIs(a, back, back.transaction.value, i, Restored)
  {
    hide UndoNext, GoodJob, HashesMatch, EntryKnown, Elsewhere, LockKnown, Apart;
    PlacedSteps(s, a, d, job, i);
    assert EntryIs(a, d, d.transaction.value, i, Placed);
  }

  /** What is then on the disk: entry i restored, the ones after it as they were. */
  lemma BackStands(s: Settings, a: Workspace, d: Disk, job: Job, i: nat)
    requires PlacedUpTo(s, a, d, job, i) && i in d.transaction.value.backups
    ensures var back := PutBackAt(d, Directory(job, i), i);
      var u := back.transaction.value;
      && Journaling(a, back, u) && HomeFrom(a, back, u, i) && Fresh(back, u, u.journal.value, i)
      && u.maker == d.transaction.value.maker && u.job == job && u.journal == d.transaction.value.journal
      && back.lock == a.lock == job.previous
      && forall k :: i < k < |job.entries| ==> EntryIs(a, back, u, k, Waiting)
  {
    hide UndoNext, GoodJob, HashesMatch, EntryKnown, Elsewhere, LockKnown, OnlyChanges, InPhase;
    var t, x := d.transaction.value, Directory(job, i);
    var back := PutBackAt(d, x, i);
    var u := back.transaction.value;
    BackChangesOne(s, a, d, job, i);
    EntryMoves(a, d, back, i, Restored);
    forall k | i < k < |job.entries| ensures EntryIs(a, back, u, k, Waiting) && EntryHome(a, back, u, k) {
      assert EntryIs(a, d, t, k, Waiting);
    }
    forall k | 0 <= k < i ensures EntryIs(a, back, u, k, Placed) {
      assert EntryIs(a, d, t, k, Placed);
    }
    PlacedIsFresh(a, back, u, i);
  }

  lemma PlacedIsFresh(a: Workspace, d: Disk, t: Transaction, left: nat)
    requires Journaling(a, d, t) && left <= |t.job.entries|
    requires forall k :: 0 <= k < left ==> EntryIs(a, d, t, k, Placed)
    ensures Fresh(d, t, t.journal.value, left)
  {
    hide EntryKnown, Elsewhere, LockKnown;
    forall k | 0 <= k < left
      ensures !Unguarded(ViewOf(d, t, k, t.journal.value.entries[k].installed.directory),
                         t.journal.value.entries[k].installed, t.journal.value.entries[k].previous)
    {
      JournalMatches(t.maker, t.job, k);
      assert EntryIs(a, d, t, k, Placed);
    }
  }

  /** A second recovery takes the old directory for the new one; the rest it restores. */
  lemma BackIsLost(s: Settings, a: Workspace, d: Disk, job: Job, i: nat) returns (end: Disk)
    requires PlacedUpTo(s, a, d, job, i) && i in d.transaction.value.backups
    ensures var back := PutBackAt(d, Directory(job, i), i);
      && d.transaction.value.journal.Some? && |d.transaction.value.journal.value.entries| == |job.entries|
      && RunRollback(Undoing(back, |job.entries|), d.transaction.value.journal.value) == Undone(end)
    ensures Directory(job, i) in a.dirs && end.dirs == a.dirs - {Directory(job, i)} && end.lock == a.lock
  {
    hide GoodJob, HashesMatch, EntryKnown, Elsewhere, LockKnown, UndoNext, Fresh, EntryHome;
    var t, x, n := d.transaction.value, Directory(job, i), |job.entries|;
    var back := PutBackAt(d, x, i);
    var j, gone := t.journal.value, WithoutDirectory(back, x);
    PlacedSteps(s, a, d, job, i);
    BackStands(s, a, d, job, i);
    WaitingIsPassed(a, back, n, i + 1);
    TakenOutAgain(job, back, t.maker, i);
    RollbackElsewhere(job, gone, i, t.maker, i, back.dirs[x]);
    assert Refilled(gone, x, back.dirs[x]) == back;
    RollbackRestores(s, a, back, i);
    end := RunRollback(Undoing(gone, i), j).disk;
    assert Refilled(end, x, back.dirs[x]).dirs - {x} == end.dirs;
  }

  lemma TakenOutAgain(job: Job, d: Disk, p: Pid, i: nat)
    requires i < |job.entries| && Bare(d, job, i)
    ensures |JournalOf(p, job).entries| == |job.entries|
    ensures RunRollback(Undoing(d, i + 1), JournalOf(p, job))
         == RunRollback(Undoing(WithoutDirectory(d, Directory(job, i)), i), JournalOf(p, job))
  {
    var j, gone := JournalOf(p, job), WithoutDirectory(d, Directory(job, i));
    JournalMatches(p, job, i);
    assert UndoNext(Undoing(d, i + 1), j) == Undoing(gone, i + 1);
    assert UndoNext(Undoing(gone, i + 1), j) == Undoing(gone, i);
  }

  /* Recoveries as moves. */

  /** The transaction holds this journal, and the process that wrote it is gone. */
  ghost predicate LeftBehind(w: World, j: Journal) {
    w.disk.transaction.Some? && w.disk.transaction.value.journal == Some(j) && !Alive(w, j.pid)
  }

  lemma RecoveryStarts(s: Settings, w: World, p: Pid, j: Journal)
    requires s.roots != [] && p in w.procs && w.procs[p] == Idle && LeftBehind(w, j)
    ensures Perform(s, w, p, StartRecovery) == Some(Become(w, p, Recovering(j, |j.entries|)))
  {
  }

  lemma RecoveryCrashes(s: Settings, w: World, p: Pid, j: Journal, left: nat)
    requires s.roots != [] && p in w.procs && w.procs[p] == Recovering(j, left)
    ensures Perform(s, w, p, Crash) == Some(Become(w, p, Stopped))
  {
  }

  lemma RecoveryDrops(s: Settings, w: World, p: Pid, owner: Pid)
    requires s.roots != [] && p in w.procs && w.procs[p] == Clearing(owner)
    ensures Perform(s, w, p, Drop) == Some(Become(WithDisk(w, w.disk.(transaction := None)), p, Stopped))
  {
  }

  /** A recovery that dies after some steps. */
  lemma RecoveryIsCut(s: Settings, w: World, p: Pid, j: Journal, steps: nat, d: Disk, left: nat)
    returns (moves: seq<Move>, v: World)
    requires s.roots != [] && p in w.procs && w.procs[p] == Idle && LeftBehind(w, j)
    requires UndoMany(Undoing(w.disk, |j.entries|), j, steps) == Undoing(d, left)
    ensures WorldAfter(s, w, moves) == Some(v) && v.disk == d && v.procs == w.procs[p := Stopped]
  {
    hide Perform, UndoMany;
    RecoveryStarts(s, w, p, j);
    var u := Become(w, p, Recovering(j, |j.entries|));
    var first := OneMove(s, w, p, StartRecovery, u);
    var more := UndoManyMoves(s, u, p, j, |j.entries|, steps);
    AfterSum(s, w, first, u, more);
    var x := AfterRollback(u, p, Undoing(d, left));
    RecoveryCrashes(s, x, p, j, left);
    v := Become(x, p, Stopped);
    AfterOne(s, w, first + more, x, p, Crash, v);
    moves := first + more + [Move(p, Crash)];
  }

  /** A recovery that comes to the end of its rollback, and has the transaction still to remove. */
  lemma RecoveryClears(s: Settings, w: World, p: Pid, j: Journal, end: Disk) returns (moves: seq<Move>, v: World)
    requires s.roots != [] && p in w.procs && w.procs[p] == Idle && LeftBehind(w, j)
    requires RunRollback(Undoing(w.disk, |j.entries|), j) == Undone(end)
    ensures WorldAfter(s, w, moves) == Some(v) && v.disk == end && v.procs == w.procs[p := Clearing(j.pid)]
  {
    hide Perform, UndoMany, RunRollback;
    RecoveryStarts(s, w, p, j);
    var u := Become(w, p, Recovering(j, |j.entries|));
    var first := OneMove(s, w, p, StartRecovery, u);
    var steps := RollbackEnds(Undoing(w.disk, |j.entries|), j);
    var more := UndoManyMoves(s, u, p, j, |j.entries|, steps);
    AfterSum(s, w, first, u, more);
    v := AfterRollback(u, p, Undone(end));
    moves := first + more;
  }

  /** A recovery that ends. */
  lemma RecoveryEnds(s: Settings, w: World, p: Pid, j: Journal, end: Disk) returns (moves: seq<Move>, v: World)
    requires s.roots != [] && p in w.procs && w.procs[p] == Idle && LeftBehind(w, j)
    requires RunRollback(Undoing(w.disk, |j.entries|), j) == Undone(end)
    ensures WorldAfter(s, w, moves) == Some(v) && v.disk == end.(transaction := None)
        && v.procs == w.procs[p := Stopped]
  {
    hide Perform, RunRollback;
    var first, u := RecoveryClears(s, w, p, j, end);
    RecoveryDrops(s, u, p, j.pid);
    v := Become(WithDisk(u, end.(transaction := None)), p, Stopped);
    AfterOne(s, w, first, u, p, Drop, v);
    moves := first + [Move(p, Drop)];
  }

  /* An installer that dies. */

  /** The world left by an installer that died where it stood. */
  ghost predicate DiedAt(s: Settings, w: World, v: World, p: Pid, job: Job, at: Point) {
    && v.procs == w.procs[p := Stopped]
    && SoundJob(s, job) && v.disk.transaction.Some?
    && v.disk.transaction.value.maker == p && v.disk.transaction.value.job == job
    && Tracks(s, OnDisk(w.disk), v.disk)
    && StandsAt(OnDisk(w.disk), v.disk, v.disk.transaction.value, at)
  }

  lemma DiesHere(s: Settings, w: World, moves: seq<Move>, u: World, p: Pid, job: Job, at: Point)
    returns (longer: seq<Move>, v: World)
    requires KnownAt(s, u, OnDisk(w.disk), p, Holding(job, at)) && s.roots != []
    requires WorldAfter(s, w, moves) == Some(u) && OnlyItself(w, u, p)
    ensures WorldAfter(s, w, longer) == Some(v) && DiedAt(s, w, v, p, job, at)
  {
    hide Inv, Perform, WorldAfter, StandsAt, Tracks, SoundJob;
    HolderStands(s, u, OnDisk(w.disk), p, job, at);
    CrashStops(s, u, p, job, at);
    v := Become(u, p, Stopped);
    AfterOne(s, w, moves, u, p, Crash, v);
    longer := moves + [Move(p, Crash)];
  }

  /** A planned install gets to where the entries before end are in place. */
  lemma InstallsUpTo(s: Settings, w: World, a: Workspace, p: Pid, job: Job, end: nat)
    returns (moves: seq<Move>, v: World)
    requires KnownAt(s, w, a, p, Ready(job)) && w.disk.transaction.None?
    requires a.lock == job.previous && Installable(a, job) && end <= |job.entries|
    ensures WorldAfter(s, w, moves) == Some(v) && OnlyItself(w, v, p)
    ensures KnownAt(s, v, a, p, Holding(job, Moving(end, false)))
  {
    assert s.roots != [];
    hide Inv, Perform, PerformHolding, Installable, OnlyItself, WorldAfter;
    var m1, u1 := Prepares(s, w, a, p, job);
    var m2, u2 := Commences(s, u1, a, p, job);
    var m3;
    m3, v := MoveUpTo(s, u2, a, p, job, 0, end);
    m1 := Joined(s, w, m1, u1, m2, u2, p);
    moves := Joined(s, w, m1, u2, m3, v, p);
  }

  lemma Journals(s: Settings, w: World, a: Workspace, p: Pid, job: Job) returns (moves: seq<Move>, v: World)
    requires KnownAt(s, w, a, p, Ready(job)) && w.disk.transaction.None? && a.lock == job.previous
    ensures WorldAfter(s, w, moves) == Some(v) && OnlyItself(w, v, p)
    ensures KnownAt(s, v, a, p, Holding(job, Journaled))
  {
    hide Perform, PerformHolding, StandsAt, Tracks;
    var u;
    moves, u := Prepares(s, w, a, p, job);
    HolderStands(s, u, a, p, job, Owned(|job.entries|));
    v := CanJournal(s, u, a, p, job);
    var last := Go(s, u, a, p, WriteJournal, v);
    moves := Joined(s, w, moves, u, last, v, p);
  }

  lemma ReadyIsOnlyItself(w: World, p: Pid, job: Job)
    ensures OnlyItself(w, Become(w, p, Ready(job)), p)
  {
  }

  /** An installer dies with the entries up to i in place. */
  lemma DiesHalfway(s: Settings, w: World, p: Pid, plan: Plan, planned: Result<Job, InstallError>, i: nat)
    returns (moves: seq<Move>, v: World)
    requires s.roots != [] && AtStart(w) && p in w.procs
    requires planned == PlanInstall(s, w.disk.lock, w.disk.dirs, plan) && planned.Ok? && i < |planned.value.entries|
    ensures WorldAfter(s, w, moves) == Some(v) && DiedAt(s, w, v, p, planned.value, Moving(i + 1, false))
  {
    hide Inv, Perform, Installable, PlanInstall, WorldAfter, SoundJob, Tracks, StandsAt, OnlyItself;
    var job, a := planned.value, OnDisk(w.disk);
    StartIsSeen(s, w);
    var m1, u1 := GetsReady(s, w, a, p, plan, planned);
    ReadyIsOnlyItself(w, p, job);
    var m2, u2 := InstallsUpTo(s, u1, a, p, job, i + 1);
    m1 := Joined(s, w, m1, u1, m2, u2, p);
    moves, v := DiesHere(s, w, m1, u2, p, job, Moving(i + 1, false));
  }

  /** An installer dies with its journal written and nothing moved. */
  lemma DiesJournaled(s: Settings, w: World, p: Pid, plan: Plan, planned: Result<Job, InstallError>)
    returns (moves: seq<Move>, v: World)
    requires s.roots != [] && AtStart(w) && p in w.procs
    requires planned == PlanInstall(s, w.disk.lock, w.disk.dirs, plan) && planned.Ok?
    ensures WorldAfter(s, w, moves) == Some(v) && DiedAt(s, w, v, p, planned.value, Journaled)
    ensures w.disk.lock == planned.value.previous
  {
    hide Inv, Perform, Installable, PlanInstall, WorldAfter, SoundJob, Tracks, StandsAt, OnlyItself;
    var job, a := planned.value, OnDisk(w.disk);
    StartIsSeen(s, w);
    var m1, u1 := GetsReady(s, w, a, p, plan, planned);
    ReadyIsOnlyItself(w, p, job);
    var m2, u2 := Journals(s, u1, a, p, job);
    m1 := Joined(s, w, m1, u1, m2, u2, p);
    moves, v := DiesHere(s, w, m1, u2, p, job, Journaled);
  }

  /** The unguarded entry is reached: whatever plan updates some module to the very files it has,
      there is a run in which an installer dies, a recovery dies after putting that module back,
      and a second recovery ends well, no transaction left, with that module's directory gone and
      everything else as before. */
  lemma RecoveringTwiceLosesADirectory(s: Settings, w: World, p: Pid, q: Pid, r: Pid, plan: Plan, i: nat)
    returns (moves: seq<Move>, v: World)
    requires s.roots != [] && AtStart(w) && p in w.procs && q in w.procs && r in w.procs && p != q && q != r && p != r
    requires PlanInstall(s, w.disk.lock, w.disk.dirs, plan).Ok?
    requires var job := PlanInstall(s, w.disk.lock, w.disk.dirs, plan).value;
      i < |job.entries| && SameHashes(job.entries[i].installed, job.entries[i].previous)
    ensures WorldAfter(s, w, moves) == Some(v) && v.disk.transaction.None? && v.disk.lock == w.disk.lock
    ensures var directory := Directory(PlanInstall(s, w.disk.lock, w.disk.dirs, plan).value, i);
      directory in w.disk.dirs && v.disk.dirs == w.disk.dirs - {directory}
  {
    hide PlanInstall, WorldAfter, Perform, SoundJob, RunRollback, UndoMany;
    var planned := PlanInstall(s, w.disk.lock, w.disk.dirs, plan);
    var job, a := planned.value, OnDisk(w.disk);
    var first, u1 := DiesHalfway(s, w, p, plan, planned, i);
    assert PlacedUpTo(s, a, u1.disk, job, i);
    var j := u1.disk.transaction.value.journal.value;
    var steps := PlacedComesBack(s, a, u1.disk, job, i);
    var back := PutBackAt(u1.disk, Directory(job, i), i);
    var second, u2 := RecoveryIsCut(s, u1, q, j, steps, back, i);
    var end := BackIsLost(s, a, u1.disk, job, i);
    var third;
    third, v := RecoveryEnds(s, u2, r, j, end);
    AfterSum(s, w, first, u1, second);
    AfterSum(s, w, first + second, u2, third);
    moves := first + second + third;
  }

  /* Recoveries that go on when their transaction is gone. */

  /** Without a transaction, and with nothing running but recoveries of the dead. */
  lemma LateRecoveriesAreKnown(s: Settings, v: World)
    requires s.roots != [] && v.disk.transaction.None?
    requires forall p :: p in v.procs ==>
      v.procs[p] == Idle || v.procs[p] == Stopped || (Recovers(v.procs[p]) && !Alive(v, DeadOwner(v.procs[p])))
    ensures Inv(s, v, OnDisk(v.disk))
  {
  }

  /** Rolling back a journal of which nothing was moved changes nothing. */
  lemma NothingToUndo(s: Settings, w: World, v: World, p: Pid, job: Job)
    requires DiedAt(s, w, v, p, job, Journaled) && w.disk.lock == job.previous && w.disk.transaction.None?
    ensures |JournalOf(p, job).entries| == |job.entries|
    ensures v.disk.transaction.Some? && v.disk.transaction.value.journal == Some(JournalOf(p, job))
    ensures RunRollback(Undoing(v.disk, |job.entries|), JournalOf(p, job)) == Undone(v.disk)
    ensures v.disk.(transaction := None) == w.disk
  {
    hide EntryKnown, SoundJob, LockKnown;
    var a, d, t := OnDisk(w.disk), v.disk, v.disk.transaction.value;
    forall i | 0 <= i < |job.entries| ensures EntryHome(a, d, t, i) {
      assert EntryIs(a, d, t, i, Waiting);
    }
    AllHomeIsUntouched(s, a, d, t);
    WaitingIsPassed(a, d, |job.entries|, 0);
    assert UndoNext(Undoing(d, 0), JournalOf(p, job)) == Undone(d);
  }

  predicate FourProcesses(w: World, p: Pid, q: Pid, r1: Pid, r2: Pid) {
    && p in w.procs && q in w.procs && r1 in w.procs && r2 in w.procs
    && p != q && p != r1 && p != r2 && q != r1 && q != r2 && r1 != r2
  }

  /** An installer dies, two recoveries read its journal, and one of them comes to its end. */
  lemma StaleIsLeft(s: Settings, w: World, p: Pid, r1: Pid, r2: Pid, plan: Plan, planned: Result<Job, InstallError>)
    returns (moves: seq<Move>, v: World)
    requires s.roots != [] && AtStart(w) && p in w.procs && r1 in w.procs && r2 in w.procs
    requires p != r1 && p != r2 && r1 != r2
    requires planned == PlanInstall(s, w.disk.lock, w.disk.dirs, plan) && planned.Ok?
    ensures WorldAfter(s, w, moves) == Some(v) && v.disk == w.disk && Inv(s, v, OnDisk(w.disk))
    ensures v.procs
         == w.procs[p := Stopped][r2 := Recovering(JournalOf(p, planned.value), |planned.value.entries|)][r1 := Stopped]
  {
    hide PlanInstall, Perform, WorldAfter, RunRollback, SoundJob, StandsAt;
    var job, j := planned.value, JournalOf(p, planned.value);
    var first, u1 := DiesJournaled(s, w, p, plan, planned);
    NothingToUndo(s, w, u1, p, job);
    RecoveryStarts(s, u1, r2, j);
    var u2 := Become(u1, r2, Recovering(j, |job.entries|));
    AfterOne(s, w, first, u1, r2, StartRecovery, u2);
    moves := first + [Move(r2, StartRecovery)];
    var more;
    more, v := RecoveryEnds(s, u2, r1, j, u1.disk);
    AfterSum(s, w, moves, u2, more);
    moves := moves + more;
    LateRecoveriesAreKnown(s, v);
  }

  /** A journal of the same job, written by another process, takes out what is in place. */
  lemma TakesOutTheLast(s: Settings, w: World, a: Workspace, q: Pid, job: Job, p: Pid)
    requires KnownAt(s, w, a, q, Holding(job, Sealed)) && job.entries != []
    ensures |JournalOf(p, job).entries| == |job.entries| && w.disk.transaction.Some? && w.disk.lock == Some(job.next)
    ensures UndoNext(Undoing(w.disk, |job.entries|), JournalOf(p, job))
         == Undoing(WithoutDirectory(w.disk, Directory(job, |job.entries| - 1)), |job.entries|)
  {
    HolderStands(s, w, a, q, job, Sealed);
    SealedLast(s, w, a, q, job, p);
  }

  lemma SealedLast(s: Settings, w: World, a: Workspace, q: Pid, job: Job, p: Pid)
    requires Stands(s, w, a, q, job, Sealed) && SoundJob(s, job) && job.entries != []
    ensures |JournalOf(p, job).entries| == |job.entries| && w.disk.lock == Some(job.next)
    ensures UndoNext(Undoing(w.disk, |job.entries|), JournalOf(p, job))
         == Undoing(WithoutDirectory(w.disk, Directory(job, |job.entries| - 1)), |job.entries|)
  {
    hide GoodJob, EntryKnown, Elsewhere, LockKnown, Apart;
    var i := |job.entries| - 1;
    JournalMatches(p, job, i);
    assert EntryIs(a, w.disk, w.disk.transaction.value, i, Placed) && job.entries[i] in job.entries;
  }

  /** The stale recovery takes its step, and the installer finishes over it. */
  lemma FinishesOverStale(s: Settings, w: World, a: Workspace, q: Pid, job: Job, p: Pid, r: Pid)
    returns (moves: seq<Move>, v: World)
    requires KnownAt(s, w, a, q, Holding(job, Sealed)) && job.entries != [] && q != r && s.roots != []
    requires r in w.procs && w.procs[r] == Recovering(JournalOf(p, job), |job.entries|)
    ensures WorldAfter(s, w, moves) == Some(v)
    ensures v.disk.transaction.None? && v.disk.lock == Some(job.next)
    ensures v.disk.dirs == w.disk.dirs - {Directory(job, |job.entries| - 1)}
  {
    hide Inv, UndoNext, WorldAfter, PlanInstall;
    var n, j := |job.entries|, JournalOf(p, job);
    TakesOutTheLast(s, w, a, q, job, p);
    UndoIsAMove(s, w, r, j, n);
    var u := AfterRollback(w, r, UndoNext(Undoing(w.disk, n), j));
    v := Become(WithDisk(u, u.disk.(transaction := None)), q, Stopped);
    assert Perform(s, u, q, Finish) == Some(v);
    moves := AfterTwo(s, w, Move(r, UndoOne), u, Move(q, Finish), v);
  }

  /** A recovery that goes on over the transaction of another installer can harm a finished install:
      whatever plan passes its checks, there is a run in which two recoveries read the journal of
      a dead installer, one ends, another installer applies the plan, and the second recovery,
      going on, takes away a module of it before it finishes. */
  lemma RecoveringAtOnceLosesAModule(s: Settings, w: World, p: Pid, q: Pid, r1: Pid, r2: Pid, plan: Plan)
    returns (moves: seq<Move>, v: World)
    requires s.roots != [] && AtStart(w) && FourProcesses(w, p, q, r1, r2)
    requires PlanInstall(s, w.disk.lock, w.disk.dirs, plan).Ok?
    requires PlanInstall(s, w.disk.lock, w.disk.dirs, plan).value.entries != []
    ensures WorldAfter(s, w, moves) == Some(v) && v.disk.transaction.None?
    ensures var job := PlanInstall(s, w.disk.lock, w.disk.dirs, plan).value;
      v.disk.lock == Some(job.next) && Directory(job, |job.entries| - 1) !in v.disk.dirs
  {
    hide PlanInstall, Perform, Inv, WorldAfter, SoundJob, Installable;
    var planned, a := PlanInstall(s, w.disk.lock, w.disk.dirs, plan), OnDisk(w.disk);
    var job := planned.value;
    var m1, u1 := StaleIsLeft(s, w, p, r1, r2, plan, planned);
    var m2, u2 := GetsReady(s, u1, a, q, plan, planned);
    var m3, u3 := Seals(s, u2, a, q, job);
    var m4;
    m4, v := FinishesOverStale(s, u3, a, q, job, p, r2);
    AfterSum(s, w, m1, u1, m2);
    AfterSum(s, w, m1 + m2, u2, m3);
    AfterSum(s, w, m1 + m2 + m3, u3, m4);
    moves := m1 + m2 + m3 + m4;
  }

  /** An installer dies, two recoveries undo what it left, and one of them removes its transaction. */
  lemma LateCleanerIsLeft(s: Settings, w: World, p: Pid, r1: Pid, r2: Pid, plan: Plan,
                          planned: Result<Job, InstallError>)
    returns (moves: seq<Move>, v: World)
    requires s.roots != [] && AtStart(w) && p in w.procs && r1 in w.procs && r2 in w.procs
    requires p != r1 && p != r2 && r1 != r2
    requires planned == PlanInstall(s, w.disk.lock, w.disk.dirs, plan) && planned.Ok?
    ensures WorldAfter(s, w, moves) == Some(v) && v.disk == w.disk && Inv(s, v, OnDisk(w.disk))
    ensures v.procs == w.procs[p := Stopped][r2 := Clearing(p)][r1 := Stopped]
  {
    hide PlanInstall, Perform, WorldAfter, RunRollback, SoundJob, StandsAt;
    var job, j := planned.value, JournalOf(p, planned.value);
    var m1, u1 := DiesJournaled(s, w, p, plan, planned);
    NothingToUndo(s, w, u1, p, job);
    var m2, u2 := RecoveryClears(s, u1, r2, j, u1.disk);
    var m3;
    m3, v := RecoveryEnds(s, u2, r1, j, u1.disk);
    AfterSum(s, w, m1, u1, m2);
    AfterSum(s, w, m1 + m2, u2, m3);
    moves := m1 + m2 + m3;
    LateRecoveriesAreKnown(s, v);
  }

  /** The directory of entry i is in its backup, the late recovery removes the transaction it
      takes for the old one, and the installer dies. */
  lemma BackupIsDropped(s: Settings, w: World, a: Workspace, q: Pid, job: Job, i: nat, r: Pid, owner: Pid)
    returns (moves: seq<Move>, v: World)
    requires KnownAt(s, w, a, q, Holding(job, Moving(i, false))) && Installable(a, job) && s.roots != []
    requires i < |job.entries| && job.entries[i].previous.Some?
    requires r in w.procs && w.procs[r] == Clearing(owner) && q != r
    ensures WorldAfter(s, w, moves) == Some(v) && v.disk.transaction.None? && v.disk.lock == a.lock
    ensures Directory(job, i) !in v.disk.dirs
  {
    hide Inv, WorldAfter, SoundJob, Tracks, PerformHolding, Journaling;
    HolderStands(s, w, a, q, job, Moving(i, false));
    var u1 := CanMoveAside(s, w, a, q, job, i);
    var m1 := Go(s, w, a, q, MoveAside, u1);
    HolderStands(s, u1, a, q, job, Moving(i, true));
    assert EntryIs(a, u1.disk, u1.disk.transaction.value, i, InstallTheorems.Aside);
    RecoveryDrops(s, u1, r, owner);
    v := Become(WithDisk(u1, u1.disk.(transaction := None)), r, Stopped);
    AfterOne(s, w, m1, u1, r, Drop, v);
    moves := m1 + [Move(r, Drop)];
  }

  lemma UpdatedIsThere(s: Settings, a: Workspace, job: Job, i: nat)
    requires SoundJob(s, job) && Installable(a, job) && i < |job.entries| && job.entries[i].previous.Some?
    ensures Directory(job, i) in a.dirs
        && DirectoryHashes(a.dirs[Directory(job, i)]) == job.entries[i].previous.value.files
  {
    assert job.entries[i] in job.entries && EntryFits(s, Modules(job.previous), job.entries[i]);
  }

  /** A recovery that removes the transaction of another installer takes its backups with it:
      whatever plan updates a module, there is a run in which two recoveries undo what a dead
      installer left, one removes its transaction, another installer applies the plan and has
      moved the module aside, and the second recovery removes that transaction; the module is
      gone, under the lockfile of before. */
  lemma CleaningAtOnceLosesADirectory(s: Settings, w: World, p: Pid, q: Pid, r1: Pid, r2: Pid, plan: Plan, i: nat)
    returns (moves: seq<Move>, v: World)
    requires s.roots != [] && AtStart(w) && FourProcesses(w, p, q, r1, r2)
    requires PlanInstall(s, w.disk.lock, w.disk.dirs, plan).Ok?
    requires var job := PlanInstall(s, w.disk.lock, w.disk.dirs, plan).value;
      i < |job.entries| && job.entries[i].previous.Some?
    ensures WorldAfter(s, w, moves) == Some(v) && v.disk.transaction.None? && v.disk.lock == w.disk.lock
    ensures var directory := Directory(PlanInstall(s, w.disk.lock, w.disk.dirs, plan).value, i);
      directory in w.disk.dirs && directory !in v.disk.dirs
  {
    hide PlanInstall, Perform, Inv, WorldAfter, SoundJob, Installable;
    var planned, a := PlanInstall(s, w.disk.lock, w.disk.dirs, plan), OnDisk(w.disk);
    var job := planned.value;
    var m1, u1 := LateCleanerIsLeft(s, w, p, r1, r2, plan, planned);
    var m2, u2 := GetsReady(s, u1, a, q, plan, planned);
    var m3, u3 := InstallsUpTo(s, u2, a, q, job, i);
    var m4;
    m4, v := BackupIsDropped(s, u3, a, q, job, i, r2, p);
    UpdatedIsThere(s, a, job, i);
    AfterSum(s, w, m1, u1, m2);
    AfterSum(s, w, m1 + m2, u2, m3);
    AfterSum(s, w, m1 + m2 + m3, u3, m4);
    moves := m1 + m2 + m3 + m4;
  }
}
