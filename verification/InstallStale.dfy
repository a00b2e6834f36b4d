/** Recoveries whose transaction is gone: what they still do to the disk, exactly. */
module InstallStale {
  import opened Basics
  import opened Artifact
  import opened InstallPlan
  import opened InstallProtocol
  import opened InstallTheorems
  import opened InstallRefinement
  import opened InstallRuns
  import opened InstallProgress

  /** The recovery finds at the destination what this entry would have installed, and takes it out. */
  predicate Takes(d: Disk, e: JournalEntry) {
    && e.installed.directory in d.dirs
    && DirectoryHashes(d.dirs[e.installed.directory]) == e.installed.files
  }

  /** The recovery finds at the destination neither the new files nor the old ones, and stops. */
  predicate Blocks(d: Disk, e: JournalEntry) {
    && e.installed.directory in d.dirs
    && DirectoryHashes(d.dirs[e.installed.directory]) != e.installed.files
    && !(e.previous.Some? && DirectoryHashes(d.dirs[e.installed.directory]) == e.previous.value.files)
  }

  /** One step without a transaction: nothing has a stage, and nothing a backup. */
  lemma StepWithout(d: Disk, left: nat, j: Journal)
    requires d.transaction.None? && left <= |j.entries|
    ensures RecoverNext(d, left, j)
         == if left == 0 then
              (if d.lock == j.previous || d.lock == Some(j.next) then Undone(d.(lock := j.previous)) else Conflicted(d))
            else
              var e := j.entries[left - 1];
              if Takes(d, e) then Undoing(WithoutDirectory(d, e.installed.directory), left)
              else if Blocks(d, e) then Conflicted(d)
              else Undoing(d, left - 1)
  {
  }

  /** Such a recovery run to its end. */
  function RunRecovery(d: Disk, left: nat, j: Journal): (end: Rollback)
    requires d.transaction.None? && left <= |j.entries|
    ensures !end.Undoing?
    decreases left, d.dirs.Keys
  {
    StepWithout(d, left, j);
    match RecoverNext(d, left, j)
    case Undoing(e, rest) =>
      assert rest == left ==> j.entries[left - 1].installed.directory !in e.dirs;
      RunRecovery(e, rest, j)
    case Undone(e) => Undone(e)
    case Conflicted(e) => Conflicted(e)
  }

  /** It can only take directories away. */
  lemma {:induction false} NothingComesBack(d: Disk, left: nat, j: Journal)
    requires d.transaction.None? && left <= |j.entries|
    ensures RunRecovery(d, left, j).disk.dirs.Keys <= d.dirs.Keys
    decreases left, d.dirs.Keys
  {
    hide RecoverNext;
    StepWithout(d, left, j);
    var next := RecoverNext(d, left, j);
    if next.Undoing? {
      if next.left == left {
        assert j.entries[left - 1].installed.directory !in next.disk.dirs;
      }
      NothingComesBack(next.disk, next.left, j);
    }
  }

  /** Some entry from i on stops the recovery. */
  ghost predicate BlockedFrom(d: Disk, left: nat, j: Journal, i: nat)
    requires left <= |j.entries|
  {
    exists k :: i <= k < left && Blocks(d, j.entries[k])
  }

  /** Nothing is taken out unless the recovery stops before it comes to it. */
  ghost predicate TakesNothing(d: Disk, left: nat, j: Journal)
    requires left <= |j.entries|
  {
    forall i :: 0 <= i < left && Takes(d, j.entries[i]) ==> BlockedFrom(d, left, j, i)
  }

  /** The lockfile is not one that would be taken back, or the recovery stops before it. */
  ghost predicate KeepsLock(d: Disk, left: nat, j: Journal)
    requires left <= |j.entries|
  {
    d.lock == Some(j.next) && j.previous != Some(j.next) ==> BlockedFrom(d, left, j, 0)
  }

  lemma BlockedBelow(d: Disk, left: nat, j: Journal, i: nat)
    requires i < left <= |j.entries|
    ensures Blocks(d, j.entries[left - 1]) ==> BlockedFrom(d, left, j, i)
    ensures !Blocks(d, j.entries[left - 1]) ==> (BlockedFrom(d, left, j, i) <==> BlockedFrom(d, left - 1, j, i))
  {
    hide Blocks;
    if k :| i <= k < left && Blocks(d, j.entries[k]) {
      assert k == left - 1 || k < left - 1;
    }
  }

  lemma StepDown(d: Disk, left: nat, j: Journal)
    requires 0 < left <= |j.entries| && !Takes(d, j.entries[left - 1])
    ensures Blocks(d, j.entries[left - 1]) ==> TakesNothing(d, left, j) && KeepsLock(d, left, j)
    ensures !Blocks(d, j.entries[left - 1]) ==>
      (TakesNothing(d, left, j) <==> TakesNothing(d, left - 1, j))
        && (KeepsLock(d, left, j) <==> KeepsLock(d, left - 1, j))
  {
    hide Takes, Blocks, BlockedFrom;
    BlockedBelow(d, left, j, 0);
    forall i | 0 <= i < left
      ensures Blocks(d, j.entries[left - 1]) ==> BlockedFrom(d, left, j, i)
      ensures !Blocks(d, j.entries[left - 1]) ==> (BlockedFrom(d, left, j, i) <==> BlockedFrom(d, left - 1, j, i))
    {
      BlockedBelow(d, left, j, i);
    }
  }

  /** The first entry that would be taken out is not where the recovery stops. */
  lemma TakesIsNotBlocked(d: Disk, left: nat, j: Journal)
    requires 0 < left <= |j.entries| && Takes(d, j.entries[left - 1])
    ensures !TakesNothing(d, left, j)
  {
    assert !BlockedFrom(d, left, j, left - 1);
  }

  /** A recovery without a transaction leaves the disk as it is exactly when it meets, before
      anything it would take out and before the lockfile it would take back, something that is
      neither new nor old. */
  lemma {:induction false} LateRecoveryIsIdleExactly(d: Disk, left: nat, j: Journal)
    requires d.transaction.None? && left <= |j.entries|
    ensures RunRecovery(d, left, j).disk == d <==> TakesNothing(d, left, j) && KeepsLock(d, left, j)
    decreases left
  {
    StepWithout(d, left, j);
    if left > 0 {
      var e := j.entries[left - 1];
      if Takes(d, e) {
        NothingComesBack(WithoutDirectory(d, e.installed.directory), left, j);
        assert e.installed.directory !in RunRecovery(d, left, j).disk.dirs;
        TakesIsNotBlocked(d, left, j);
      } else {
        StepDown(d, left, j);
        if !Blocks(d, e) {
          LateRecoveryIsIdleExactly(d, left - 1, j);
        }
      }
    }
  }

  /** It leaves the disk as it is exactly when each of its steps does. */
  lemma IdleStepByStep(d: Disk, left: nat, j: Journal)
    requires d.transaction.None? && left <= |j.entries|
    ensures var next := RecoverNext(d, left, j);
      RunRecovery(d, left, j).disk == d
      <==> next.disk == d && (next.Undoing? ==> RunRecovery(d, next.left, j).disk == d)
  {
    StepWithout(d, left, j);
    var next := RecoverNext(d, left, j);
    if next.Undoing? && next.left == left {
      NothingComesBack(next.disk, left, j);
      assert j.entries[left - 1].installed.directory in d.dirs;
    }
  }

  lemma AtHomeTakesSameFiles(s: Settings, d: Disk, job: Job, p: Pid, i: nat)
    requires SoundJob(s, job) && Installable(OnDisk(d), job) && i < |job.entries|
    ensures |JournalOf(p, job).entries| == |job.entries|
    ensures !Blocks(d, JournalOf(p, job).entries[i])
    ensures Takes(d, JournalOf(p, job).entries[i]) <==> SameHashes(job.entries[i].installed, job.entries[i].previous)
  {
    JournalMatches(p, job, i);
    assert job.entries[i] in job.entries && EntryFits(s, Modules(job.previous), job.entries[i]);
  }

  /** On the workspace the dead install was planned on, which is where another recovery of it leaves
      the disk: it stays as it is exactly when no update has the very files it replaces. */
  lemma LateRecoveryIsIdleAtHome(s: Settings, d: Disk, job: Job, p: Pid, left: nat)
    requires d.transaction.None? && SoundJob(s, job) && Installable(OnDisk(d), job) && d.lock == job.previous
    requires left <= |job.entries|
    ensures |JournalOf(p, job).entries| == |job.entries|
    ensures RunRecovery(d, left, JournalOf(p, job)).disk == d
       <==> forall i :: 0 <= i < left ==> !SameHashes(job.entries[i].installed, job.entries[i].previous)
  {
    hide SoundJob, Installable, Takes, Blocks;
    var j := JournalOf(p, job);
    assert |j.entries| == |job.entries|;
    LateRecoveryIsIdleExactly(d, left, j);
    forall i | 0 <= i < left
      ensures !Blocks(d, j.entries[i])
      ensures Takes(d, j.entries[i]) <==> SameHashes(job.entries[i].installed, job.entries[i].previous)
    {
      AtHomeTakesSameFiles(s, d, job, p, i);
    }
  }

  /* Benign steps, exactly. */

  /** An unguarded entry is taken out, and then it is nowhere. */
  lemma UnguardedIsTaken(base: Option<Tree>, v: View, e: PlannedEntry)
    requires SomePhase(base, v, e) && Unguarded(v, e.installed, e.previous)
    ensures StepOn(v, e.installed, e.previous) == Remove && !SomePhase(base, ViewAfter(v, Remove), e)
  {
    var phase :| InPhase(base, v, e, phase);
    assert phase == Restored;
  }

  lemma UnguardedStepIsSeen(s: Settings, a: Workspace, d: Disk, left: nat)
    requires d.transaction.Some? && Apart(d.transaction.value.job) && Journaling(a, d, d.transaction.value)
    requires left <= |d.transaction.value.journal.value.entries| == |d.transaction.value.job.entries|
    requires !GuardedAt(d, d.transaction.value, d.transaction.value.journal.value, left)
    ensures UndoNext(Undoing(d, left), d.transaction.value.journal.value).Undoing?
    ensures !Tracks(s, a, UndoNext(Undoing(d, left), d.transaction.value.journal.value).disk)
  {
    hide UndoNext, SomePhase, StepOn, ViewAfter, HomeFrom, Elsewhere, LockKnown, SoundJob, Apart, Unguarded;
    var t, i := d.transaction.value, left - 1;
    JournalMatches(t.maker, t.job, i);
    UndoNextIsStepOn(Undoing(d, left), t.journal.value);
    assert EntryKnown(a, d, t, i);
    UnguardedIsTaken(Lookup(a.dirs, Directory(t.job, i)), ViewOf(d, t, i, Directory(t.job, i)), t.job.entries[i]);
    var e := UndoNext(Undoing(d, left), t.journal.value).disk;
    assert !EntryKnown(a, e, e.transaction.value, i);
  }

  /** A step of a recovery keeps what is seen exactly when it is benign: when its transaction is
      there, if the entry it steps on is not unguarded; when none is, if the disk stays as it is. */
  lemma RecoveryStepIsBenignExactly(s: Settings, w: World, a: Workspace, p: Pid, v: World)
    requires Inv(s, w, a) && p in w.procs && w.procs[p].Recovering?
    requires Perform(s, w, p, UndoOne) == Some(v)
    requires w.disk.transaction.None? || Current(w.disk, w.procs[p].journal.pid)
    ensures Inv(s, v, a) <==> Benign(w, p, UndoOne)
  {
    hide SoundJob, EntryKnown, HomeFrom, Elsewhere, LockKnown, UndoNext, StandsAt, PerformHolding, PlanInstall;
    if Benign(w, p, UndoOne) {
      var b := StepRefines(s, w, a, p, UndoOne, v);
    } else if w.disk.transaction.None? {
      StepWithout(w.disk, w.procs[p].left, w.procs[p].journal);
    } else {
      NotBenignIsSeen(s, w, a, p, v);
    }
  }

  lemma NotBenignIsSeen(s: Settings, w: World, a: Workspace, p: Pid, v: World)
    requires Inv(s, w, a) && p in w.procs && w.procs[p].Recovering? && Current(w.disk, w.procs[p].journal.pid)
    requires Perform(s, w, p, UndoOne) == Some(v) && !Benign(w, p, UndoOne)
    ensures !Inv(s, v, a)
  {
    hide EntryKnown, Elsewhere, LockKnown, UndoNext, StandsAt, PerformHolding, PlanInstall, GoodJob;
    assert ProcessOk(s, a, w.disk, p, w.procs[p]);
    UnguardedStepIsSeen(s, a, w.disk, w.procs[p].left);
  }

  /** A recovery that goes on, with no transaction there, on the workspace its dead install was
      planned on: its step is benign exactly when it is not before an update to the same files. */
  lemma LateStepIsBenignExactly(s: Settings, w: World, p: Pid, job: Job, owner: Pid, left: nat)
    requires p in w.procs && w.procs[p] == Recovering(JournalOf(owner, job), left) && left <= |job.entries|
    requires w.disk.transaction.None? && w.disk.lock == job.previous
    requires SoundJob(s, job) && Installable(OnDisk(w.disk), job)
    ensures Benign(w, p, UndoOne)
       <==> (left > 0 ==> !SameHashes(job.entries[left - 1].installed, job.entries[left - 1].previous))
  {
    hide SoundJob, Installable, Takes, Blocks, RecoverNext;
    var d, j := w.disk, JournalOf(owner, job);
    assert |j.entries| == |job.entries|;
    StepWithout(d, left, j);
    if left > 0 {
      AtHomeTakesSameFiles(s, d, job, owner, left - 1);
      TakenIsGone(d, j.entries[left - 1]);
    }
  }

  lemma TakenIsGone(d: Disk, e: JournalEntry)
    ensures Takes(d, e) ==> WithoutDirectory(d, e.installed.directory) != d
  {
    assert e.installed.directory !in WithoutDirectory(d, e.installed.directory).dirs;
  }
}
