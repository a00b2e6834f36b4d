/** Where the install protocol stops being safe, exactly: a rollback started over an entry that
    was put back over the very same files, and an installer that loses a race to the same plan. */
module InstallLimits {
  import opened Basics
  import opened Artifact
  import opened InstallPlan
  import opened InstallProtocol
  import opened InstallTheorems

  /** A rollback run to its end. */
  function RunRollback(r: Rollback, j: Journal): (end: Rollback)
    requires r.Undoing? ==> r.disk.transaction.Some? && r.left <= |j.entries|
    ensures !end.Undoing?
    decreases if r.Undoing? then r.left + 1 else 0, r.disk.dirs.Keys
  {
    if !r.Undoing? then r
    else
      var next := UndoNext(r, j);
      RollbackShrinks(r, j);
      RunRollback(next, j)
  }

  lemma RollbackShrinks(r: Rollback, j: Journal)
    requires r.Undoing? && r.disk.transaction.Some? && r.left <= |j.entries|
    ensures var next := UndoNext(r, j);
      next.Undoing? ==>
        && next.disk.transaction.Some?
        && (next.left < r.left || (next.left == r.left && next.disk.dirs.Keys < r.disk.dirs.Keys))
  {
    if r.left > 0 {
      var i := r.left - 1;
      UndoNextIsStepOn(r, j);
      var directory := j.entries[i].installed.directory;
      if UndoNext(r, j).Undoing? && UndoNext(r, j).left == r.left {
        assert directory in r.disk.dirs && directory !in UndoNext(r, j).disk.dirs;
      }
    }
  }

  /* Rollback steps in a row. */

  function UndoMany(r: Rollback, j: Journal, steps: nat): Rollback
    requires r.Undoing? ==> r.disk.transaction.Some? && r.left <= |j.entries|
    decreases steps
  {
    if steps == 0 || !r.Undoing? then r
    else
      RollbackShrinks(r, j);
      UndoMany(UndoNext(r, j), j, steps - 1)
  }

  lemma {:induction false} UndoManyMore(r: Rollback, j: Journal, steps: nat)
    requires r.Undoing? && r.disk.transaction.Some? && r.left <= |j.entries|
    ensures var now := UndoMany(r, j, steps);
      && (now.Undoing? ==> now.disk.transaction.Some? && now.left <= |j.entries|)
      && UndoMany(r, j, steps + 1) == (if now.Undoing? then UndoNext(now, j) else now)
    decreases steps
  {
    RollbackShrinks(r, j);
    if steps > 0 && UndoNext(r, j).Undoing? {
      UndoManyMore(UndoNext(r, j), j, steps - 1);
    } else if steps == 0 {
      var next := UndoNext(r, j);
      assert UndoMany(next, j, 0) == next;
    }
  }

  lemma {:induction false} UndoManyEnds(r: Rollback, j: Journal, steps: nat)
    requires r.Undoing? && r.disk.transaction.Some? && r.left <= |j.entries|
    requires !UndoMany(r, j, steps).Undoing?
    ensures UndoMany(r, j, steps) == RunRollback(r, j)
    decreases steps
  {
    RollbackShrinks(r, j);
    if UndoNext(r, j).Undoing? {
      UndoManyEnds(UndoNext(r, j), j, steps - 1);
    }
  }

  lemma {:induction false} RollbackEnds(r: Rollback, j: Journal) returns (steps: nat)
    requires r.Undoing? && r.disk.transaction.Some? && r.left <= |j.entries|
    ensures UndoMany(r, j, steps) == RunRollback(r, j)
    decreases r.left, r.disk.dirs.Keys
  {
    RollbackShrinks(r, j);
    var next := UndoNext(r, j);
    steps := 0;
    if next.Undoing? {
      steps := RollbackEnds(next, j);
    }
    steps := steps + 1;
  }

  /* What a rollback takes away. */

  /** Entry i of the journal installs this directory, and with these files. */
  predicate Installs(d: Disk, j: Journal, i: nat, directory: string, tree: Tree) {
    && d.transaction.Some? && i < |j.entries| && i !in d.transaction.value.stages
    && j.entries[i].installed.directory == directory
    && DirectoryHashes(tree) == j.entries[i].installed.files
  }

  lemma FirstChange(r: Rollback, j: Journal, directory: string)
    requires r.Undoing? && r.disk.transaction.Some? && r.left <= |j.entries| && directory in r.disk.dirs
    ensures var next := UndoNext(r, j);
      && next.disk.transaction.Some? && next.disk.transaction.value.stages == r.disk.transaction.value.stages
      && (next.Undoing? ==> next.left <= r.left)
      && (Lookup(next.disk.dirs, directory) == Some(r.disk.dirs[directory])
          || (r.left > 0 && Installs(r.disk, j, r.left - 1, directory, r.disk.dirs[directory])))
  {
  }

  /** Whatever the disk and the journal, and wherever a rollback is cut off: a directory that is
      gone then, or holds something else, held exactly the files that some entry, moved in and not
      undone yet, installed there. */
  lemma {:induction false} OnlyOwnFilesAreRemoved(r: Rollback, j: Journal, steps: nat, directory: string)
    requires r.Undoing? && r.disk.transaction.Some? && r.left <= |j.entries| && directory in r.disk.dirs
    requires Lookup(UndoMany(r, j, steps).disk.dirs, directory) != Some(r.disk.dirs[directory])
    ensures exists i :: 0 <= i < r.left && Installs(r.disk, j, i, directory, r.disk.dirs[directory])
    decreases steps
  {
    hide UndoNext;
    FirstChange(r, j, directory);
    RollbackShrinks(r, j);
    var next := UndoNext(r, j);
    if Lookup(next.disk.dirs, directory) == Some(r.disk.dirs[directory]) && next.Undoing? && steps > 0 {
      OnlyOwnFilesAreRemoved(next, j, steps - 1, directory);
      var i :| 0 <= i < next.left && Installs(next.disk, j, i, directory, next.disk.dirs[directory]);
      assert Installs(r.disk, j, i, directory, r.disk.dirs[directory]);
    }
  }

  /** So of a whole rollback. */
  lemma RollbackRemovesOwnFiles(r: Rollback, j: Journal, directory: string)
    requires r.Undoing? && r.disk.transaction.Some? && r.left <= |j.entries| && directory in r.disk.dirs
    requires Lookup(RunRollback(r, j).disk.dirs, directory) != Some(r.disk.dirs[directory])
    ensures exists i :: 0 <= i < r.left && Installs(r.disk, j, i, directory, r.disk.dirs[directory])
  {
    var steps := RollbackEnds(r, j);
    OnlyOwnFilesAreRemoved(r, j, steps, directory);
  }

  /* Rolling back a tracked disk. */

  /** A rollback of any tracked disk puts every directory back; it also ends with the lockfile as
      it was, or refuses because another installer has changed it. */
  lemma {:induction false} RollbackRestores(s: Settings, a: Workspace, d: Disk, left: nat)
    requires d.transaction.Some? && SoundJob(s, d.transaction.value.job)
    requires Journaling(a, d, d.transaction.value) && HomeFrom(a, d, d.transaction.value, left)
    requires Fresh(d, d.transaction.value, d.transaction.value.journal.value, left)
    ensures var t := d.transaction.value;
      match RunRollback(Undoing(d, left), t.journal.value)
      case Undone(e) => Untouched(a, e)
      case Conflicted(e) =>
        Untouched(a, e) && e.lock == d.lock && d.lock != t.job.previous && d.lock != Some(t.job.next)
    decreases left, d.dirs.Keys
  {
    var t := d.transaction.value;
    var r := Undoing(d, left);
    UndoKeepsFresh(s, a, d, left);
    UndoKeepsTrack(s, a, d, left);
    RollbackShrinks(r, t.journal.value);
    var next := UndoNext(r, t.journal.value);
    if next.Undoing? {
      assert next.disk.transaction.value.journal == t.journal && next.disk.transaction.value.job == t.job;
      RollbackRestores(s, a, next.disk, next.left);
      RollbackKeepsLock(next, t.journal.value);
      UndoKeepsLock(r, t.journal.value);
    } else if next.Conflicted? {
      AllHomeIsUntouched(s, a, d, t);
    }
  }

  lemma UndoKeepsLock(r: Rollback, j: Journal)
    requires r.Undoing? && r.disk.transaction.Some? && r.left <= |j.entries|
    ensures !UndoNext(r, j).Undone? ==> UndoNext(r, j).disk.lock == r.disk.lock
  {
  }

  lemma {:induction false} RollbackKeepsLock(r: Rollback, j: Journal)
    requires r.Undoing? && r.disk.transaction.Some? && r.left <= |j.entries|
    ensures RunRollback(r, j).Conflicted? ==> RunRollback(r, j).disk.lock == r.disk.lock
    decreases r.left, r.disk.dirs.Keys
  {
    UndoKeepsLock(r, j);
    RollbackShrinks(r, j);
    var next := UndoNext(r, j);
    if next.Undoing? {
      RollbackKeepsLock(next, j);
    }
  }

  /* Updates to the same files. */

  /** A disk on which this job has a journal and the lockfile is still the job's own. */
  ghost predicate Interrupted(a: Workspace, d: Disk, job: Job) {
    && d.transaction.Some? && d.transaction.value.job == job
    && Journaling(a, d, d.transaction.value) && a.lock == job.previous
  }

  /** Rolling back restores the workspace. */
  ghost predicate RollsBack(a: Workspace, d: Disk)
    requires d.transaction.Some? && d.transaction.value.journal.Some?
  {
    var j := d.transaction.value.journal.value;
    var end := RunRollback(Undoing(d, |j.entries|), j);
    end.Undone? && Untouched(a, end.disk)
  }

  /** The destination of entry i is gone for good. */
  ghost predicate Lost(d: Disk, job: Job, i: nat)
    requires i < |job.entries|
  {
    d.transaction.Some? && Directory(job, i) !in d.dirs && i !in d.transaction.value.backups
  }

  lemma LostStaysLost(job: Job, d: Disk, left: nat, p: Pid, i: nat)
    requires i < |job.entries| && Apart(job) && d.transaction.Some? && left <= |job.entries|
    requires Lost(d, job, i)
    ensures |JournalOf(p, job).entries| == |job.entries|
    ensures var next := UndoNext(Undoing(d, left), JournalOf(p, job));
      Directory(job, i) !in next.disk.dirs && (next.Undoing? ==> Lost(next.disk, job, i))
  {
    var j := JournalOf(p, job);
    if left > 0 {
      var k := left - 1;
      JournalMatches(p, job, k);
      UndoNextIsStepOn(Undoing(d, left), j);
      if k != i && UndoNext(Undoing(d, left), j).Undoing? {
        var e := UndoNext(Undoing(d, left), j).disk;
        assert Directory(job, k) != Directory(job, i) by {
          if k < i {
            assert Directory(job, k) != Directory(job, i);
          } else {
            assert Directory(job, i) != Directory(job, k);
          }
        }
        assert Lookup(d.dirs, Directory(job, i)) == Lookup(e.dirs, Directory(job, i));
        assert Lookup(d.transaction.value.backups, i) == Lookup(e.transaction.value.backups, i);
      }
    }
  }

  lemma {:induction false} LostAtTheEnd(job: Job, d: Disk, left: nat, p: Pid, i: nat)
    requires i < |job.entries| && Apart(job) && d.transaction.Some? && left <= |job.entries|
    requires |JournalOf(p, job).entries| == |job.entries|
    requires Lost(d, job, i)
    ensures Directory(job, i) !in RunRollback(Undoing(d, left), JournalOf(p, job)).disk.dirs
    decreases left, d.dirs.Keys
  {
    var j := JournalOf(p, job);
    LostStaysLost(job, d, left, p, i);
    RollbackShrinks(Undoing(d, left), j);
    var next := UndoNext(Undoing(d, left), j);
    if next.Undoing? {
      LostAtTheEnd(job, next.disk, next.left, p, i);
    }
  }

  /** Waiting entries are passed over. */
  lemma {:induction false} WaitingIsPassed(a: Workspace, d: Disk, left: nat, to: nat)
    requires d.transaction.Some?
    requires var t := d.transaction.value;
      t.journal == Some(JournalOf(t.maker, t.job)) && to <= left <= |t.job.entries|
      && forall i :: to <= i < left ==> EntryIs(a, d, t, i, Waiting)
    ensures var t := d.transaction.value;
      && |t.journal.value.entries| == |t.job.entries|
      && RunRollback(Undoing(d, left), t.journal.value) == RunRollback(Undoing(d, to), t.journal.value)
    decreases left
  {
    var t := d.transaction.value;
    if to < left {
      var i := left - 1;
      JournalMatches(t.maker, t.job, i);
      assert EntryIs(a, d, t, i, Waiting);
      assert UndoNext(Undoing(d, left), t.journal.value) == Undoing(d, i);
      WaitingIsPassed(a, d, i, to);
    }
  }

  /** The old directory of entry i stands unguarded, and has the hashes this install placed. */
  ghost predicate Bare(d: Disk, job: Job, i: nat)
    requires i < |job.entries|
  {
    && d.transaction.Some?
    && Directory(job, i) in d.dirs && DirectoryHashes(d.dirs[Directory(job, i)]) == job.entries[i].installed.files
    && i !in d.transaction.value.stages && i !in d.transaction.value.backups
  }

  lemma StepOnBare(job: Job, d: Disk, left: nat, p: Pid, i: nat)
    requires i < left <= |job.entries| && Apart(job) && Bare(d, job, i)
    ensures |JournalOf(p, job).entries| == |job.entries|
    ensures var next := UndoNext(Undoing(d, left), JournalOf(p, job));
      && (next.Undoing? && left > i + 1 ==> Bare(next.disk, job, i) && next.left > i)
      && (left == i + 1 ==> next.Undoing? && next.left == left && Lost(next.disk, job, i))
  {
    var j, k := JournalOf(p, job), left - 1;
    JournalMatches(p, job, k);
    UndoNextIsStepOn(Undoing(d, left), j);
    if k != i && UndoNext(Undoing(d, left), j).Undoing? {
      var e := UndoNext(Undoing(d, left), j).disk;
      assert Directory(job, i) != Directory(job, k);
      assert Lookup(d.dirs, Directory(job, i)) == Lookup(e.dirs, Directory(job, i));
      assert Lookup(d.transaction.value.stages, i) == Lookup(e.transaction.value.stages, i);
      assert Lookup(d.transaction.value.backups, i) == Lookup(e.transaction.value.backups, i);
    }
  }

  /** A rollback that comes to it takes it for this install's, and it is gone for good. */
  lemma {:induction false} BareIsLost(job: Job, d: Disk, left: nat, p: Pid, i: nat)
    requires i < left <= |job.entries| && Apart(job) && Bare(d, job, i)
    requires |JournalOf(p, job).entries| == |job.entries|
    ensures var end := RunRollback(Undoing(d, left), JournalOf(p, job));
      end.Undone? ==> Directory(job, i) !in end.disk.dirs
    decreases left, d.dirs.Keys
  {
    var j := JournalOf(p, job);
    StepOnBare(job, d, left, p, i);
    RollbackShrinks(Undoing(d, left), j);
    var next := UndoNext(Undoing(d, left), j);
    if left == i + 1 {
      LostAtTheEnd(job, next.disk, left, p, i);
    } else if next.Undoing? {
      BareIsLost(job, next.disk, next.left, p, i);
    }
  }

  /** On a tracked disk only an old directory that was put back is unguarded. */
  lemma UnguardedIsBare(a: Workspace, d: Disk, job: Job, i: nat)
    requires Interrupted(a, d, job) && i < |job.entries|
    requires Unguarded(ViewOf(d, d.transaction.value, i, Directory(job, i)), job.entries[i].installed,
        job.entries[i].previous)
    ensures Bare(d, job, i) && Directory(job, i) in a.dirs
  {
    assert EntryKnown(a, d, d.transaction.value, i);
  }

  /** Rolling an interrupted install back restores the workspace exactly when no entry is
      unguarded: an update to the same files whose old directory an earlier rollback has put
      back. Without such an update recovery can be cut off and run again from anywhere. */
  lemma RecoveryIsReentrantExactly(s: Settings, a: Workspace, d: Disk, job: Job)
    requires SoundJob(s, job) && Interrupted(a, d, job)
    ensures var t := d.transaction.value;
      && |t.journal.value.entries| == |job.entries|
      && (RollsBack(a, d) <==> Fresh(d, t, t.journal.value, |job.entries|))
    ensures (forall e :: e in job.entries ==> !SameHashes(e.installed, e.previous)) ==> RollsBack(a, d)
  {
    var t := d.transaction.value;
    var j := t.journal.value;
    assert |j.entries| == |job.entries|;
    if Fresh(d, t, j, |job.entries|) {
      RollbackRestores(s, a, d, |job.entries|);
    } else {
      var i :| 0 <= i < |job.entries|
        && Unguarded(ViewOf(d, t, i, j.entries[i].installed.directory), j.entries[i].installed, j.entries[i].previous);
      JournalMatches(t.maker, job, i);
      assert SameHashes(job.entries[i].installed, job.entries[i].previous) && job.entries[i] in job.entries;
      UnguardedIsBare(a, d, job, i);
      BareIsLost(job, d, |job.entries|, t.maker, i);
    }
  }

  /* An installer that loses the race. */

  /** The rollback of an installer that found another lockfile than its own: it leaves that
      lockfile alone exactly when it is not the one this installer would have written. */
  lemma LoserKeepsLockExactly(a: Workspace, d: Disk)
    requires d.transaction.Some?
    requires Contested(a, d)
    requires d.lock != d.transaction.value.job.previous
    ensures var t := d.transaction.value;
      && |t.journal.value.entries| == |t.job.entries|
      && RunRollback(Undoing(d, |t.job.entries|), t.journal.value)
         == (if d.lock == Some(t.job.next) then Undone(d.(lock := t.job.previous)) else Conflicted(d))
  {
    var t := d.transaction.value;
    WaitingIsPassed(a, d, |t.job.entries|, 0);
  }

  /** Journaled and untouched, whatever the lockfile. */
  ghost predicate Contested(a: Workspace, d: Disk)
    requires d.transaction.Some?
  {
    var t := d.transaction.value;
    t.journal == Some(JournalOf(t.maker, t.job))
    && forall i :: 0 <= i < |t.job.entries| ==> EntryIs(a, d, t, i, Waiting)
  }
}
