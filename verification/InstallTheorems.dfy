/** The concurrent, crash-prone install protocol does one thing to what users see: it
    replaces the lock a plan was made against, and the planned directories, at once. */
module InstallTheorems {
  import opened Basics
  import opened Artifact
  import opened InstallPlan
  import opened InstallProtocol

  /** What the protocol implements: a lock and the module directories, changed together. */
  datatype Workspace = Workspace(lock: Option<LockText>, dirs: map<string, Tree>)

  function Lookup<K(==), V>(m: map<K, V>, k: K): Option<V> {
    if k in m then Some(m[k]) else None
  }

  function TreeOf(e: PlannedEntry): Tree {
    match Stage(e.files) case Some(t) => t case None => []
  }

  ghost predicate IsDestination(job: Job, directory: string) {
    exists e :: e in job.entries && e.installed.directory == directory
  }

  /** The one visible change: the planned lock replaces the one the plan was made against,
      each destination holds its new tree, and no other directory changes. */
  ghost predicate Commits(a: Workspace, b: Workspace, job: Job) {
    && a.lock == job.previous && b.lock == Some(job.next)
    && (forall e :: e in job.entries ==> Lookup(b.dirs, e.installed.directory) == Some(TreeOf(e)))
    && (forall d :: !IsDestination(job, d) ==> Lookup(b.dirs, d) == Lookup(a.dirs, d))
  }

  /* Where one entry of a journaled transaction stands. */

  datatype View = View(dest: Option<Tree>, stage: Option<Tree>, backup: Option<Tree>)

  function ViewOf(d: Disk, t: Transaction, i: nat, directory: string): View {
    View(Lookup(d.dirs, directory), Lookup(t.stages, i), Lookup(t.backups, i))
  }

  datatype Phase = Waiting | Aside | Placed | Cleared | Restored

  /** The old tree, where there was one, is in the backup. */
  ghost predicate BackedUp(base: Option<Tree>, v: View, e: PlannedEntry) {
    && v.backup == base
    && (e.previous.Some? <==> base.Some?)
    && (base.Some? ==> DirectoryHashes(base.value) == e.previous.value.files)
  }

  ghost predicate InPhase(base: Option<Tree>, v: View, e: PlannedEntry, phase: Phase) {
    match phase
    case Waiting => v.dest == base && v.stage == Some(TreeOf(e)) && v.backup == None
    case Aside => v.dest == None && v.stage == Some(TreeOf(e)) && e.previous.Some? && BackedUp(base, v, e)
    case Placed => v.dest == Some(TreeOf(e)) && v.stage == None && BackedUp(base, v, e)
    case Cleared => v.dest == None && v.stage == None && BackedUp(base, v, e)
    case Restored =>
      v.dest == base && v.stage == None && v.backup == None && e.previous.Some? && BackedUp(base, v.(backup := base), e)
  }

  ghost predicate SomePhase(base: Option<Tree>, v: View, e: PlannedEntry) {
    exists phase :: InPhase(base, v, e, phase)
  }

  /** The destination is as it was before the install. */
  ghost predicate Home(base: Option<Tree>, v: View, e: PlannedEntry) {
    || InPhase(base, v, e, Waiting)
    || InPhase(base, v, e, Restored)
    || (InPhase(base, v, e, Cleared) && e.previous.None?)
  }

  /** An update to the very same files. */
  predicate SameHashes(installed: Installed, previous: Option<Installed>) {
    previous.Some? && installed.files == previous.value.files
  }

  /** The old directory of an update to the same files stands at its destination and nothing else
      of the entry is left: nothing tells it from the new directory, and it has no backup. */
  predicate Unguarded(v: View, installed: Installed, previous: Option<Installed>) {
    SameHashes(installed, previous) && v.stage == None && v.backup == None && v.dest.Some?
  }

  /** The step of a rollback with `left` entries to go does not meet an unguarded one. */
  ghost predicate GuardedAt(d: Disk, t: Transaction, j: Journal, left: nat)
    requires left <= |j.entries|
  {
    left > 0 ==>
      var e := j.entries[left - 1];
      !Unguarded(ViewOf(d, t, left - 1, e.installed.directory), e.installed, e.previous)
  }

  /** No entry still to be undone is unguarded. */
  ghost predicate Fresh(d: Disk, t: Transaction, j: Journal, left: nat)
    requires left <= |j.entries|
  {
    forall i :: 0 <= i < left ==>
      !Unguarded(ViewOf(d, t, i, j.entries[i].installed.directory), j.entries[i].installed, j.entries[i].previous)
  }

  ghost predicate HashesMatch(e: PlannedEntry) {
    DirectoryHashes(TreeOf(e)) == e.installed.files
  }

  lemma FittingHashesMatch(s: Settings, snapshot: seq<Installed>, e: PlannedEntry)
    requires EntryFits(s, snapshot, e)
    ensures HashesMatch(e) && Stage(e.files).Some?
  {
    RoundTrip(s.layout, e.files);
  }

  /* One rollback step on one entry. */

  /** What a rollback step does with an entry, told from its view alone. */
  datatype EntryStep = Remove | PutBack | Pass | Refuse

  function StepOn(v: View, installed: Installed, previous: Option<Installed>): EntryStep {
    if v.stage == None && v.dest.Some? && DirectoryHashes(v.dest.value) == installed.files then Remove
    else if v.stage == None && v.dest.Some?
            && !(previous.Some? && DirectoryHashes(v.dest.value) == previous.value.files && v.backup == None)
                then Refuse
    else if v.backup.Some? then (if v.dest.Some? then Refuse else PutBack)
    else Pass
  }

  function ViewAfter(v: View, step: EntryStep): View {
    match step
    case Remove => v.(dest := None)
    case PutBack => v.(dest := v.backup, backup := None)
    case Pass => v
    case Refuse => v
  }

  /** From any phase a rollback step is never refused, and each entry gets home: a removal
      leaves a cleared entry, any other step an entry that is home. */
  lemma StepFromPhase(base: Option<Tree>, v: View, e: PlannedEntry)
    requires SomePhase(base, v, e) && HashesMatch(e)
    requires !Unguarded(v, e.installed, e.previous)
    ensures var step := StepOn(v, e.installed, e.previous);
      && step != Refuse
      && (step == Remove ==> InPhase(base, ViewAfter(v, step), e, Cleared))
      && (step != Remove ==> Home(base, ViewAfter(v, step), e))
  {
    var phase :| InPhase(base, v, e, phase);
    var step := StepOn(v, e.installed, e.previous);
    match phase {
      case Waiting => assert InPhase(base, ViewAfter(v, step), e, Waiting);
      case Aside => assert InPhase(base, ViewAfter(v, step), e, Waiting);
      case Placed => assert InPhase(base, ViewAfter(v, step), e, Cleared);
      case Cleared =>
        if e.previous.Some? {
          assert InPhase(base, ViewAfter(v, step), e, Restored);
        }
      case Restored => assert InPhase(base, ViewAfter(v, step), e, Restored);
    }
  }

  /** The same step on the disk: it changes that entry's view and nothing else. */
  lemma UndoNextIsStepOn(r: Rollback, j: Journal)
    requires r.Undoing? && r.disk.transaction.Some? && 0 < r.left <= |j.entries|
    ensures var i, e := r.left - 1, j.entries[r.left - 1];
      var v := ViewOf(r.disk, r.disk.transaction.value, i, e.installed.directory);
      var step := StepOn(v, e.installed, e.previous);
      var next := UndoNext(r, j);
      && (step == Refuse ==> next == Conflicted(r.disk))
      && (step != Refuse ==>
            && next.Undoing? && next.left == (if step == Remove then r.left else i)
            && OnlyChanges(r.disk, next.disk, i, e.installed.directory)
            && ViewOf(next.disk, next.disk.transaction.value, i, e.installed.directory) == ViewAfter(v, step))
  {
  }

  /** Two disks in the same transaction that differ at most at one entry. */
  ghost predicate OnlyChanges(a: Disk, b: Disk, i: nat, directory: string) {
    && a.transaction.Some? && b.transaction.Some?
    && a.lock == b.lock
    && (forall d :: d != directory ==> Lookup(a.dirs, d) == Lookup(b.dirs, d))
    && var t, u := a.transaction.value, b.transaction.value;
    && t.(stages := map[], backups := map[]) == u.(stages := map[], backups := map[])
    && (forall k: nat :: k != i ==>
          Lookup(t.stages, k) == Lookup(u.stages, k) && Lookup(t.backups, k) == Lookup(u.backups, k))
  }

  /* The destinations of a job are apart. */

  lemma {:induction false} TwoOf(b: seq<Installed>, x: Installed) returns (p: nat, q: nat)
    requires multiset(b)[x] >= 2
    ensures p < |b| && q < |b| && p != q && b[p] == x && b[q] == x
  {
    assert b == [b[0]] + b[1..];
    if b[0] == x {
      assert x in multiset(b[1..]);
      var r :| 0 <= r < |b[1..]| && b[1..][r] == x;
      p, q := 0, r + 1;
    } else {
      p, q := TwoOf(b[1..], x);
      p, q := p + 1, q + 1;
    }
  }

  lemma CountTwo(a: seq<Installed>, i: nat, j: nat)
    requires i < j < |a| && a[i] == a[j]
    ensures multiset(a)[a[i]] >= 2
  {
    assert a == a[..j] + a[j..];
    assert a[i] in a[..j] && a[j] in a[j..];
  }

  lemma TwoPlaces(a: seq<Installed>, b: seq<Installed>, i: nat, j: nat) returns (p: nat, q: nat)
    requires multiset(a) == multiset(b) && i < j < |a|
    ensures p < |b| && q < |b| && p != q && b[p] == a[i] && b[q] == a[j]
  {
    if a[i] == a[j] {
      CountTwo(a, i, j);
      p, q := TwoOf(b, a[i]);
    } else {
      assert a[i] in multiset(b) && a[j] in multiset(b);
      p :| 0 <= p < |b| && b[p] == a[i];
      q :| 0 <= q < |b| && b[q] == a[j];
    }
  }

  ghost predicate Apart(job: Job) {
    forall i, j :: 0 <= i < j < |job.entries| ==>
      job.entries[i].installed.directory != job.entries[j].installed.directory
  }

  /** Two entries stand at two places of the next module list. */
  lemma PlacesInNext(job: Job, i: nat, j: nat) returns (x: nat, y: nat)
    requires job.next.modules == NextModules(Modules(job.previous), job.entries) && i < j < |job.entries|
    ensures x < |job.next.modules| && y < |job.next.modules| && x != y
    ensures job.next.modules[x] == job.entries[i].installed && job.next.modules[y] == job.entries[j].installed
  {
    hide SortByKey, Filter;
    var kept := Kept(Modules(job.previous), job.entries);
    var all := kept + InstalledOf(job.entries);
    SortKeepsMultiset((m: Installed) => m.id, all);
    x, y := TwoPlaces(all, job.next.modules, |kept| + i, |kept| + j);
  }

  lemma GoodJobIsApart(s: Settings, job: Job)
    requires GoodJob(s, job)
    ensures Apart(job)
  {
    hide EntryFits, NextModules, InRoot, SafeSourcePath;
    forall i, j | 0 <= i < j < |job.entries|
      ensures job.entries[i].installed.directory != job.entries[j].installed.directory
    {
      var x, y := PlacesInNext(job, i, j);
      if x < y {
        assert Lower(job.next.modules[x].directory) != Lower(job.next.modules[y].directory);
      } else {
        assert Lower(job.next.modules[y].directory) != Lower(job.next.modules[x].directory);
      }
    }
  }

  /* What the disk holds while the visible workspace is a. */

  ghost predicate SoundJob(s: Settings, job: Job) {
    GoodJob(s, job) && Apart(job) && forall e :: e in job.entries ==> HashesMatch(e)
  }

  function Directory(job: Job, i: nat): string
    requires i < |job.entries|
  {
    job.entries[i].installed.directory
  }

  ghost predicate EntryIs(a: Workspace, d: Disk, t: Transaction, i: nat, phase: Phase)
    requires i < |t.job.entries|
  {
    InPhase(Lookup(a.dirs, Directory(t.job, i)), ViewOf(d, t, i, Directory(t.job, i)), t.job.entries[i], phase)
  }

  ghost predicate EntryHome(a: Workspace, d: Disk, t: Transaction, i: nat)
    requires i < |t.job.entries|
  {
    Home(Lookup(a.dirs, Directory(t.job, i)), ViewOf(d, t, i, Directory(t.job, i)), t.job.entries[i])
  }

  ghost predicate EntryKnown(a: Workspace, d: Disk, t: Transaction, i: nat)
    requires i < |t.job.entries|
  {
    SomePhase(Lookup(a.dirs, Directory(t.job, i)), ViewOf(d, t, i, Directory(t.job, i)), t.job.entries[i])
  }

  ghost predicate Elsewhere(a: Workspace, d: Disk, job: Job) {
    forall x :: !IsDestination(job, x) ==> Lookup(d.dirs, x) == Lookup(a.dirs, x)
  }

  /** The lockfile is untouched, and not by accident the one this job would write; or it is
      the one this job wrote over the one it was planned against. */
  ghost predicate LockKnown(a: Workspace, d: Disk, job: Job) {
    || (d.lock == a.lock && (a.lock == job.previous || d.lock != Some(job.next)))
    || (a.lock == job.previous && d.lock == Some(job.next))
  }

  ghost predicate Untouched(a: Workspace, d: Disk) {
    d.dirs == a.dirs && d.lock == a.lock
  }

  ghost predicate Opened(a: Workspace, d: Disk, t: Transaction) {
    t.journal == None && t.backups == map[] && Untouched(a, d)
  }

  ghost predicate Journaling(a: Workspace, d: Disk, t: Transaction) {
    && t.journal == Some(JournalOf(t.maker, t.job))
    && (forall i :: 0 <= i < |t.job.entries| ==> EntryKnown(a, d, t, i))
    && Elsewhere(a, d, t.job)
    && LockKnown(a, d, t.job)
  }

  ghost predicate HomeFrom(a: Workspace, d: Disk, t: Transaction, left: nat) {
    left <= |t.job.entries| && forall i :: left <= i < |t.job.entries| ==> EntryHome(a, d, t, i)
  }

  ghost predicate Tracks(s: Settings, a: Workspace, d: Disk) {
    match d.transaction
    case None => Untouched(a, d)
    case Some(t) =>
      && SoundJob(s, t.job)
      && (t.owner == None || t.owner == Some(t.maker))
      && (Opened(a, d, t) || Journaling(a, d, t))
  }

  /** What is true at each point of an installer inside its transaction. */
  ghost predicate StandsAt(a: Workspace, d: Disk, t: Transaction, at: Point) {
    var n := |t.job.entries|;
    match at
    case Made => Opened(a, d, t)
    case Owned(k) =>
      Opened(a, d, t) && k <= n && forall i :: 0 <= i < k ==> Lookup(t.stages, i) == Some(TreeOf(t.job.entries[i]))
    case Journaled =>
      Journaling(a, d, t) && d.lock == a.lock && forall i :: 0 <= i < n ==> EntryIs(a, d, t, i, Waiting)
    case Moving(k, aside) =>
      && Journaling(a, d, t) && d.lock == a.lock == t.job.previous
      && k <= n && (aside ==> k < n)
      && (forall i :: 0 <= i < k ==> EntryIs(a, d, t, i, Placed))
      && (k < n ==> EntryIs(a, d, t, k, if aside then Aside else Waiting))
      && (forall i :: k < i < n ==> EntryIs(a, d, t, i, Waiting))
    case Sealed =>
      && Journaling(a, d, t) && a.lock == t.job.previous && d.lock == Some(t.job.next)
      && (forall i :: 0 <= i < n ==> EntryIs(a, d, t, i, Placed))
    case BackingOut(left) => Journaling(a, d, t) && HomeFrom(a, d, t, left) && Fresh(d, t, t.journal.value, left)
    case Dropping => Untouched(a, d)
  }

  predicate Recovers(process: Process) {
    process.Recovering? || process.Clearing?
  }

  /** The dead installer whose transaction a process recovers. */
  function DeadOwner(process: Process): Pid
    requires Recovers(process)
  {
    if process.Recovering? then process.journal.pid else process.owner
  }

  /** The transaction this installer made is still there. */
  predicate Current(d: Disk, maker: Pid) {
    d.transaction.Some? && d.transaction.value.maker == maker
  }

  /** What is known of a process. Of a recovery whose transaction is gone nothing is. */
  ghost predicate ProcessOk(s: Settings, a: Workspace, d: Disk, p: Pid, process: Process) {
    match process
    case Ready(job) => SoundJob(s, job)
    case Holding(job, at) =>
      d.transaction.Some? && d.transaction.value.maker == p && d.transaction.value.job == job
      && StandsAt(a, d, d.transaction.value, at)
    case Recovering(j, left) =>
      Current(d, j.pid) ==>
        && Journaling(a, d, d.transaction.value) && d.transaction.value.journal == Some(j)
        && HomeFrom(a, d, d.transaction.value, left)
    case Clearing(owner) =>
      Current(d, owner) ==>
        && Untouched(a, d)
        && (d.transaction.value.journal.Some? ==>
              Journaling(a, d, d.transaction.value) && HomeFrom(a, d, d.transaction.value, 0))
    case _ => true
  }

  /** The invariant: the disk tracks the visible workspace, every process stands where its
      state says, and what is recovered was left by a dead installer. */
  ghost predicate Inv(s: Settings, w: World, a: Workspace) {
    && s.roots != []
    && Tracks(s, a, w.disk)
    && (forall p :: p in w.procs ==> ProcessOk(s, a, w.disk, p, w.procs[p]))
    && (forall p :: p in w.procs && Recovers(w.procs[p]) ==> !Alive(w, DeadOwner(w.procs[p])))
  }

  /** A step of one process, where all the others stand as well on the new disk. */
  lemma StepKeepsInv(s: Settings, w: World, a: Workspace, p: Pid, d: Disk, b: Workspace, process: Process)
    requires Inv(s, w, a) && Alive(w, p)
    requires Tracks(s, b, d) && ProcessOk(s, b, d, p, process)
    requires Recovers(process) ==> !Alive(w, DeadOwner(process)) && DeadOwner(process) != p
    requires forall q :: q in w.procs && q != p ==> ProcessOk(s, b, d, q, w.procs[q])
    ensures Inv(s, Become(WithDisk(w, d), p, process), b)
  {
  }

  /* Undoing, on the tracked disk. */

  lemma JournalMatches(p: Pid, job: Job, i: nat)
    requires i < |job.entries|
    ensures |JournalOf(p, job).entries| == |job.entries|
    ensures JournalOf(p, job).entries[i] == JournalEntry(job.entries[i].installed, job.entries[i].previous)
  {
  }

  lemma OtherEntriesKeep(a: Workspace, d: Disk, e: Disk, job: Job, i: nat)
    requires d.transaction.Some? && d.transaction.value.job == job && Apart(job) && i < |job.entries|
    requires OnlyChanges(d, e, i, Directory(job, i))
    ensures e.transaction.value.job == job
    ensures forall k :: 0 <= k < |job.entries| && k != i ==>
      ViewOf(d, d.transaction.value, k, Directory(job, k)) == ViewOf(e, e.transaction.value, k, Directory(job, k))
    ensures forall x :: !IsDestination(job, x) ==> Lookup(d.dirs, x) == Lookup(e.dirs, x)
  {
    assert job.entries[i] in job.entries;
    forall k | 0 <= k < |job.entries| && k != i
      ensures ViewOf(d, d.transaction.value, k, Directory(job, k))
          == ViewOf(e, e.transaction.value, k, Directory(job, k))
    {
      if k < i {
        assert Directory(job, k) != Directory(job, i);
      } else {
        assert Directory(job, i) != Directory(job, k);
      }
    }
  }

  lemma AllHomeIsUntouched(s: Settings, a: Workspace, d: Disk, t: Transaction)
    requires HomeFrom(a, d, t, 0) && Elsewhere(a, d, t.job)
    ensures d.dirs == a.dirs
  {
    forall x ensures Lookup(d.dirs, x) == Lookup(a.dirs, x) {
      if IsDestination(t.job, x) {
        var e :| e in t.job.entries && e.installed.directory == x;
        var i :| 0 <= i < |t.job.entries| && t.job.entries[i] == e;
        assert EntryHome(a, d, t, i);
      }
    }
    forall x | x in d.dirs ensures x in a.dirs && d.dirs[x] == a.dirs[x] {
      assert Lookup(d.dirs, x) == Lookup(a.dirs, x);
    }
    forall x | x in a.dirs ensures x in d.dirs {
      assert Lookup(d.dirs, x) == Lookup(a.dirs, x);
    }
  }

  /** The entry a rollback step works on, and what the step does to it. */
  ghost predicate EntrySteps(a: Workspace, d: Disk, e: Disk, i: nat, step: EntryStep)
    requires d.transaction.Some? && i < |d.transaction.value.job.entries|
  {
    var t := d.transaction.value;
    && OnlyChanges(d, e, i, Directory(t.job, i))
    && (step == Remove ==> EntryIs(a, e, e.transaction.value.(job := t.job), i, Cleared))
    && (step != Remove ==> EntryHome(a, e, e.transaction.value.(job := t.job), i))
  }

  lemma EntryStepsKnown(s: Settings, a: Workspace, d: Disk, left: nat) returns (step: EntryStep)
    requires d.transaction.Some? && SoundJob(s, d.transaction.value.job)
    requires Journaling(a, d, d.transaction.value) && 0 < left <= |d.transaction.value.job.entries|
    requires GuardedAt(d, d.transaction.value, d.transaction.value.journal.value, left)
    ensures var next := UndoNext(Undoing(d, left), d.transaction.value.journal.value);
      && next.Undoing? && next.left == (if step == Remove then left else left - 1)
      && EntrySteps(a, d, next.disk, left - 1, step)
    ensures var t := d.transaction.value;
      var e := t.job.entries[left - 1];
      step == StepOn(ViewOf(d, t, left - 1, e.installed.directory), e.installed, e.previous)
  {
    hide GoodJob, Elsewhere, LockKnown, Apart, UndoNext, OnlyChanges;
    var t, i := d.transaction.value, left - 1;
    var e := t.job.entries[i];
    var base, v := Lookup(a.dirs, Directory(t.job, i)), ViewOf(d, t, i, Directory(t.job, i));
    JournalMatches(t.maker, t.job, i);
    UndoNextIsStepOn(Undoing(d, left), t.journal.value);
    assert EntryKnown(a, d, t, i) && e in t.job.entries;
    StepFromPhase(base, v, e);
    step := StepOn(v, e.installed, e.previous);
  }

  lemma StillKnown(base: Option<Tree>, v: View, e: PlannedEntry)
    requires InPhase(base, v, e, Cleared) || Home(base, v, e)
    ensures SomePhase(base, v, e)
  {
  }

  lemma UndoMovesOn(s: Settings, a: Workspace, d: Disk, left: nat, e: Disk, step: EntryStep)
    requires d.transaction.Some? && SoundJob(s, d.transaction.value.job) && left > 0
    requires Journaling(a, d, d.transaction.value) && HomeFrom(a, d, d.transaction.value, left)
    requires EntrySteps(a, d, e, left - 1, step)
    ensures Journaling(a, e, e.transaction.value)
    ensures HomeFrom(a, e, e.transaction.value, if step == Remove then left else left - 1)
  {
    hide GoodJob, HashesMatch, Apart, SomePhase, Home, InPhase;
    var t, u, i := d.transaction.value, e.transaction.value, left - 1;
    OtherEntriesKeep(a, d, e, t.job, i);
    StillKnown(Lookup(a.dirs, Directory(t.job, i)), ViewOf(e, u, i, Directory(t.job, i)), t.job.entries[i]);
    forall k | 0 <= k < |t.job.entries| ensures EntryKnown(a, e, u, k) {
      if k != i {
        assert EntryKnown(a, d, t, k);
      }
    }
    forall k | left <= k < |t.job.entries| ensures EntryHome(a, e, u, k) {
      assert EntryHome(a, d, t, k);
    }
  }

  /** Entries before the one a step works on stay as guarded as they were; a removal leaves
      nothing at its destination. */
  lemma FreshMovesOn(s: Settings, a: Workspace, d: Disk, left: nat, e: Disk, step: EntryStep)
    requires d.transaction.Some? && SoundJob(s, d.transaction.value.job) && left > 0
    requires Journaling(a, d, d.transaction.value) && left <= |d.transaction.value.job.entries|
    requires Fresh(d, d.transaction.value, d.transaction.value.journal.value, left)
    requires EntrySteps(a, d, e, left - 1, step)
    ensures Fresh(e, e.transaction.value, d.transaction.value.journal.value, if step == Remove then left else left - 1)
  {
    hide GoodJob, HashesMatch, Apart, SomePhase, EntryKnown, Elsewhere, LockKnown, Home;
    var t, u, j := d.transaction.value, e.transaction.value, d.transaction.value.journal.value;
    OtherEntriesKeep(a, d, e, t.job, left - 1);
    forall k | 0 <= k < (if step == Remove then left else left - 1)
      ensures !Unguarded(ViewOf(e, u, k, j.entries[k].installed.directory), j.entries[k].installed,
          j.entries[k].previous)
    {
      JournalMatches(t.maker, t.job, k);
      assert j.entries[k].installed.directory == Directory(t.job, k);
      if k != left - 1 {
        assert !Unguarded(ViewOf(d, t, k, j.entries[k].installed.directory), j.entries[k].installed,
            j.entries[k].previous);
      } else {
        assert EntryIs(a, e, u.(job := t.job), k, Cleared);
      }
    }
  }

  /** The next rollback step keeps what the disk tracks; when it ends the rollback the workspace
      is as it is seen; and the only conflict is a lockfile that another installer changed. */
  ghost predicate UndoTracked(a: Workspace, d: Disk, t: Transaction, left: nat)
    requires d.transaction == Some(t) && t.journal.Some? && left <= |t.journal.value.entries|
  {
    match UndoNext(Undoing(d, left), t.journal.value)
    case Undoing(e, rest) =>
      && e.transaction.Some? && Journaling(a, e, e.transaction.value) && HomeFrom(a, e, e.transaction.value, rest)
      && e.transaction.value.(stages := map[], backups := map[]) == t.(stages := map[], backups := map[])
    case Undone(e) =>
      Untouched(a, e) && e.transaction == d.transaction && Journaling(a, e, t) && HomeFrom(a, e, t, 0)
    case Conflicted(e) => e == d && left == 0 && d.lock != t.job.previous
  }

  /** A rollback step on a tracked disk never meets a conflict in a directory, keeps what the
      disk tracks, and at its end leaves the workspace as it is seen. */
  lemma UndoKeepsTrack(s: Settings, a: Workspace, d: Disk, left: nat)
    requires d.transaction.Some? && SoundJob(s, d.transaction.value.job)
    requires Journaling(a, d, d.transaction.value) && HomeFrom(a, d, d.transaction.value, left)
    requires GuardedAt(d, d.transaction.value, d.transaction.value.journal.value, left)
    ensures UndoTracked(a, d, d.transaction.value, left)
  {
    var t := d.transaction.value;
    if left == 0 {
      AllHomeIsUntouched(s, a, d, t);
      LockIsRestored(a, d, t);
    } else {
      var step := EntryStepsKnown(s, a, d, left);
      var e := UndoNext(Undoing(d, left), t.journal.value).disk;
      UndoMovesOn(s, a, d, left, e, step);
    }
  }

  /** And if nothing before it is unguarded, nothing becomes so. */
  lemma UndoKeepsFresh(s: Settings, a: Workspace, d: Disk, left: nat)
    requires d.transaction.Some? && SoundJob(s, d.transaction.value.job)
    requires Journaling(a, d, d.transaction.value) && left <= |d.transaction.value.job.entries|
    requires |d.transaction.value.journal.value.entries| == |d.transaction.value.job.entries|
    requires Fresh(d, d.transaction.value, d.transaction.value.journal.value, left)
    ensures GuardedAt(d, d.transaction.value, d.transaction.value.journal.value, left)
    ensures var j := d.transaction.value.journal.value;
      var next := UndoNext(Undoing(d, left), j);
      next.Undoing? ==>
        next.disk.transaction.Some? && next.left <= |j.entries|
        && Fresh(next.disk, next.disk.transaction.value, j, next.left)
  {
    hide EntrySteps, SoundJob, EntryKnown, Elsewhere, LockKnown;
    if left > 0 {
      var step := EntryStepsKnown(s, a, d, left);
      var e := UndoNext(Undoing(d, left), d.transaction.value.journal.value).disk;
      FreshMovesOn(s, a, d, left, e, step);
    }
  }

  lemma LockIsRestored(a: Workspace, d: Disk, t: Transaction)
    requires d.transaction == Some(t) && Journaling(a, d, t) && d.dirs == a.dirs && HomeFrom(a, d, t, 0)
    ensures match UndoNext(Undoing(d, 0), t.journal.value)
            case Undoing(e, rest) => false
            case Undone(e) =>
              Untouched(a, e) && e.transaction == d.transaction && Journaling(a, e, t) && HomeFrom(a, e, t, 0)
            case Conflicted(e) => e == d && d.lock != t.job.previous
  {
    var e := d.(lock := t.job.previous);
    forall i | 0 <= i < |t.job.entries| ensures EntryKnown(a, e, t, i) && EntryHome(a, e, t, i) {
      assert EntryKnown(a, d, t, i) && EntryHome(a, d, t, i);
    }
  }

  /** An entry that is home is not removed, unless it is unguarded. */
  lemma HomeIsNotRemoved(base: Option<Tree>, v: View, e: PlannedEntry)
    requires Home(base, v, e) && !Unguarded(v, e.installed, e.previous)
    ensures StepOn(v, e.installed, e.previous) != Remove
  {
  }

  /** A rollback step of one process leaves home what another one, further on, has brought home. */
  lemma UndoLeavesHome(s: Settings, a: Workspace, d: Disk, left: nat, other: nat)
    requires d.transaction.Some? && SoundJob(s, d.transaction.value.job)
    requires Journaling(a, d, d.transaction.value) && HomeFrom(a, d, d.transaction.value, left)
    requires HomeFrom(a, d, d.transaction.value, other)
    requires GuardedAt(d, d.transaction.value, d.transaction.value.journal.value, left)
    ensures var next := UndoNext(Undoing(d, left), d.transaction.value.journal.value);
      && next.disk.transaction.Some? && HomeFrom(a, next.disk, next.disk.transaction.value, other)
      && (next.Undoing? ==> next.disk.lock == d.lock)
  {
    hide GoodJob, HashesMatch, Apart, SomePhase, InPhase, Elsewhere, LockKnown, EntryKnown;
    var t := d.transaction.value;
    var next := UndoNext(Undoing(d, left), t.journal.value);
    if left == 0 {
      UndoKeepsTrack(s, a, d, 0);
      forall k | other <= k < |t.job.entries| ensures EntryHome(a, next.disk, next.disk.transaction.value, k) {
        assert EntryHome(a, d, t, k);
      }
    } else {
      var step := EntryStepsKnown(s, a, d, left);
      var i, e, u := left - 1, next.disk, next.disk.transaction.value;
      OtherEntriesKeep(a, d, e, t.job, i);
      if other <= i {
        assert EntryHome(a, d, t, i);
        JournalMatches(t.maker, t.job, i);
        HomeIsNotRemoved(Lookup(a.dirs, Directory(t.job, i)), ViewOf(d, t, i, Directory(t.job, i)), t.job.entries[i]);
      }
      forall k | other <= k < |t.job.entries| ensures EntryHome(a, e, u, k) {
        assert EntryHome(a, d, t, k);
      }
    }
  }
}
