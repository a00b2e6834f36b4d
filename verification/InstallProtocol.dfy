/** The install transaction as a machine of atomic steps: any number of processes share
    a disk, each may fail or die between any two steps, and a later process may recover
    what a dead one left behind. */
module InstallProtocol {
  import opened Basics
  import opened Artifact
  import opened InstallPlan

  type Pid = nat

  datatype JournalEntry = JournalEntry(installed: Installed, previous: Option<Installed>)

  datatype Journal = Journal(pid: Pid, previous: Option<LockText>, next: LockText, entries: seq<JournalEntry>)

  /** The transaction directory. `maker` and `job` say who made it and what for; no step reads
      them, they let the theorems name the install in progress. */
  datatype Transaction = Transaction(
    maker: Pid,
    job: Job,
    owner: Option<Pid>,
    stages: map<nat, Tree>,
    backups: map<nat, Tree>,
    journal: Option<Journal>)

  datatype Disk = Disk(dirs: map<string, Tree>, lock: Option<LockText>, transaction: Option<Transaction>)

  /* Rollback. */

  /** A rollback with entries [0..left) still to undo, then the lock. */
  datatype Rollback = Undoing(disk: Disk, left: nat) | Undone(disk: Disk) | Conflicted(disk: Disk)

  function WithoutDirectory(d: Disk, directory: string): Disk {
    d.(dirs := d.dirs - {directory})
  }

  function Transact(d: Disk, t: Transaction): Disk {
    d.(transaction := Some(t))
  }

  /** One step: removing what the install placed, putting a backup back, passing to the
      entry before, or restoring the lock. */
  function UndoNext(r: Rollback, j: Journal): Rollback
    requires r.Undoing? ==> r.disk.transaction.Some? && r.left <= |j.entries|
  {
    if !r.Undoing? then r
    else
      var d, t := r.disk, r.disk.transaction.value;
      if r.left == 0 then
        if d.lock == j.previous || d.lock == Some(j.next) then Undone(d.(lock := j.previous)) else Conflicted(d)
      else
        var i := r.left - 1;
        var e := j.entries[i];
        var directory := e.installed.directory;
        var moved := i !in t.stages;
        if moved && directory in d.dirs && DirectoryHashes(d.dirs[directory]) == e.installed.files then
          Undoing(WithoutDirectory(d, directory), r.left)
        else if moved && directory in d.dirs
                && !(e.previous.Some? && DirectoryHashes(d.dirs[directory]) == e.previous.value.files
                    && i !in t.backups)
        then Conflicted(d)
        else if i in t.backups then
          if directory in d.dirs then Conflicted(d)
          else Undoing(Transact(d.(dirs := d.dirs[directory := t.backups[i]]), t.(backups := t.backups - {i})), i)
        else Undoing(d, i)
  }

  /* Processes. */

  /** Where an installer stands inside its transaction. */
  datatype Point =
    | Made
    | Owned(staged: nat)
    | Journaled
    | Moving(moved: nat, aside: bool)
    | Sealed
    | BackingOut(left: nat)
    | Dropping

  datatype Process =
    | Idle
    | Looked(plan: Plan)
    | Planning(plan: Plan, lock: Option<LockText>)
    | Ready(job: Job)
    | Holding(job: Job, at: Point)
    | Recovering(journal: Journal, left: nat)
    | Clearing(owner: Pid)
    | Stopped

  datatype World = World(disk: Disk, procs: map<Pid, Process>)

  /** `CheckDirectories` carries the directories as they were read, each at some moment while
      others may have been at work. */
  datatype Action =
    | Look(plan: Plan)
    | ReadLock
    | CheckDirectories(seen: map<string, Tree>)
    | MakeDirectory
    | NameOwner
    | StageNext
    | WriteJournal
    | Reread
    | MoveAside
    | MoveIn
    | WriteLock
    | Finish
    | Fail
    | Crash
    | StartRecovery
    | UndoOne
    | Drop

  function JournalOf(p: Pid, job: Job): Journal {
    Journal(p, job.previous, job.next,
            Map((e: PlannedEntry) => JournalEntry(e.installed, e.previous), job.entries))
  }

  /** The process recorded as owner of the transaction, once one is. */
  function OwnerOf(t: Transaction): Option<Pid> {
    if t.journal.Some? then Some(t.journal.value.pid) else t.owner
  }

  predicate Alive(w: World, p: Pid) {
    p in w.procs && w.procs[p] != Stopped
  }

  /** A transaction directory that is not there has no stages and no backups. */
  const NO_TRANSACTION := Transaction(0, Job(None, LockText([], ""), [], NoLock), None, map[], map[], None)

  /** The step of a recovery, which goes on from the journal it has read whatever became of the
      transaction directory. */
  function RecoverNext(d: Disk, left: nat, j: Journal): Rollback
    requires left <= |j.entries|
  {
    if d.transaction.Some? then UndoNext(Undoing(d, left), j)
    else
      match UndoNext(Undoing(Transact(d, NO_TRANSACTION), left), j)
      case Undoing(e, rest) => Undoing(e.(transaction := None), rest)
      case Undone(e) => Undone(e.(transaction := None))
      case Conflicted(e) => Conflicted(e.(transaction := None))
  }

  function Become(w: World, p: Pid, process: Process): World {
    w.(procs := w.procs[p := process])
  }

  function WithDisk(w: World, d: Disk): World {
    w.(disk := d)
  }

  /** The world after process p performs an action, if it can. */
  ghost function Perform(s: Settings, w: World, p: Pid, a: Action): Option<World>
    requires s.roots != []
  {
    if p !in w.procs then None
    else
      var d := w.disk;
      match (w.procs[p], a)
      case (Idle, Look(plan)) =>
        Some(Become(w, p, if d.transaction.Some? then Stopped else Looked(plan)))
      case (Looked(plan), ReadLock) => Some(Become(w, p, Planning(plan, d.lock)))
      case (Planning(plan, lock), CheckDirectories(seen)) =>
        (match PlanInstall(s, lock, seen, plan)
         case Ok(job) => Some(Become(w, p, Ready(job)))
         case Err(_) => Some(Become(w, p, Stopped)))
      case (Ready(job), MakeDirectory) =>
        if d.transaction.Some? then Some(Become(w, p, Stopped))
        else Some(Become(WithDisk(w, Transact(d, Transaction(p, job, None, map[], map[], None))), p,
            Holding(job, Made)))
      case (Idle, StartRecovery) =>
        if d.transaction.None? || OwnerOf(d.transaction.value).None? then Some(Become(w, p, Stopped))
        else if Alive(w, OwnerOf(d.transaction.value).value) then Some(Become(w, p, Stopped))
        else if d.transaction.value.journal.Some? then
          var j := d.transaction.value.journal.value;
          Some(Become(w, p, Recovering(j, |j.entries|)))
        else Some(Become(w, p, Clearing(OwnerOf(d.transaction.value).value)))
      case (Holding(job, at), _) =>
        if d.transaction.None? then PerformWithout(w, p, job, at, a) else PerformHolding(s, w, p, job, at, a)
      case (Recovering(j, left), UndoOne) =>
        if left > |j.entries| then None
        else
          (match RecoverNext(d, left, j)
           case Undoing(d', left') => Some(Become(WithDisk(w, d'), p, Recovering(j, left')))
           case Undone(d') => Some(Become(WithDisk(w, d'), p, Clearing(j.pid)))
           case Conflicted(_) => Some(Become(w, p, Stopped)))
      case (Clearing(_), Drop) =>
        Some(Become(WithDisk(w, d.(transaction := None)), p, Stopped))
      case (Stopped, _) => None
      case (_, Crash) => Some(Become(w, p, Stopped))
      case (_, _) => None
  }

  /** Actions of an installer whose transaction directory was taken away: what needs it fails, and
      the error handler rolls back from the journal it holds. */
  function PerformWithout(w: World, p: Pid, job: Job, at: Point, a: Action): Option<World>
    requires w.disk.transaction.None?
  {
    var d := w.disk;
    match (at, a)
    case (Journaled, Reread) =>
      Some(Become(w, p, Holding(job, if d.lock == job.previous then Moving(0, false) else BackingOut(|job.entries|))))
    case (BackingOut(left), UndoOne) =>
      if left > |job.entries| then None
      else
        (match RecoverNext(d, left, JournalOf(p, job))
         case Undoing(d', left') => Some(Become(WithDisk(w, d'), p, Holding(job, BackingOut(left'))))
         case Undone(d') => Some(Become(WithDisk(w, d'), p, Holding(job, Dropping)))
         case Conflicted(_) => Some(Become(w, p, Stopped)))
    case (Made, NameOwner) => Some(Become(w, p, Holding(job, Dropping)))
    case (Owned(_), StageNext) => Some(Become(w, p, Holding(job, Dropping)))
    case (Owned(_), WriteJournal) => Some(Become(w, p, Holding(job, Dropping)))
    case (Moving(_, _), MoveAside) => Some(Become(w, p, Holding(job, BackingOut(|job.entries|))))
    case (Moving(_, _), MoveIn) => Some(Become(w, p, Holding(job, BackingOut(|job.entries|))))
    case (Moving(_, _), WriteLock) => Some(Become(w, p, Holding(job, BackingOut(|job.entries|))))
    case (Sealed, Finish) => Some(Become(w, p, Stopped))
    case (Dropping, Drop) => Some(Become(w, p, Stopped))
    case (Made, Fail) => Some(Become(w, p, Holding(job, Dropping)))
    case (Owned(_), Fail) => Some(Become(w, p, Holding(job, Dropping)))
    case (Journaled, Fail) => Some(Become(w, p, Holding(job, BackingOut(|job.entries|))))
    case (Moving(_, _), Fail) => Some(Become(w, p, Holding(job, BackingOut(|job.entries|))))
    case (_, Crash) => Some(Become(w, p, Stopped))
    case (_, _) => None
  }

  /** Actions of an installer inside a transaction directory. */
  ghost function PerformHolding(s: Settings, w: World, p: Pid, job: Job, at: Point, a: Action): Option<World>
    requires w.disk.transaction.Some?
  {
    var d, t := w.disk, w.disk.transaction.value;
    match (at, a)
    case (Made, NameOwner) =>
      Some(Become(WithDisk(w, Transact(d, t.(owner := Some(p)))), p, Holding(job, Owned(0))))
    case (Owned(k), StageNext) =>
      if k >= |job.entries| then None
      else
        (match Stage(job.entries[k].files)
         case Some(tree) =>
           Some(Become(WithDisk(w, Transact(d, t.(stages := t.stages[k := tree]))), p, Holding(job, Owned(k + 1))))
         case None => Some(Become(w, p, Holding(job, Dropping))))
    case (Owned(k), WriteJournal) =>
      if k < |job.entries| then None
      else
        Some(Become(WithDisk(w, Transact(d, t.(journal := Some(JournalOf(p, job))))), p, Holding(job, Journaled)))
    case (Journaled, Reread) =>
      Some(Become(w, p, Holding(job, if d.lock == job.previous then Moving(0, false) else BackingOut(|job.entries|))))
    case (Moving(k, false), MoveAside) =>
      if k >= |job.entries| || job.entries[k].previous.None? then None
      else
        var directory := job.entries[k].installed.directory;
        if !Unmodified(d.dirs, job.entries[k].previous.value) || directory !in d.dirs then
          Some(Become(w, p, Holding(job, BackingOut(|job.entries|))))
        else
          Some(Become(WithDisk(w, Transact(WithoutDirectory(d, directory),
                                           t.(backups := t.backups[k := d.dirs[directory]]))),
                      p, Holding(job, Moving(k, true))))
    case (Moving(k, aside), MoveIn) =>
      if k >= |job.entries| || aside != job.entries[k].previous.Some? then None
      else
        var directory := job.entries[k].installed.directory;
        if directory in d.dirs || k !in t.stages then Some(Become(w, p, Holding(job, BackingOut(|job.entries|))))
        else
          Some(Become(WithDisk(w, Transact(d.(dirs := d.dirs[directory := t.stages[k]]),
                                           t.(stages := t.stages - {k}))),
                      p, Holding(job, Moving(k + 1, false))))
    case (Moving(k, aside), WriteLock) =>
      if k < |job.entries| || aside then None
      else Some(Become(WithDisk(w, d.(lock := Some(job.next))), p, Holding(job, Sealed)))
    case (Sealed, Finish) =>
      Some(Become(WithDisk(w, d.(transaction := None)), p, Stopped))
    case (BackingOut(left), UndoOne) =>
      if left > |job.entries| then None
      else
        (match UndoNext(Undoing(d, left), JournalOf(p, job))
         case Undoing(d', left') => Some(Become(WithDisk(w, d'), p, Holding(job, BackingOut(left'))))
         case Undone(d') => Some(Become(WithDisk(w, d'), p, Holding(job, Dropping)))
         case Conflicted(_) => Some(Become(w, p, Stopped)))
    case (Dropping, Drop) =>
      Some(Become(WithDisk(w, d.(transaction := None)), p, Stopped))
    case (Made, Fail) => Some(Become(w, p, Holding(job, Dropping)))
    case (Owned(_), Fail) => Some(Become(w, p, Holding(job, Dropping)))
    case (Journaled, Fail) => Some(Become(w, p, Holding(job, BackingOut(|job.entries|))))
    case (Moving(_, _), Fail) => Some(Become(w, p, Holding(job, BackingOut(|job.entries|))))
    case (_, Crash) => Some(Become(w, p, Stopped))
    case (_, _) => None
  }
}
