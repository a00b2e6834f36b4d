/** The plan store under any number of writers and removers at once, each of which may fail or
    die between any two steps: the store keeps its bounds, and every plan saved through it says
    what its id pins. */
module PlanRuns {
  import opened Basics
  import opened Plans

  type WriterId = nat

  /** Where a writer stands. `names` is the directory it listed under the lock. */
  datatype Writer =
    | Resting
    | Waiting(record: PlanRecord, bytes: nat)
    | Entered(record: PlanRecord, bytes: nat)
    | Listed(record: PlanRecord, bytes: nat, names: set<FileName>)
    | Weighed(record: PlanRecord, bytes: nat)
    | Leaving
    | Gone

  datatype Store = Store(files: seq<SavedPlan>, lock: Option<WriterId>, writers: map<WriterId, Writer>)

  datatype Act =
    | Ask(content: Content, now: string, bytes: nat)
    | Enter
    | List
    | Weigh
    | Place
    | Leave
    | Fail
    | Die
    | Discard(id: PlanId)

  function Names(files: seq<SavedPlan>): set<FileName> {
    set e | e in files :: e.name
  }

  function Turn(w: Store, p: WriterId, writer: Writer): Store {
    w.(writers := w.writers[p := writer])
  }

  predicate UnderLock(writer: Writer) {
    writer.Entered? || writer.Listed? || writer.Weighed? || writer.Leaving?
  }

  /** The store after writer p acts, if it can. */
  ghost function Next(w: Store, p: WriterId, a: Act): Option<Store> {
    if p !in w.writers then None
    else
      match (w.writers[p], a)
      case (Resting, Ask(content, now, bytes)) =>
        if !Matching(content) || bytes > MAX_PLAN_BYTES then Some(Turn(w, p, Gone))
        else Some(Turn(w, p, Waiting(PlanRecord(ContentHash(content), Some(now), 1, content), bytes)))
      case (Resting, Discard(id)) =>
        Some(Turn(if ReadPlan(w.files, id).Ok? then w.(files := WithoutFile(w.files, PlanName(id))) else w, p, Gone))
      case (Waiting(r, bytes), Enter) =>
        Some(if w.lock.None? then Turn(w, p, Entered(r, bytes)).(lock := Some(p)) else Turn(w, p, Gone))
      case (Entered(r, bytes), List) =>
        Some(Turn(w, p, if PlanNames(w.files) && |w.files| < MAX_PLANS && PlanName(r.recordedId) !in Names(w.files)
                        then Listed(r, bytes, Names(w.files)) else Leaving))
      case (Listed(r, bytes, names), Weigh) =>
        Some(Turn(w, p, if Names(w.files) == names && (forall e :: e in w.files ==> Bounded(e.file))
                           && TotalBytes(w.files) + bytes <= MAX_TOTAL_BYTES
                        then Weighed(r, bytes) else Leaving))
      case (Weighed(r, bytes), Place) =>
        Some(Turn(w, p, Leaving).(files := w.files + [FileOf(r, bytes)]))
      case (Leaving, Leave) => Some(Turn(w, p, Gone).(lock := None))
      case (Entered(_, _), Fail) => Some(Turn(w, p, Leaving))
      case (Listed(_, _, _), Fail) => Some(Turn(w, p, Leaving))
      case (Weighed(_, _), Fail) => Some(Turn(w, p, Leaving))
      case (Gone, _) => None
      case (_, Die) => Some(Turn(w, p, Gone))
      case (_, _) => None
  }

  /** Every file is what some Save wrote. */
  ghost predicate Honest(files: seq<SavedPlan>) {
    forall e :: e in files ==> e.name.PlanName? && ReadPlanFile(e.file, e.name.id).Ok?
  }

  ghost predicate Sealed(r: PlanRecord, bytes: nat) {
    && Matching(r.content) && r.recordedId == ContentHash(r.content) && r.schemaVersion == 1 && r.createdAt.Some?
    && bytes <= MAX_PLAN_BYTES
  }

  ghost predicate WriterOk(w: Store, writer: Writer) {
    match writer
    case Waiting(r, bytes) => Sealed(r, bytes)
    case Entered(r, bytes) => Sealed(r, bytes)
    case Listed(r, bytes, names) =>
      Sealed(r, bytes) && Names(w.files) <= names && PlanName(r.recordedId) !in names && |w.files| < MAX_PLANS
    case Weighed(r, bytes) =>
      && Sealed(r, bytes) && PlanName(r.recordedId) !in Names(w.files)
      && HasRoom(w.files, bytes)
    case _ => true
  }

  ghost predicate Consistent(w: Store) {
    && BoundedStore(w.files) && Honest(w.files)
    && (forall p :: p in w.writers ==> WriterOk(w, w.writers[p]))
    && (forall p :: p in w.writers && UnderLock(w.writers[p]) ==> w.lock == Some(p))
    && (w.lock.Some? ==> w.lock.value in w.writers && HoldsOrHeld(w.writers[w.lock.value]))
  }

  /** The writer named by the lock is under it, or died under it. */
  predicate HoldsOrHeld(writer: Writer) {
    UnderLock(writer) || writer.Gone?
  }

  lemma NameNotFound(files: seq<SavedPlan>, name: FileName)
    requires name !in Names(files)
    ensures FindFile(files, name) == None
  {
  }

  lemma PlacingIsHonest(files: seq<SavedPlan>, r: PlanRecord, bytes: nat)
    requires BoundedStore(files) && Honest(files) && Sealed(r, bytes)
    requires PlanName(r.recordedId) !in Names(files) && HasRoom(files, bytes)
    ensures BoundedStore(files + [FileOf(r, bytes)]) && Honest(files + [FileOf(r, bytes)])
  {
    NameNotFound(files, PlanName(r.recordedId));
    AddingKeepsBounds(files, r, bytes);
  }

  lemma DiscardingKeeps(files: seq<SavedPlan>, name: FileName)
    requires BoundedStore(files) && Honest(files)
    ensures var less := WithoutFile(files, name);
      && BoundedStore(less) && Honest(less)
      && Names(less) <= Names(files) && |less| <= |files| && TotalBytes(less) <= TotalBytes(files)
  {
    RemovingShrinks(files, name);
    RemovingKeepsBounds(files, name);
  }

  /** A removal, which takes no lock, leaves every writer's findings true. */
  lemma LessRoomIsNotNeeded(w: Store, files: seq<SavedPlan>, writer: Writer)
    requires WriterOk(w, writer) && Names(files) <= Names(w.files)
    requires |files| <= |w.files| && TotalBytes(files) <= TotalBytes(w.files)
    requires forall e :: e in files ==> Bounded(e.file)
    ensures WriterOk(w.(files := files), writer)
  {
  }

  lemma OnlyWriterChanges(w: Store, p: WriterId, writer: Writer, lock: Option<WriterId>)
    requires Consistent(w) && p in w.writers && WriterOk(w, writer)
    requires UnderLock(writer) ==> lock == Some(p)
    requires lock == w.lock || (w.lock == None && lock == Some(p)) || (w.lock == Some(p) && lock == None)
    requires lock == Some(p) ==> HoldsOrHeld(writer)
    ensures Consistent(Turn(w, p, writer).(lock := lock))
  {
    var v := Turn(w, p, writer).(lock := lock);
    forall q | q in v.writers ensures WriterOk(v, v.writers[q]) && (UnderLock(v.writers[q]) ==> v.lock == Some(q)) {
      if q != p {
        assert WriterOk(w, w.writers[q]);
      }
    }
  }

  lemma PlaceStep(w: Store, p: WriterId, r: PlanRecord, bytes: nat)
    requires Consistent(w) && p in w.writers && w.writers[p] == Weighed(r, bytes)
    ensures Consistent(Turn(w, p, Leaving).(files := w.files + [FileOf(r, bytes)]))
  {
    assert WriterOk(w, w.writers[p]);
    PlacingIsHonest(w.files, r, bytes);
    var v := Turn(w, p, Leaving).(files := w.files + [FileOf(r, bytes)]);
    forall q | q in v.writers ensures WriterOk(v, v.writers[q]) && (UnderLock(v.writers[q]) ==> v.lock == Some(q)) {
      if q != p {
        assert WriterOk(w, w.writers[q]) && !UnderLock(w.writers[q]);
      }
    }
  }

  lemma DiscardStep(w: Store, p: WriterId, id: PlanId)
    requires Consistent(w) && p in w.writers
    ensures Consistent(Turn(w.(files := WithoutFile(w.files, PlanName(id))), p, Gone))
  {
    var files := WithoutFile(w.files, PlanName(id));
    DiscardingKeeps(w.files, PlanName(id));
    var v := Turn(w.(files := files), p, Gone);
    forall q | q in v.writers ensures WriterOk(v, v.writers[q]) && (UnderLock(v.writers[q]) ==> v.lock == Some(q)) {
      if q != p {
        LessRoomIsNotNeeded(w, files, w.writers[q]);
      }
    }
  }

  /** Every step of every writer keeps the store consistent. */
  lemma StepKeepsConsistent(w: Store, p: WriterId, a: Act, v: Store)
    requires Consistent(w) && Next(w, p, a) == Some(v)
    ensures Consistent(v)
  {
    hide BoundedStore, Honest;
    assert WriterOk(w, w.writers[p]);
    if a.Place? && w.writers[p].Weighed? {
      PlaceStep(w, p, w.writers[p].record, w.writers[p].bytes);
    } else if a.Discard? && w.writers[p].Resting? && ReadPlan(w.files, a.id).Ok? {
      DiscardStep(w, p, a.id);
    } else {
      assert v.files == w.files;
      assert v == Turn(w, p, v.writers[p]).(lock := v.lock);
      OnlyWriterChanges(w, p, v.writers[p], v.lock);
    }
  }

  datatype Move = Move(p: WriterId, act: Act)

  ghost predicate IsRun(stores: seq<Store>, moves: seq<Move>) {
    && |stores| == |moves| + 1
    && (forall i :: 0 <= i < |moves| ==> Next(stores[i], moves[i].p, moves[i].act) == Some(stores[i + 1]))
  }

  ghost predicate AtStart(w: Store) {
    w.lock == None && BoundedStore(w.files) && Honest(w.files) && forall p :: p in w.writers ==> w.writers[p] == Resting
  }

  lemma {:induction false} RunIsConsistent(stores: seq<Store>, moves: seq<Move>, i: nat)
    requires IsRun(stores, moves) && AtStart(stores[0]) && i < |stores|
    ensures Consistent(stores[i])
    decreases i
  {
    if i > 0 {
      RunIsConsistent(stores, moves, i - 1);
      StepKeepsConsistent(stores[i - 1], moves[i - 1].p, moves[i - 1].act, stores[i - 1 + 1]);
    }
  }

  /** Over every run the store holds at most 32 plans of at most 4 MiB, 8 MiB together, and
      every one of them can be read. */
  lemma StoreStaysBounded(stores: seq<Store>, moves: seq<Move>, i: nat)
    requires IsRun(stores, moves) && AtStart(stores[0]) && i < |stores|
    ensures BoundedStore(stores[i].files)
    ensures forall e :: e in stores[i].files ==> e.name.PlanName? && ReadPlan(stores[i].files, e.name.id).Ok?
  {
    RunIsConsistent(stores, moves, i);
    forall e | e in stores[i].files ensures e.name.PlanName? && ReadPlan(stores[i].files, e.name.id).Ok? {
      assert e.name.PlanName?;
      var found := FindFile(stores[i].files, e.name);
      assert SavedPlan(e.name, found.value) in stores[i].files;
    }
  }

  /* A saved plan. */

  lemma FoundInMore(files: seq<SavedPlan>, more: SavedPlan, name: FileName)
    requires FindFile(files, name).Some?
    ensures FindFile(files + [more], name) == FindFile(files, name)
  {
    if files[0].name != name {
      assert (files + [more])[1..] == files[1..] + [more];
      FoundInMore(files[1..], more, name);
    }
  }

  lemma FoundWithout(files: seq<SavedPlan>, other: FileName, name: FileName)
    requires name != other
    ensures FindFile(WithoutFile(files, other), name) == FindFile(files, name)
  {
    if files != [] {
      FoundWithout(files[1..], other, name);
    }
  }

  lemma StepKeepsPlan(w: Store, p: WriterId, a: Act, v: Store, id: PlanId)
    requires Next(w, p, a) == Some(v) && ReadPlan(w.files, id).Ok? && a != Discard(id)
    ensures ReadPlan(v.files, id) == ReadPlan(w.files, id)
  {
    if a.Place? && w.writers[p].Weighed? {
      FoundInMore(w.files, FileOf(w.writers[p].record, w.writers[p].bytes), PlanName(id));
    } else if a.Discard? {
      FoundWithout(w.files, PlanName(a.id), PlanName(id));
    }
  }

  lemma DiscardTakesAway(w: Store, p: WriterId, id: PlanId, v: Store)
    requires Next(w, p, Discard(id)) == Some(v) && ReadPlan(w.files, id).Ok?
    ensures ReadPlan(v.files, id) == Err(PlanMissing)
  {
  }

  /** A plan that can be read can be read until it is removed by its id, and says the same; a
      removal takes it away, and what is read under its id later again says the same. */
  lemma {:induction false} SavedPlanStays(stores: seq<Store>, moves: seq<Move>, id: PlanId, i: nat, j: nat)
    requires IsRun(stores, moves) && i <= j < |stores| && ReadPlan(stores[i].files, id).Ok?
    ensures (forall k :: i <= k < j ==> moves[k].act != Discard(id)) ==>
      ReadPlan(stores[j].files, id) == ReadPlan(stores[i].files, id)
    ensures ReadPlan(stores[j].files, id).Ok? ==>
      ReadPlan(stores[j].files, id).value.content == ReadPlan(stores[i].files, id).value.content
    ensures j < |moves| && moves[j].act == Discard(id) && ReadPlan(stores[j].files, id).Ok? ==>
      ReadPlan(stores[j + 1].files, id) == Err(PlanMissing)
    decreases j - i
  {
    hide Next, ReadPlan;
    if i < j {
      SavedPlanStays(stores, moves, id, i, j - 1);
      if forall k :: i <= k < j ==> moves[k].act != Discard(id) {
        StepKeepsPlan(stores[j - 1], moves[j - 1].p, moves[j - 1].act, stores[j - 1 + 1], id);
      }
    }
    if ReadPlan(stores[j].files, id).Ok? {
      IdPinsContent(stores[i].files, stores[j].files, id);
      if j < |moves| && moves[j].act == Discard(id) {
        DiscardTakesAway(stores[j], moves[j].p, id, stores[j + 1]);
      }
    }
  }

  /** At most one writer is between taking and giving back the write lock. */
  lemma OneWriterAtATime(stores: seq<Store>, moves: seq<Move>, i: nat, p: WriterId, q: WriterId)
    requires IsRun(stores, moves) && AtStart(stores[0]) && i < |stores|
    requires p in stores[i].writers && q in stores[i].writers
    requires UnderLock(stores[i].writers[p]) && UnderLock(stores[i].writers[q])
    ensures p == q
  {
    RunIsConsistent(stores, moves, i);
  }

  /* A writer that dies under the lock. */

  /** The lock is taken by a writer that is no more. */
  predicate DeadLock(w: Store, p: WriterId) {
    w.lock == Some(p) && p in w.writers && w.writers[p] == Gone
  }

  ghost predicate DiedUnderLock(stores: seq<Store>, moves: seq<Move>, p: WriterId, k: nat) {
    && k < |stores| && k < |moves| && moves[k] == Move(p, Die)
    && p in stores[k].writers && UnderLock(stores[k].writers[p])
  }

  lemma DeadLockStays(w: Store, p: WriterId, q: WriterId, a: Act, v: Store)
    requires DeadLock(w, p) && Consistent(w) && Next(w, q, a) == Some(v)
    ensures DeadLock(v, p)
    ensures forall e :: e in v.files ==> e in w.files
    ensures a == Enter ==> v == Turn(w, q, Gone)
  {
    assert UnderLock(w.writers[q]) ==> w.lock == Some(q);
  }

  /** It stays for good: from then on nobody gets under the lock, every writer that asks is turned
      away with nothing changed, and the plans stay as they are but for removals. */
  lemma {:induction false} DeadLockTurnsAway(stores: seq<Store>, moves: seq<Move>, p: WriterId, i: nat, j: nat)
    requires IsRun(stores, moves) && AtStart(stores[0]) && i <= j < |stores| && DeadLock(stores[i], p)
    ensures DeadLock(stores[j], p)
    ensures forall q :: q in stores[j].writers ==> !UnderLock(stores[j].writers[q])
    ensures forall e :: e in stores[j].files ==> e in stores[i].files
    ensures j < |moves| && moves[j].act == Enter ==> stores[j + 1] == Turn(stores[j], moves[j].p, Gone)
    decreases j - i
  {
    hide Next;
    RunIsConsistent(stores, moves, j);
    if i < j {
      var k := j - 1;
      DeadLockTurnsAway(stores, moves, p, i, k);
      RunIsConsistent(stores, moves, k);
      DeadLockStays(stores[k], p, moves[k].p, moves[k].act, stores[k + 1]);
    }
    if j < |moves| {
      DeadLockStays(stores[j], p, moves[j].p, moves[j].act, stores[j + 1]);
    }
  }

  lemma DeathLeavesLock(w: Store, p: WriterId, q: WriterId, a: Act, v: Store)
    requires Consistent(w) && Next(w, q, a) == Some(v)
    ensures q in w.writers && (a == Die && UnderLock(w.writers[q]) ==> DeadLock(v, q))
    ensures DeadLock(v, p) && !DeadLock(w, p) ==> q == p && a == Die && UnderLock(w.writers[p])
  {
  }

  /** A lock is left taken exactly by a writer that died under it; one that fails gives it back. */
  lemma {:induction false} DeadLockExactly(stores: seq<Store>, moves: seq<Move>, p: WriterId, j: nat)
    requires IsRun(stores, moves) && AtStart(stores[0]) && j < |stores|
    ensures DeadLock(stores[j], p) <==> exists k :: 0 <= k < j && DiedUnderLock(stores, moves, p, k)
    decreases j
  {
    hide Next;
    if j > 0 {
      var i := j - 1;
      DeadLockExactly(stores, moves, p, i);
      RunIsConsistent(stores, moves, i);
      DeathLeavesLock(stores[i], p, moves[i].p, moves[i].act, stores[i + 1]);
      if DeadLock(stores[i], p) {
        DeadLockStays(stores[i], p, moves[i].p, moves[i].act, stores[i + 1]);
      } else if DeadLock(stores[j], p) {
        assert DiedUnderLock(stores, moves, p, i);
      }
    }
  }
}
