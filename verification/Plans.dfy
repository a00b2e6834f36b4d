/** Module change plans: what is saved under a plan id, and what reading it back guarantees. */
module Plans {
  import opened Basics
  import opened Versions
  import opened Manifests
  import opened FileTree
  import opened Artifact
  import opened InstallPlan
  import opened InstallTheorems

  /* Plans. */

  datatype ChangeAction = InstallNew | UpdateOld

  datatype Change = Change(
    id: Id, version: Version, sha256: string, action: ChangeAction,
    dependencies: seq<Id>, migrations: seq<(string, Digest)>)

  datatype Content = Content(
    target: Id, sourceName: string, update: bool,
    expectedLock: LockDigest, expectedWorkspace: string,
    releases: seq<PlannedRelease>, changes: seq<Change>)

  /** A plan id: the hash of a content, or 64 hexadecimal digits that are no such hash. */
  datatype PlanId = ContentHash(content: Content) | OtherDigits(number: nat)

  /** What a plan file parses to. */
  datatype PlanRecord = PlanRecord(
    recordedId: PlanId, createdAt: Option<string>, schemaVersion: nat, content: Content)

  datatype FileName = PlanName(id: PlanId) | OtherName(name: string)

  datatype PlanFile = PlanFile(regular: bool, size: nat, parsed: Option<PlanRecord>)

  /** One entry of the plan directory. */
  datatype SavedPlan = SavedPlan(name: FileName, file: PlanFile)

  datatype PlanError =
    | TooLargePlan
    | PlanBusy
    | PlanInvalid
    | StoreFull
    | PlanMissing
    | PlanEmpty
    | PlanUnsound

  const MAX_PLANS := 32
  const MAX_PLAN_BYTES := 4 * 1024 * 1024
  const MAX_TOTAL_BYTES := 8 * 1024 * 1024
  const MAX_RELEASES := 256

  /* The impact of the releases. */

  function MigrationsOf(files: seq<SourceFile>): seq<(string, Digest)> {
    Map((f: SourceFile) => (f.path, f.sha256), Filter((f: SourceFile) => IsMigration(f.path), files))
  }

  function ChangeOf(r: PlannedRelease, a: FetchedArtifact, target: Id, update: bool): Change {
    var m := r.release.manifest;
    Change(m.id, m.version, r.release.sha256,
           if update && m.id == target then UpdateOld else InstallNew,
           Map((d: Dependency) => d.id, m.dependencies), MigrationsOf(a.files))
  }

  /** The artifact of a release passes every check, with `size` bytes read before it. */
  ghost predicate Inspectable(l: Layout, r: PlannedRelease, artifacts: map<Id, FetchedArtifact>, size: nat) {
    var m := r.release.manifest;
    m.id in artifacts
    && var a := artifacts[m.id];
    size + a.size <= MAX_INSTALL_BYTES && a.digest == r.release.sha256 && AcceptableFiles(l, a.files) && a.manifest == m
  }

  function SizeBefore(releases: seq<PlannedRelease>, artifacts: map<Id, FetchedArtifact>, n: nat): nat
    requires n <= |releases|
  {
    if n == 0 then 0
    else
      var id := releases[n - 1].release.manifest.id;
      SizeBefore(releases, artifacts, n - 1) + (if id in artifacts then artifacts[id].size else 0)
  }

  ghost predicate Inspected(
      l: Layout, releases: seq<PlannedRelease>, artifacts: map<Id, FetchedArtifact>, n: nat)
    requires n <= |releases|
  {
    forall i :: 0 <= i < n ==> Inspectable(l, releases[i], artifacts, SizeBefore(releases, artifacts, i))
  }

  /** These changes are those of the first releases. */
  predicate ChangesOf(
      changes: seq<Change>, releases: seq<PlannedRelease>, artifacts: map<Id, FetchedArtifact>, target: Id,
      update: bool)
  {
    && |changes| <= |releases|
    && forall i :: 0 <= i < |changes| ==>
         && releases[i].release.manifest.id in artifacts
         && changes[i] == ChangeOf(releases[i], artifacts[releases[i].release.manifest.id], target, update)
  }

  /** A plan applies: to the workspace it was made for, and with the impact it recorded. */
  ghost predicate Applicable(l: Layout, c: Content, workspace: string, artifacts: map<Id, FetchedArtifact>) {
    && c.expectedWorkspace == workspace
    && Inspected(l, c.releases, artifacts, |c.releases|)
    && ChangesOf(c.changes, c.releases, artifacts, c.target, c.update)
  }

  /** Inspecting gives the recorded impact exactly when that is the impact. */
  lemma SameImpact(l: Layout, c: Content, artifacts: map<Id, FetchedArtifact>, changes: Option<seq<Change>>)
    requires |c.changes| == |c.releases|
    requires changes.Some? <==> Inspected(l, c.releases, artifacts, |c.releases|)
    requires changes.Some? ==>
      |changes.value| == |c.releases| && ChangesOf(changes.value, c.releases, artifacts, c.target, c.update)
    ensures changes == Some(c.changes)
       <==> Inspected(l, c.releases, artifacts, |c.releases|)
            && ChangesOf(c.changes, c.releases, artifacts, c.target, c.update)
  {
    hide ChangeOf, Inspectable, Inspected;
    if changes.Some? && ChangesOf(c.changes, c.releases, artifacts, c.target, c.update) {
      assert changes.value == c.changes;
    }
  }

  method InspectRelease(l: Layout, r: PlannedRelease, artifacts: map<Id, FetchedArtifact>, size: nat)
    returns (sound: bool)
    ensures sound == Inspectable(l, r, artifacts, size)
    ensures sound ==> r.release.manifest.id in artifacts
  {
    var m := r.release.manifest;
    if m.id !in artifacts || size + artifacts[m.id].size > MAX_INSTALL_BYTES {
      return false;
    }
    var a := artifacts[m.id];
    if a.digest != r.release.sha256 {
      return false;
    }
    var failure := ValidateFiles(l, a.files);
    return failure.None? && a.manifest == m;
  }

  lemma OneMoreInspected(l: Layout, releases: seq<PlannedRelease>, artifacts: map<Id, FetchedArtifact>, n: nat)
    requires n < |releases| && Inspected(l, releases, artifacts, n)
    ensures Inspectable(l, releases[n], artifacts, SizeBefore(releases, artifacts, n)) ==>
      Inspected(l, releases, artifacts, n + 1)
    ensures !Inspectable(l, releases[n], artifacts, SizeBefore(releases, artifacts, n)) ==>
      !Inspected(l, releases, artifacts, |releases|)
  {
    hide Inspectable;
  }

  lemma OneMoreChange(changes: seq<Change>, releases: seq<PlannedRelease>, artifacts: map<Id, FetchedArtifact>,
                      target: Id, update: bool)
    requires ChangesOf(changes, releases, artifacts, target, update) && |changes| < |releases|
    requires releases[|changes|].release.manifest.id in artifacts
    ensures var r := releases[|changes|];
      ChangesOf(changes + [ChangeOf(r, artifacts[r.release.manifest.id], target, update)], releases, artifacts,
        target, update)
  {
    hide ChangeOf;
  }

  /** Reads every release and says what it changes; none when a release fails a check. */
  method InspectReleases(
      l: Layout, releases: seq<PlannedRelease>, artifacts: map<Id, FetchedArtifact>, target: Id, update: bool)
    returns (r: Option<seq<Change>>)
    ensures r.Some? <==> Inspected(l, releases, artifacts, |releases|)
    ensures r.Some? ==> |r.value| == |releases| && ChangesOf(r.value, releases, artifacts, target, update)
  {
    hide ChangeOf, Inspectable;
    var changes: seq<Change> := [];
    var size: nat := 0;
    assert ChangesOf([], releases, artifacts, target, update);
    hide ChangesOf, Inspected;
    for n := 0 to |releases|
      invariant size == SizeBefore(releases, artifacts, n) && |changes| == n
      invariant Inspected(l, releases, artifacts, n) && ChangesOf(changes, releases, artifacts, target, update)
    {
      var sound := InspectRelease(l, releases[n], artifacts, size);
      OneMoreInspected(l, releases, artifacts, n);
      if !sound {
        return None;
      }
      OneMoreChange(changes, releases, artifacts, target, update);
      var a := artifacts[releases[n].release.manifest.id];
      size := size + a.size;
      changes := changes + [ChangeOf(releases[n], a, target, update)];
    }
    return Some(changes);
  }

  /* Reading. */

  predicate ChangeMatches(c: Change, r: PlannedRelease) {
    c.id == r.release.manifest.id && c.version == r.release.manifest.version && c.sha256 == r.release.sha256
  }

  predicate Matching(c: Content) {
    && 0 < |c.releases| <= MAX_RELEASES && |c.changes| == |c.releases|
    && forall i :: 0 <= i < |c.releases| ==> ChangeMatches(c.changes[i], c.releases[i])
  }

  predicate Bounded(f: PlanFile) {
    f.regular && f.size <= MAX_PLAN_BYTES
  }

  function ReadPlanFile(f: PlanFile, id: PlanId): (r: Result<PlanRecord, PlanError>) {
    if !Bounded(f) || f.parsed.None? then Err(PlanInvalid)
    else
      var p := f.parsed.value;
      if p.schemaVersion == 1 && p.recordedId == id && p.createdAt.Some? && Matching(p.content)
         && ContentHash(p.content) == id then Ok(p)
      else Err(PlanInvalid)
  }

  function FindFile(files: seq<SavedPlan>, name: FileName): (r: Option<PlanFile>)
    ensures r.Some? <==> exists e :: e in files && e.name == name
    ensures r.Some? ==> SavedPlan(name, r.value) in files
  {
    if files == [] then None
    else if files[0].name == name then Some(files[0].file)
    else FindFile(files[1..], name)
  }

  function ReadPlan(files: seq<SavedPlan>, id: PlanId): Result<PlanRecord, PlanError> {
    match FindFile(files, PlanName(id))
    case None => Err(PlanMissing)
    case Some(f) => ReadPlanFile(f, id)
  }

  /** A plan id pins what the plan says: whatever happens to the store between two reads, both
      give the same content or fail. */
  lemma IdPinsContent(before: seq<SavedPlan>, after: seq<SavedPlan>, id: PlanId)
    requires ReadPlan(before, id).Ok? && ReadPlan(after, id).Ok?
    ensures ReadPlan(before, id).value.content == ReadPlan(after, id).value.content
    ensures Matching(ReadPlan(before, id).value.content)
  {
    assert ContentHash(ReadPlan(before, id).value.content) == id;
    assert ContentHash(ReadPlan(after, id).value.content) == id;
  }

  /* The bounds of the store. */

  function TotalBytes(files: seq<SavedPlan>): nat {
    if files == [] then 0 else files[0].file.size + TotalBytes(files[1..])
  }

  lemma {:induction false} TotalOfSum(a: seq<SavedPlan>, b: seq<SavedPlan>)
    ensures TotalBytes(a + b) == TotalBytes(a) + TotalBytes(b)
  {
    if a == [] {
      assert a + b == b;
    } else {
      assert (a + b)[1..] == a[1..] + b;
      TotalOfSum(a[1..], b);
    }
  }

  function WithoutFile(files: seq<SavedPlan>, name: FileName): seq<SavedPlan> {
    Filter((e: SavedPlan) => e.name != name, files)
  }

  lemma {:induction false} RemovingShrinks(files: seq<SavedPlan>, name: FileName)
    ensures TotalBytes(WithoutFile(files, name)) <= TotalBytes(files)
    ensures |WithoutFile(files, name)| <= |files|
    ensures DistinctNames(files) ==> DistinctNames(WithoutFile(files, name))
  {
    if files != [] {
      RemovingShrinks(files[1..], name);
      assert files == [files[0]] + files[1..];
      if files[0].name != name {
        var rest := WithoutFile(files[1..], name);
        assert WithoutFile(files, name) == [files[0]] + rest;
        assert ([files[0]] + rest)[1..] == rest;
        if DistinctNames(files) {
          TailNamesDistinct(files);
          forall j | 0 <= j < |rest| ensures rest[j].name != files[0].name {
            assert rest[j] in rest;
          }
        }
      } else if DistinctNames(files) {
        TailNamesDistinct(files);
      }
    }
  }

  ghost predicate DistinctNames(files: seq<SavedPlan>) {
    forall i, j :: 0 <= i < j < |files| ==> files[i].name != files[j].name
  }

  lemma TailNamesDistinct(files: seq<SavedPlan>)
    requires files != [] && DistinctNames(files)
    ensures DistinctNames(files[1..])
    ensures forall e :: e in files[1..] ==> e.name != files[0].name
  {
  }

  predicate PlanNames(files: seq<SavedPlan>) {
    |files| <= MAX_PLANS && forall e :: e in files ==> e.name.PlanName?
  }

  /** At most 32 plans of at most 4 MiB, 8 MiB together. */
  ghost predicate BoundedStore(files: seq<SavedPlan>) {
    && PlanNames(files) && DistinctNames(files)
    && (forall e :: e in files ==> Bounded(e.file))
    && TotalBytes(files) <= MAX_TOTAL_BYTES
  }

  /** Nothing stands in the way of one more plan of this size. */
  ghost predicate HasRoom(files: seq<SavedPlan>, bytes: nat) {
    && |files| < MAX_PLANS
    && (forall e :: e in files ==> Bounded(e.file))
    && TotalBytes(files) + bytes <= MAX_TOTAL_BYTES
  }

  function FileOf(p: PlanRecord, bytes: nat): SavedPlan {
    SavedPlan(PlanName(p.recordedId), PlanFile(true, bytes, Some(p)))
  }

  lemma AddingKeepsBounds(files: seq<SavedPlan>, p: PlanRecord, bytes: nat)
    requires PlanNames(files) && DistinctNames(files) && HasRoom(files, bytes) && bytes <= MAX_PLAN_BYTES
    requires FindFile(files, PlanName(p.recordedId)) == None
    ensures BoundedStore(files + [FileOf(p, bytes)])
  {
    var e := FileOf(p, bytes);
    TotalOfSum(files, [e]);
    assert [e][1..] == [];
    forall i, j | 0 <= i < j < |files + [e]| ensures (files + [e])[i].name != (files + [e])[j].name {
      assert files[i] in files;
    }
  }

  lemma RemovingKeepsBounds(files: seq<SavedPlan>, name: FileName)
    requires BoundedStore(files)
    ensures BoundedStore(WithoutFile(files, name))
  {
    RemovingShrinks(files, name);
  }

  /** The bytes of every plan together; none when one is not a bounded regular file. */
  method CollectionBytes(files: seq<SavedPlan>) returns (total: Option<nat>)
    ensures total.Some? <==> forall e :: e in files ==> Bounded(e.file)
    ensures total.Some? ==> total.value == TotalBytes(files)
  {
    var sum: nat := 0;
    for i := 0 to |files|
      invariant forall k :: 0 <= k < i ==> Bounded(files[k].file)
      invariant sum == TotalBytes(files[..i])
    {
      if !Bounded(files[i].file) {
        assert files[i] in files;
        return None;
      }
      assert files[..i + 1] == files[..i] + [files[i]];
      TotalOfSum(files[..i], [files[i]]);
      assert [files[i]][1..] == [];
      sum := sum + files[i].file.size;
    }
    assert files[..|files|] == files;
    return Some(sum);
  }

  lemma {:induction false} FindAdded(files: seq<SavedPlan>, e: SavedPlan)
    requires FindFile(files, e.name) == None
    ensures FindFile(files + [e], e.name) == Some(e.file)
    ensures forall name :: name != e.name ==> FindFile(files + [e], name) == FindFile(files, name)
  {
    if files == [] {
      assert [e][1..] == [];
      assert [] + [e] == [e];
    } else {
      assert files[0] in files;
      assert (files + [e])[1..] == files[1..] + [e];
      FindAdded(files[1..], e);
    }
  }

  /** The plans of a workspace. */
  class PlanStore {
    /** The plan directory, and whether it is there. */
    var files: seq<SavedPlan>
    var present: bool
    /** The write lock directory. */
    var locked: bool

    constructor (files: seq<SavedPlan>, locked: bool)
      ensures this.files == files && this.locked == locked && present
    {
      this.files, this.locked, present := files, locked, true;
    }

    method Read(id: PlanId) returns (r: Result<PlanRecord, PlanError>)
      ensures r == if present then ReadPlan(files, id) else Err(PlanMissing)
      ensures r.Ok? ==> ContentHash(r.value.content) == id && r.value.recordedId == id && Matching(r.value.content)
    {
      if !present {
        return Err(PlanMissing);
      }
      var file := FindFile(files, PlanName(id));
      if file.None? {
        return Err(PlanMissing);
      }
      return ReadPlanFile(file.value, id);
    }

    /** Saves a plan, unless the same plan is there already. Whatever happens, the write lock is
        as it was; a refused plan leaves the store alone; a saved one can be read back; and a
        store within its bounds stays within them. */
    method Save(content: Content, now: string, bytes: nat) returns (r: Result<PlanRecord, PlanError>)
      requires Matching(content)
      requires !present ==> files == []
      modifies this
      ensures locked == old(locked)
      ensures r.Err? ==> files == old(files)
      ensures r.Ok? ==>
        && present && r.value.content == content && ReadPlan(files, ContentHash(content)) == r
        && (files == old(files) || files == old(files) + [FileOf(r.value, bytes)])
      ensures r.Ok? <==>
        && bytes <= MAX_PLAN_BYTES && !old(locked) && PlanNames(old(files))
        && (match FindFile(old(files), PlanName(ContentHash(content)))
            case Some(f) => ReadPlanFile(f, ContentHash(content)).Ok?
            case None => HasRoom(old(files), bytes))
      ensures FindFile(old(files), PlanName(ContentHash(content))).Some? && r.Ok? ==>
        files == old(files) && r == ReadPlan(old(files), ContentHash(content))
      ensures r.Err? ==> r.error != PlanEmpty && r.error != PlanUnsound
      ensures BoundedStore(old(files)) ==> BoundedStore(files)
    {
      var id := ContentHash(content);
      var plan := PlanRecord(id, Some(now), 1, content);
      if bytes > MAX_PLAN_BYTES {
        return Err(TooLargePlan);
      }
      if locked {
        return Err(PlanBusy);
      }
      locked, present := true, true;
      r := Place(plan, bytes);
      locked := false;
    }

    /** The part that runs under the write lock. */
    method Place(plan: PlanRecord, bytes: nat) returns (r: Result<PlanRecord, PlanError>)
      requires present && bytes <= MAX_PLAN_BYTES && Matching(plan.content)
      requires plan.recordedId == ContentHash(plan.content) && plan.schemaVersion == 1 && plan.createdAt.Some?
      modifies this`files
      ensures r.Err? ==> files == old(files)
      ensures r.Ok? ==>
        && r.value.content == plan.content && ReadPlan(files, plan.recordedId) == r
        && (files == old(files) || files == old(files) + [FileOf(r.value, bytes)])
      ensures r.Ok? <==>
        && PlanNames(old(files))
        && (match FindFile(old(files), PlanName(plan.recordedId))
            case Some(f) => ReadPlanFile(f, plan.recordedId).Ok?
            case None => HasRoom(old(files), bytes))
      ensures FindFile(old(files), PlanName(plan.recordedId)).Some? && r.Ok? ==>
        files == old(files) && r == ReadPlan(old(files), plan.recordedId)
      ensures r.Err? ==> r.error != PlanEmpty && r.error != PlanUnsound
      ensures BoundedStore(old(files)) ==> BoundedStore(files)
    {
      if !PlanNames(files) {
        return Err(PlanInvalid);
      }
      var stored := FindFile(files, PlanName(plan.recordedId));
      if stored.Some? {
        r := Read(plan.recordedId);
        return;
      }
      if |files| >= MAX_PLANS {
        return Err(StoreFull);
      }
      var total := CollectionBytes(files);
      if total.None? {
        return Err(PlanInvalid);
      }
      if total.value + bytes > MAX_TOTAL_BYTES {
        return Err(StoreFull);
      }
      if BoundedStore(files) {
        AddingKeepsBounds(files, plan, bytes);
      }
      FindAdded(files, FileOf(plan, bytes));
      files := files + [FileOf(plan, bytes)];
      return Ok(plan);
    }

    /** Makes a plan against a lockfile and a workspace, and saves it if asked to. */
    method Create(
        l: Layout, target: Id, sourceName: string, update: bool, lock: Option<LockText>, workspace: string,
        releases: seq<PlannedRelease>, artifacts: map<Id, FetchedArtifact>, save: bool, now: string, bytes: nat)
      returns (r: Result<PlanRecord, PlanError>)
      requires |releases| <= MAX_RELEASES
      requires !present ==> files == []
      modifies this
      ensures locked == old(locked) && (BoundedStore(old(files)) ==> BoundedStore(files))
      ensures !save || r.Err? ==> files == old(files)
      ensures r.Ok? ==>
        && var c := r.value.content;
        && c.target == target && c.update == update && c.expectedWorkspace == workspace && c.releases == releases
        && c.expectedLock == DigestOf(lock)
        && |c.changes| == |releases| && ChangesOf(c.changes, releases, artifacts, target, update)
        && r.value.recordedId == ContentHash(c) && Matching(c)
        && (save ==> ReadPlan(files, ContentHash(c)) == r)
      ensures r == Err(PlanEmpty) <==> releases == []
      ensures r == Err(PlanUnsound) <==> releases != [] && !Inspected(l, releases, artifacts, |releases|)
    {
      hide ChangesOf, Inspected;
      if releases == [] {
        return Err(PlanEmpty);
      }
      var changes := InspectReleases(l, releases, artifacts, target, update);
      if changes.None? {
        return Err(PlanUnsound);
      }
      var content := Content(target, sourceName, update, DigestOf(lock), workspace, releases, changes.value);
      InspectedPlanMatches(content, artifacts);
      if save {
        r := Save(content, now, bytes);
      } else {
        r := Ok(PlanRecord(ContentHash(content), Some(now), 1, content));
      }
    }

    /** Removes a plan that can be read. */
    method Remove(id: PlanId, apply: bool) returns (r: Result<PlanRecord, PlanError>)
      modifies this`files
      ensures r == if present then ReadPlan(old(files), id) else Err(PlanMissing)
      ensures files == if r.Ok? && apply then WithoutFile(old(files), PlanName(id)) else old(files)
      ensures r.Ok? && apply ==> ReadPlan(files, id) == Err(PlanMissing)
      ensures BoundedStore(old(files)) ==> BoundedStore(files)
    {
      r := Read(id);
      if r.Ok? && apply {
        if BoundedStore(files) {
          RemovingKeepsBounds(files, PlanName(id));
        }
        files := WithoutFile(files, PlanName(id));
      }
    }

    /** What applying a plan hands to the installer: the saved plan, exactly when it can be read, the
        workspace is the one it was made for, and inspecting its releases again gives the impact it
        recorded. */
    method PrepareToApply(l: Layout, id: PlanId, workspace: string, manifests: seq<Manifest>,
                          artifacts: map<Id, FetchedArtifact>)
      returns (r: Option<Plan>)
      ensures r.Some? <==>
        && present && ReadPlan(files, id).Ok?
        && Applicable(l, ReadPlan(files, id).value.content, workspace, artifacts)
      ensures r.Some? ==>
        && present && ReadPlan(files, id).Ok?
        && var c := ReadPlan(files, id).value.content;
        && r.value == Plan(c.target, c.update, c.releases, artifacts, manifests, c.expectedLock)
        && workspace == c.expectedWorkspace && ContentHash(c) == id
        && |c.changes| == |c.releases| && ChangesOf(c.changes, c.releases, artifacts, c.target, c.update)
    {
      var plan := Read(id);
      if plan.Err? || plan.value.content.expectedWorkspace != workspace {
        return None;
      }
      var c := plan.value.content;
      var changes := InspectReleases(l, c.releases, artifacts, c.target, c.update);
      SameImpact(l, c, artifacts, changes);
      if changes != Some(c.changes) {
        return None;
      }
      return Some(Plan(c.target, c.update, c.releases, artifacts, manifests, c.expectedLock));
    }
  }

  /** A plan made from inspected releases passes the check on reading. */
  lemma InspectedPlanMatches(c: Content, artifacts: map<Id, FetchedArtifact>)
    requires 0 < |c.releases| <= MAX_RELEASES && |c.changes| == |c.releases|
    requires ChangesOf(c.changes, c.releases, artifacts, c.target, c.update)
    ensures Matching(c)
  {
    forall i | 0 <= i < |c.releases| ensures ChangeMatches(c.changes[i], c.releases[i]) {
      assert c.changes[i] == ChangeOf(c.releases[i], artifacts[c.releases[i].release.manifest.id], c.target, c.update);
    }
  }

  /** A plan applies only to the lockfile it was made against. */
  lemma PlanFitsItsLock(
      s: Settings, made: Option<LockText>, now: Option<LockText>, dirs: map<string, Tree>, plan: Plan)
    requires s.roots != [] && plan.expectedLock == DigestOf(made)
    requires PlanInstall(s, now, dirs, plan).Ok?
    ensures now == made
  {
    assert DigestOf(now) == DigestOf(made);
  }

  lemma {:induction false} EntriesAreNotStale(
      s: Settings, snapshot: seq<Installed>, dirs: map<string, Tree>, plan: Plan, releases: seq<PlannedRelease>,
      entries: seq<PlannedEntry>, size: nat)
    requires s.roots != []
    ensures PlanEntries(s, snapshot, dirs, plan, releases, entries, size) != Err(PlanStale)
    decreases |releases|
  {
    if releases != [] {
      var first := PlanEntry(s, snapshot, dirs, plan, releases[0], size);
      if first.Ok? {
        EntriesAreNotStale(s, snapshot, dirs, plan, releases[1..], entries + [first.value.0], first.value.1);
      }
    }
  }

  /** A plan is a token for one change of the lockfile: once an install made from it has
      committed, the same plan is refused as stale, in any state of the directories, exactly when
      the install did change the lockfile. */
  lemma CommittedPlanIsStale(s: Settings, a: Workspace, b: Workspace, job: Job, plan: Plan, dirs: map<string, Tree>)
    requires s.roots != [] && GoodJob(s, job) && Commits(a, b, job)
    requires job.expected == plan.expectedLock
    ensures PlanInstall(s, b.lock, dirs, plan) == Err(PlanStale) <==> job.previous != Some(job.next)
  {
    hide PlanEntries, PlanEntry, NextModules, EntryFits;
    EntriesAreNotStale(s, job.next.modules, dirs, plan, plan.releases, [], 0);
    assert Modules(b.lock) == job.next.modules;
  }
}
