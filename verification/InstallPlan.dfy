/** What an install records and what it decides before it touches anything. */
module InstallPlan {
  import opened Basics
  import opened Versions
  import opened Manifests
  import opened FileTree
  import opened Artifact
  import opened Registry

  type Hashes = map<string, Digest>
  type Tree = seq<Entry>

  datatype Installed = Installed(id: Id, version: Version, directory: string, sha256: string, files: Hashes)

  /** The text of a lockfile: what it parses to, and how it is laid out. */
  datatype LockText = LockText(modules: seq<Installed>, layout: string)

  /** A digest of the lockfile that is equal only for equal text; none without a lockfile. */
  datatype LockDigest = NoLock | LockDigest(text: LockText)

  function DigestOf(lock: Option<LockText>): LockDigest {
    match lock case None => NoLock case Some(text) => LockDigest(text)
  }

  function Modules(lock: Option<LockText>): seq<Installed> {
    match lock case None => [] case Some(text) => text.modules
  }

  /** Where modules may live, and the layout of a module source. */
  datatype Settings = Settings(roots: seq<string>, layout: Layout, platform: Version)

  predicate InRoot(s: Settings, directory: string) {
    exists r :: r in s.roots && r + "/" <= directory && forall i :: |r| < i < |directory| ==> directory[i] != '/'
  }

  const MAX_MODULES := 256

  /** A module list the lockfile may hold. */
  ghost predicate ValidModules(s: Settings, modules: seq<Installed>) {
    && |modules| <= MAX_MODULES
    && (forall m :: m in modules ==> InRoot(s, m.directory))
    && (forall i, j :: 0 <= i < j < |modules| ==>
          modules[i].id != modules[j].id && Lower(modules[i].directory) != Lower(modules[j].directory))
    && (forall m :: m in modules ==> forall p :: p in m.files ==> SafeSourcePath(s.layout, p))
  }

  /* Plans. */

  datatype PlannedRelease = PlannedRelease(release: Release, folder: string)

  datatype FetchedArtifact = FetchedArtifact(size: nat, digest: string, manifest: Manifest, files: seq<SourceFile>)

  /** A saved plan with its fetched artifacts and the manifests found in the workspace. */
  datatype Plan = Plan(
    target: Id,
    update: bool,
    releases: seq<PlannedRelease>,
    artifacts: map<Id, FetchedArtifact>,
    manifests: seq<Manifest>,
    expectedLock: LockDigest)

  /** One module of an install: what will be recorded, what it replaces, what will be written. */
  datatype PlannedEntry = PlannedEntry(installed: Installed, previous: Option<Installed>, files: seq<SourceFile>)

  /** A planned install: the lock it was made against, the lock it leads to, its entries. */
  datatype Job = Job(previous: Option<LockText>, next: LockText, entries: seq<PlannedEntry>, expected: LockDigest)

  datatype InstallError =
    | PlanStale
    | NotManaged
    | LocalChanges(id: Id)
    | Downgrade
    | NotRegistrable
    | NothingToInstall
    | ArtifactMissing(id: Id)
    | TooLarge
    | ArtifactDigest(id: Id)
    | ArtifactInvalid(id: Id)
    | ArtifactIdentity(id: Id)
    | AlreadyInstalled(id: Id)
    | DestinationExists(directory: string)
    | MigrationChanged(id: Id)
    | LockInvalid

  const MAX_INSTALL_BYTES := 96 * 1024 * 1024

  function FindModule(modules: seq<Installed>, id: Id): (r: Option<Installed>)
    ensures r.Some? ==> r.value in modules && r.value.id == id
    ensures r.None? ==> forall m :: m in modules ==> m.id != id
  {
    if modules == [] then None
    else if modules[0].id == id then Some(modules[0])
    else FindModule(modules[1..], id)
  }

  function FindRelease(releases: seq<PlannedRelease>, id: Id): (r: Option<PlannedRelease>)
    ensures r.Some? ==> r.value in releases && r.value.release.manifest.id == id
  {
    if releases == [] then None
    else if releases[0].release.manifest.id == id then Some(releases[0])
    else FindRelease(releases[1..], id)
  }

  /** The directory is there and holds exactly what the lock records. */
  predicate Unmodified(dirs: map<string, Tree>, m: Installed) {
    m.directory in dirs && DirectoryHashes(dirs[m.directory]) == m.files
  }

  predicate IsMigration(path: string) {
    "migrations/" <= path
  }

  /** Every migration of the old files is there with the same hash. */
  predicate KeepsMigrations(old_: Hashes, new_: Hashes) {
    forall p :: p in old_ && IsMigration(p) ==> p in new_ && new_[p] == old_[p]
  }

  function ReleaseManifests(releases: seq<PlannedRelease>): seq<Manifest> {
    Map((r: PlannedRelease) => r.release.manifest, releases)
  }

  function Retained(plan: Plan): seq<Manifest> {
    if plan.update then Filter((m: Manifest) => m.id != plan.target, plan.manifests) else plan.manifests
  }

  /** The checks on one release and the entry it leads to. */
  ghost function PlanEntry(
      s: Settings, snapshot: seq<Installed>, dirs: map<string, Tree>, plan: Plan, r: PlannedRelease, size: nat)
    : Result<(PlannedEntry, nat), InstallError>
    requires s.roots != []
  {
    var m := r.release.manifest;
    if m.id !in plan.artifacts then Err(ArtifactMissing(m.id))
    else
      var a := plan.artifacts[m.id];
      if size + a.size > MAX_INSTALL_BYTES then Err(TooLarge)
      else if a.digest != r.release.sha256 then Err(ArtifactDigest(m.id))
      else if !AcceptableFiles(s.layout, a.files) then Err(ArtifactInvalid(m.id))
      else if a.manifest != m then Err(ArtifactIdentity(m.id))
      else
        var old_ := FindModule(snapshot, m.id);
        var directory := if old_.Some? then old_.value.directory else s.roots[0] + "/" + r.folder;
        if old_.Some? && !(plan.update && m.id == plan.target) then Err(AlreadyInstalled(m.id))
        else if old_.Some? && !Unmodified(dirs, old_.value) then Err(LocalChanges(m.id))
        else if old_.None? && directory in dirs then Err(DestinationExists(directory))
        else if old_.Some? && !KeepsMigrations(old_.value.files, Recorded(a.files)) then Err(MigrationChanged(m.id))
        else
          var installed := Installed(m.id, m.version, directory, r.release.sha256, Recorded(a.files));
          Ok((PlannedEntry(installed, old_, a.files), size + a.size))
  }

  /** The entries of the releases in turn, added to those planned so far. */
  ghost function PlanEntries(
      s: Settings, snapshot: seq<Installed>, dirs: map<string, Tree>, plan: Plan, releases: seq<PlannedRelease>,
      entries: seq<PlannedEntry>, size: nat)
    : Result<seq<PlannedEntry>, InstallError>
    requires s.roots != []
  {
    if releases == [] then Ok(entries)
    else
      match PlanEntry(s, snapshot, dirs, plan, releases[0], size)
      case Err(e) => Err(e)
      case Ok((entry, total)) => PlanEntries(s, snapshot, dirs, plan, releases[1..], entries + [entry], total)
  }

  function InstalledOf(entries: seq<PlannedEntry>): (r: seq<Installed>)
    ensures |r| == |entries| && forall i :: 0 <= i < |entries| ==> r[i] == entries[i].installed
  {
    Map((e: PlannedEntry) => e.installed, entries)
  }

  predicate Replaced(entries: seq<PlannedEntry>, id: Id) {
    exists e :: e in entries && e.installed.id == id
  }

  function Kept(modules: seq<Installed>, entries: seq<PlannedEntry>): seq<Installed> {
    Filter((m: Installed) => !Replaced(entries, m.id), modules)
  }

  function NextModules(modules: seq<Installed>, entries: seq<PlannedEntry>): seq<Installed> {
    SortByKey((m: Installed) => m.id, Kept(modules, entries) + InstalledOf(entries))
  }

  /** Everything decided before the transaction directory is made. */
  ghost function PlanInstall(s: Settings, lock: Option<LockText>, dirs: map<string, Tree>, plan: Plan)
    : Result<Job, InstallError>
    requires s.roots != []
  {
    var snapshot := Modules(lock);
    var previous := FindModule(snapshot, plan.target);
    var next := FindRelease(plan.releases, plan.target);
    if !ValidModules(s, snapshot) then Err(LockInvalid)
    else if DigestOf(lock) != plan.expectedLock then Err(PlanStale)
    else if previous.None? && exists m :: m in plan.manifests && m.id == plan.target then Err(NotManaged)
    else if plan.update && previous.None? then Err(NotManaged)
    else if plan.update && !Unmodified(dirs, previous.value) then Err(LocalChanges(plan.target))
    else if plan.update && (next.None? || Older(next.value.release.manifest.version, previous.value.version)) then
      Err(Downgrade)
    else if !Registrable(Retained(plan) + ReleaseManifests(plan.releases), s.platform) then Err(NotRegistrable)
    else if plan.releases == [] then
      Err(if previous.Some? && !Unmodified(dirs, previous.value) then LocalChanges(plan.target) else NothingToInstall)
    else
      match PlanEntries(s, snapshot, dirs, plan, plan.releases, [], 0)
      case Err(e) => Err(e)
      case Ok(entries) =>
        var modules := NextModules(snapshot, entries);
        if !ValidModules(s, modules) then Err(LockInvalid)
        else Ok(Job(lock, LockText(modules, "tabs"), entries, plan.expectedLock))
  }

  /* What a planned job guarantees. */

  /** The entry fits the lock it was planned against. */
  ghost predicate EntryFits(s: Settings, snapshot: seq<Installed>, e: PlannedEntry) {
    && AcceptableFiles(s.layout, e.files)
    && e.installed.files == Recorded(e.files)
    && e.previous == FindModule(snapshot, e.installed.id)
    && (e.previous.Some? ==>
          && e.installed.directory == e.previous.value.directory
          && KeepsMigrations(e.previous.value.files, e.installed.files)
          && !Older(e.installed.version, e.previous.value.version))
  }

  ghost predicate GoodJob(s: Settings, job: Job) {
    && job.entries != []
    && DigestOf(job.previous) == job.expected
    && ValidModules(s, Modules(job.previous))
    && ValidModules(s, job.next.modules)
    && job.next.modules == NextModules(Modules(job.previous), job.entries)
    && (forall e :: e in job.entries ==> EntryFits(s, Modules(job.previous), e))
  }

  /** An updated target does not go back to an older version. */
  predicate NoDowngrade(snapshot: seq<Installed>, plan: Plan, r: PlannedRelease) {
    plan.update && r.release.manifest.id == plan.target && FindModule(snapshot, plan.target).Some? ==>
      !Older(r.release.manifest.version, FindModule(snapshot, plan.target).value.version)
  }

  lemma EntryFromRelease(
      s: Settings, snapshot: seq<Installed>, dirs: map<string, Tree>, plan: Plan, r: PlannedRelease, size: nat)
    requires s.roots != []
    requires PlanEntry(s, snapshot, dirs, plan, r, size).Ok?
    requires NoDowngrade(snapshot, plan, r)
    ensures EntryFits(s, snapshot, PlanEntry(s, snapshot, dirs, plan, r, size).value.0)
  {
  }

  lemma {:induction false} EntriesFromReleases(
      s: Settings, snapshot: seq<Installed>, dirs: map<string, Tree>, plan: Plan, releases: seq<PlannedRelease>,
      entries: seq<PlannedEntry>, size: nat)
    requires s.roots != []
    requires PlanEntries(s, snapshot, dirs, plan, releases, entries, size).Ok?
    requires forall e :: e in entries ==> EntryFits(s, snapshot, e)
    requires forall r :: r in releases ==> NoDowngrade(snapshot, plan, r)
    ensures var planned := PlanEntries(s, snapshot, dirs, plan, releases, entries, size).value;
      (forall e :: e in planned ==> EntryFits(s, snapshot, e)) && |planned| == |entries| + |releases|
    decreases |releases|
  {
    if releases != [] {
      assert releases[0] in releases;
      EntryFromRelease(s, snapshot, dirs, plan, releases[0], size);
      var (entry, total) := PlanEntry(s, snapshot, dirs, plan, releases[0], size).value;
      assert forall r :: r in releases[1..] ==> r in releases;
      EntriesFromReleases(s, snapshot, dirs, plan, releases[1..], entries + [entry], total);
    }
  }

  ghost predicate OneReleaseEach(releases: seq<PlannedRelease>) {
    forall i, j :: 0 <= i < j < |releases| ==> releases[i].release.manifest.id != releases[j].release.manifest.id
  }

  lemma RegisteredOncePerId(before: seq<Manifest>, releases: seq<PlannedRelease>, platform: Version)
    requires Registrable(before + ReleaseManifests(releases), platform)
    ensures OneReleaseEach(releases)
  {
    hide OneProviderEach, AllAdmitted;
    var all := before + ReleaseManifests(releases);
    assert Distinct(Ids(all));
    forall i, j | 0 <= i < j < |releases| ensures releases[i].release.manifest.id != releases[j].release.manifest.id {
      assert Ids(all)[|before| + i] == releases[i].release.manifest.id;
      assert Ids(all)[|before| + j] == releases[j].release.manifest.id;
    }
  }

  /** Registered releases have one release per id, so the one found is the one planned. */
  lemma OneReleasePerId(before: seq<Manifest>, releases: seq<PlannedRelease>, platform: Version, r: PlannedRelease)
    requires Registrable(before + ReleaseManifests(releases), platform) && r in releases
    ensures FindRelease(releases, r.release.manifest.id) == Some(r)
  {
    RegisteredOncePerId(before, releases, platform);
    FindOnly(releases, r);
  }

  lemma {:induction false} FindOnly(releases: seq<PlannedRelease>, r: PlannedRelease)
    requires r in releases && OneReleaseEach(releases)
    ensures FindRelease(releases, r.release.manifest.id) == Some(r)
  {
    if releases[0] != r {
      var k :| 0 < k < |releases| && releases[k] == r;
      assert releases[1..][k - 1] == r;
      FindOnly(releases[1..], r);
    }
  }

  /** A plan that passes every check leads to a good job. */
  lemma PlannedJobIsGood(s: Settings, lock: Option<LockText>, dirs: map<string, Tree>, plan: Plan)
    requires s.roots != [] && PlanInstall(s, lock, dirs, plan).Ok?
    ensures var job := PlanInstall(s, lock, dirs, plan).value;
      GoodJob(s, job) && job.previous == lock && job.expected == plan.expectedLock == DigestOf(lock)
  {
    hide PlanEntry, PlanEntries, Registrable, NextModules, Unmodified, InRoot, EntryFits;
    forall r | r in plan.releases ensures NoDowngrade(Modules(lock), plan, r) {
      if plan.update && r.release.manifest.id == plan.target {
        OneReleasePerId(Retained(plan), plan.releases, s.platform, r);
      }
    }
    EntriesFromReleases(s, Modules(lock), dirs, plan, plan.releases, [], 0);
  }

  /** The entry is what the release and its artifact say, and only the target replaces a module. */
  ghost predicate Verified(s: Settings, plan: Plan, r: PlannedRelease, e: PlannedEntry)
    requires s.roots != []
  {
    var m := r.release.manifest;
    m.id in plan.artifacts
    && var a := plan.artifacts[m.id];
    && e.installed.id == m.id && e.installed.version == m.version
    && e.installed.sha256 == r.release.sha256 == a.digest
    && e.files == a.files && a.manifest == m
    && (e.previous.Some? ==> plan.update && m.id == plan.target)
    && (e.previous.None? ==> e.installed.directory == s.roots[0] + "/" + r.folder)
  }

  function ArtifactBytes(plan: Plan, releases: seq<PlannedRelease>): nat {
    if releases == [] then 0
    else
      var id := releases[0].release.manifest.id;
      (if id in plan.artifacts then plan.artifacts[id].size else 0) + ArtifactBytes(plan, releases[1..])
  }

  lemma EntryIsVerified(
      s: Settings, snapshot: seq<Installed>, dirs: map<string, Tree>, plan: Plan, r: PlannedRelease, size: nat)
    requires s.roots != [] && PlanEntry(s, snapshot, dirs, plan, r, size).Ok?
    ensures var (e, total) := PlanEntry(s, snapshot, dirs, plan, r, size).value;
      Verified(s, plan, r, e) && total == size + ArtifactBytes(plan, [r]) && total <= MAX_INSTALL_BYTES
  {
    assert [r][1..] == [];
  }

  lemma {:induction false} EntriesAreVerified(
      s: Settings, snapshot: seq<Installed>, dirs: map<string, Tree>, plan: Plan, releases: seq<PlannedRelease>,
      entries: seq<PlannedEntry>, size: nat)
    requires s.roots != [] && size <= MAX_INSTALL_BYTES
    requires PlanEntries(s, snapshot, dirs, plan, releases, entries, size).Ok?
    ensures var planned := PlanEntries(s, snapshot, dirs, plan, releases, entries, size).value;
      && |planned| == |entries| + |releases| && planned[..|entries|] == entries
      && (forall i :: 0 <= i < |releases| ==> Verified(s, plan, releases[i], planned[|entries| + i]))
      && size + ArtifactBytes(plan, releases) <= MAX_INSTALL_BYTES
    decreases |releases|
  {
    hide PlanEntry, Verified;
    if releases != [] {
      EntryIsVerified(s, snapshot, dirs, plan, releases[0], size);
      var (entry, total) := PlanEntry(s, snapshot, dirs, plan, releases[0], size).value;
      EntriesAreVerified(s, snapshot, dirs, plan, releases[1..], entries + [entry], total);
      var planned := PlanEntries(s, snapshot, dirs, plan, releases, entries, size).value;
      assert planned[|entries|] == entry && planned[..|entries|] == entries by {
        assert planned[..|entries| + 1] == entries + [entry];
      }
      assert ArtifactBytes(plan, [releases[0]]) + ArtifactBytes(plan, releases[1..])
          == ArtifactBytes(plan, releases) by {
        assert [releases[0]][1..] == [];
      }
      forall i | 0 <= i < |releases| ensures Verified(s, plan, releases[i], planned[|entries| + i]) {
        if i > 0 {
          assert releases[1..][i - 1] == releases[i];
        }
      }
    }
  }

  /** A planned install has one entry per release, in order: each with the identity and files of an
      artifact whose digest and manifest are the release's, within the size limit together. Only
      the target of an update replaces a module. */
  lemma PlannedEntriesAreVerified(s: Settings, lock: Option<LockText>, dirs: map<string, Tree>, plan: Plan)
    requires s.roots != [] && PlanInstall(s, lock, dirs, plan).Ok?
    ensures var entries := PlanInstall(s, lock, dirs, plan).value.entries;
      && |entries| == |plan.releases|
      && (forall i :: 0 <= i < |entries| ==> Verified(s, plan, plan.releases[i], entries[i]))
      && ArtifactBytes(plan, plan.releases) <= MAX_INSTALL_BYTES
  {
    hide Verified, PlanEntries;
    EntriesAreVerified(s, Modules(lock), dirs, plan, plan.releases, [], 0);
  }

  /* The module list an install leads to. */

  ghost predicate DistinctIds(modules: seq<Installed>) {
    forall i, j :: 0 <= i < j < |modules| ==> modules[i].id != modules[j].id
  }

  /** What the next list holds: the entries, and every other module as it was. */
  lemma NextMembers(modules: seq<Installed>, entries: seq<PlannedEntry>)
    ensures forall m :: m in NextModules(modules, entries)
                        <==> (m in modules && !Replaced(entries, m.id)) || m in InstalledOf(entries)
  {
    var all := Kept(modules, entries) + InstalledOf(entries);
    SortKeepsElements((m: Installed) => m.id, all);
    forall m ensures m in NextModules(modules, entries) <==> m in all {
      assert m in Elems(NextModules(modules, entries)) <==> m in Elems(all);
    }
  }

  lemma {:induction false} FoundIfDistinct(modules: seq<Installed>, m: Installed)
    requires DistinctIds(modules) && m in modules
    ensures FindModule(modules, m.id) == Some(m)
  {
    if modules[0] != m {
      var k :| 0 < k < |modules| && modules[k] == m;
      assert modules[1..][k - 1] == m;
      FoundIfDistinct(modules[1..], m);
    }
  }
}
