/** The checks before an install as they run: the lockfile, the releases one by one, and the
    module list the install leads to. */
module InstallPlanning {
  import opened Basics
  import opened Versions
  import opened Manifests
  import opened Artifact
  import opened Registry
  import opened InstallPlan

  function IdsOf(modules: seq<Installed>): (r: seq<string>)
    ensures |r| == |modules| && forall i :: 0 <= i < |r| ==> r[i] == modules[i].id
  {
    Map((m: Installed) => m.id, modules)
  }

  function PlacesOf(modules: seq<Installed>): (r: seq<string>)
    ensures |r| == |modules| && forall i :: 0 <= i < |r| ==> r[i] == Lower(modules[i].directory)
  {
    Map((m: Installed) => Lower(m.directory), modules)
  }

  /** The first n keys are distinct and are the ones seen. */
  ghost predicate Seen(keys: seq<string>, n: nat, seen: set<string>) {
    n <= |keys| && seen == Elems(keys[..n]) && forall i, j :: 0 <= i < j < n ==> keys[i] != keys[j]
  }

  lemma SeenStep(keys: seq<string>, n: nat, seen: set<string>)
    requires Seen(keys, n, seen) && n < |keys|
    ensures keys[n] !in seen ==> Seen(keys, n + 1, seen + {keys[n]})
    ensures keys[n] in seen ==> exists i :: 0 <= i < n && keys[i] == keys[n]
  {
    assert keys[..n + 1] == keys[..n] + [keys[n]];
    ElemsOfSum(keys[..n], [keys[n]]);
    if keys[n] !in seen {
      forall i, j | 0 <= i < j < n + 1 ensures keys[i] != keys[j] {
        if j == n {
          assert keys[..n][i] in seen;
        }
      }
    }
  }

  /** What holds of the entries checked so far and the sets collected from them. */
  ghost predicate LockChecked(s: Settings, modules: seq<Installed>, n: nat, ids: set<Id>, dirs: set<string>) {
    && n <= |modules|
    && (forall i :: 0 <= i < n ==> InRoot(s, modules[i].directory) && SafeFiles(s, modules[i]))
    && Seen(IdsOf(modules), n, ids)
    && Seen(PlacesOf(modules), n, dirs)
  }

  predicate SafeFiles(s: Settings, m: Installed) {
    forall p :: p in m.files ==> SafeSourcePath(s.layout, p)
  }

  lemma LockCheckedStep(s: Settings, modules: seq<Installed>, n: nat, ids: set<Id>, dirs: set<string>)
    requires LockChecked(s, modules, n, ids, dirs) && n < |modules|
    requires InRoot(s, modules[n].directory) && SafeFiles(s, modules[n])
    requires modules[n].id !in ids && Lower(modules[n].directory) !in dirs
    ensures LockChecked(s, modules, n + 1, ids + {modules[n].id}, dirs + {Lower(modules[n].directory)})
  {
    SeenStep(IdsOf(modules), n, ids);
    SeenStep(PlacesOf(modules), n, dirs);
  }

  lemma LockCheckedAll(s: Settings, modules: seq<Installed>, ids: set<Id>, dirs: set<string>)
    requires LockChecked(s, modules, |modules|, ids, dirs) && |modules| <= MAX_MODULES
    ensures ValidModules(s, modules)
  {
    forall m | m in modules ensures InRoot(s, m.directory) && forall p :: p in m.files ==> SafeSourcePath(s.layout, p) {
      var i :| 0 <= i < |modules| && modules[i] == m;
      assert SafeFiles(s, modules[i]);
    }
  }

  lemma RepeatedEntry(s: Settings, modules: seq<Installed>, n: nat, ids: set<Id>, dirs: set<string>)
    requires LockChecked(s, modules, n, ids, dirs) && n < |modules|
    requires modules[n].id in ids || Lower(modules[n].directory) in dirs
    ensures !ValidModules(s, modules)
  {
    SeenStep(IdsOf(modules), n, ids);
    SeenStep(PlacesOf(modules), n, dirs);
    if modules[n].id in ids {
      var i :| 0 <= i < n && IdsOf(modules)[i] == IdsOf(modules)[n];
      assert modules[i].id == modules[n].id;
    } else {
      var i :| 0 <= i < n && PlacesOf(modules)[i] == PlacesOf(modules)[n];
      assert Lower(modules[i].directory) == Lower(modules[n].directory);
    }
  }

  lemma BadEntry(s: Settings, modules: seq<Installed>, n: nat)
    requires n < |modules| && (!InRoot(s, modules[n].directory) || !SafeFiles(s, modules[n]))
    ensures !ValidModules(s, modules)
  {
    assert modules[n] in modules;
  }

  /** Accepts exactly the module lists a lockfile may hold. */
  method ValidateLock(s: Settings, modules: seq<Installed>) returns (valid: bool)
    ensures valid == ValidModules(s, modules)
  {
    if |modules| > MAX_MODULES {
      return false;
    }
    var ids: set<Id> := {};
    var dirs: set<string> := {};
    for n := 0 to |modules|
      invariant LockChecked(s, modules, n, ids, dirs)
    {
      var m := modules[n];
      if !InRoot(s, m.directory) {
        BadEntry(s, modules, n);
        return false;
      }
      if m.id in ids || Lower(m.directory) in dirs {
        RepeatedEntry(s, modules, n, ids, dirs);
        return false;
      }
      if !SafeFiles(s, m) {
        BadEntry(s, modules, n);
        return false;
      }
      LockCheckedStep(s, modules, n, ids, dirs);
      ids := ids + {m.id};
      dirs := dirs + {Lower(m.directory)};
    }
    LockCheckedAll(s, modules, ids, dirs);
    return true;
  }

  method PlanRelease(
      s: Settings, snapshot: seq<Installed>, dirs: map<string, Tree>, plan: Plan, r: PlannedRelease, size: nat)
    returns (planned: Result<(PlannedEntry, nat), InstallError>)
    requires s.roots != []
    ensures planned == PlanEntry(s, snapshot, dirs, plan, r, size)
  {
    var m := r.release.manifest;
    if m.id !in plan.artifacts {
      return Err(ArtifactMissing(m.id));
    }
    var a := plan.artifacts[m.id];
    if size + a.size > MAX_INSTALL_BYTES {
      return Err(TooLarge);
    }
    if a.digest != r.release.sha256 {
      return Err(ArtifactDigest(m.id));
    }
    var failure := ValidateFiles(s.layout, a.files);
    if failure.Some? {
      return Err(ArtifactInvalid(m.id));
    }
    if a.manifest != m {
      return Err(ArtifactIdentity(m.id));
    }
    var former := FindModule(snapshot, m.id);
    var directory := if former.Some? then former.value.directory else s.roots[0] + "/" + r.folder;
    if former.Some? {
      if !(plan.update && m.id == plan.target) {
        return Err(AlreadyInstalled(m.id));
      }
      if !Unmodified(dirs, former.value) {
        return Err(LocalChanges(m.id));
      }
    } else if directory in dirs {
      return Err(DestinationExists(directory));
    }
    var hashes := Recorded(a.files);
    if former.Some? && !KeepsMigrations(former.value.files, hashes) {
      return Err(MigrationChanged(m.id));
    }
    return Ok((PlannedEntry(Installed(m.id, m.version, directory, r.release.sha256, hashes), former, a.files),
               size + a.size));
  }

  /** Plans the releases in turn. */
  method PlanReleases(s: Settings, snapshot: seq<Installed>, dirs: map<string, Tree>, plan: Plan)
    returns (planned: Result<seq<PlannedEntry>, InstallError>)
    requires s.roots != []
    ensures planned == PlanEntries(s, snapshot, dirs, plan, plan.releases, [], 0)
  {
    var entries: seq<PlannedEntry> := [];
    var size: nat := 0;
    for i := 0 to |plan.releases|
      invariant PlanEntries(s, snapshot, dirs, plan, plan.releases, [], 0)
             == PlanEntries(s, snapshot, dirs, plan, plan.releases[i..], entries, size)
    {
      assert plan.releases[i..][0] == plan.releases[i] && plan.releases[i..][1..] == plan.releases[i + 1..];
      var one := PlanRelease(s, snapshot, dirs, plan, plan.releases[i], size);
      if one.Err? {
        return Err(one.error);
      }
      entries, size := entries + [one.value.0], one.value.1;
    }
    return Ok(entries);
  }

  /** Everything decided before the transaction directory is made. */
  method PlanModules(s: Settings, lock: Option<LockText>, dirs: map<string, Tree>, plan: Plan)
    returns (planned: Result<Job, InstallError>)
    requires s.roots != []
    ensures planned == PlanInstall(s, lock, dirs, plan)
    ensures planned.Ok? ==> GoodJob(s, planned.value) && planned.value.previous == lock
                            && DigestOf(lock) == plan.expectedLock
  {
    var snapshot := Modules(lock);
    var valid := ValidateLock(s, snapshot);
    if !valid {
      return Err(LockInvalid);
    }
    if DigestOf(lock) != plan.expectedLock {
      return Err(PlanStale);
    }
    var refusal := CheckTarget(s, snapshot, dirs, plan);
    if refusal.Some? {
      return Err(refusal.value);
    }
    var registry := CreateRegistry(Retained(plan) + ReleaseManifests(plan.releases), s.platform);
    if registry.Err? {
      return Err(NotRegistrable);
    }
    if plan.releases == [] {
      var previous := FindModule(snapshot, plan.target);
      if previous.Some? && !Unmodified(dirs, previous.value) {
        return Err(LocalChanges(plan.target));
      }
      return Err(NothingToInstall);
    }
    var entries := PlanReleases(s, snapshot, dirs, plan);
    if entries.Err? {
      return Err(entries.error);
    }
    var modules := NextModules(snapshot, entries.value);
    valid := ValidateLock(s, modules);
    if !valid {
      return Err(LockInvalid);
    }
    PlannedJobIsGood(s, lock, dirs, plan);
    return Ok(Job(lock, LockText(modules, "tabs"), entries.value, plan.expectedLock));
  }

  /* The checks on the target itself. */

  /** The lockfile has a module of this id, as it is on disk. */
  predicate ManagedUnmodified(snapshot: seq<Installed>, dirs: map<string, Tree>, m: Installed, id: Id) {
    m in snapshot && m.id == id && Unmodified(dirs, m)
  }

  /** Position i holds the first release of this id. */
  ghost predicate FirstAt(releases: seq<PlannedRelease>, id: Id, i: nat) {
    && i < |releases| && releases[i].release.manifest.id == id
    && (forall j :: 0 <= j < i ==> releases[j].release.manifest.id != id)
  }

  /** The first release of this id is not older than m. */
  ghost predicate FirstIsNotOlder(releases: seq<PlannedRelease>, id: Id, m: Installed) {
    exists i :: 0 <= i < |releases| && FirstAt(releases, id, i)
      && !Older(releases[i].release.manifest.version, m.version)
  }

  /** A target that is new is not in the workspace under another hand; one that is updated is
      managed, unmodified and not taken back to an older version. */
  ghost predicate TargetAdmitted(snapshot: seq<Installed>, dirs: map<string, Tree>, plan: Plan) {
    if plan.update then
      exists m :: ManagedUnmodified(snapshot, dirs, m, plan.target) && FirstIsNotOlder(plan.releases, plan.target, m)
    else (exists m :: m in snapshot && m.id == plan.target) || forall m :: m in plan.manifests ==> m.id != plan.target
  }

  function TargetRefusal(snapshot: seq<Installed>, dirs: map<string, Tree>, plan: Plan): Option<InstallError> {
    var previous := FindModule(snapshot, plan.target);
    var next := FindRelease(plan.releases, plan.target);
    if previous.None? && exists m :: m in plan.manifests && m.id == plan.target then Some(NotManaged)
    else if plan.update && previous.None? then Some(NotManaged)
    else if plan.update && !Unmodified(dirs, previous.value) then Some(LocalChanges(plan.target))
    else if plan.update && (next.None? || Older(next.value.release.manifest.version, previous.value.version)) then
      Some(Downgrade)
    else None
  }

  lemma {:induction false} FoundIsFirst(releases: seq<PlannedRelease>, id: Id) returns (i: nat)
    ensures match FindRelease(releases, id)
            case Some(r) => FirstAt(releases, id, i) && releases[i] == r
            case None => forall k: nat :: !FirstAt(releases, id, k)
  {
    i := 0;
    if releases != [] && releases[0].release.manifest.id != id {
      i := FoundIsFirst(releases[1..], id);
      if FindRelease(releases[1..], id).Some? {
        i := i + 1;
      } else {
        forall k: nat ensures !FirstAt(releases, id, k) {
          assert k > 0 ==> !FirstAt(releases[1..], id, k - 1);
        }
      }
    }
  }

  lemma OneFirst(releases: seq<PlannedRelease>, id: Id, i: nat, j: nat)
    requires FirstAt(releases, id, i) && FirstAt(releases, id, j)
    ensures i == j
  {
  }

  lemma FoundIsNotOlder(releases: seq<PlannedRelease>, id: Id, m: Installed)
    ensures var next := FindRelease(releases, id);
      next.Some? && !Older(next.value.release.manifest.version, m.version) <==> FirstIsNotOlder(releases, id, m)
  {
    hide FindRelease, Older, FirstAt;
    var i := FoundIsFirst(releases, id);
    if FirstIsNotOlder(releases, id, m) {
      var k :| 0 <= k < |releases| && FirstAt(releases, id, k)
          && !Older(releases[k].release.manifest.version, m.version);
      if FindRelease(releases, id).Some? {
        OneFirst(releases, id, i, k);
      }
    }
  }

  /** With distinct ids in the lockfile, the checks let a target pass exactly when it is admitted;
      a refusal says what is wrong. */
  lemma TargetPassesExactly(snapshot: seq<Installed>, dirs: map<string, Tree>, plan: Plan)
    requires DistinctIds(snapshot)
    ensures var refusal := TargetRefusal(snapshot, dirs, plan);
      && (refusal.None? <==> TargetAdmitted(snapshot, dirs, plan))
      && (match refusal
          case Some(NotManaged) =>
            && (forall m :: m in snapshot ==> m.id != plan.target)
            && (plan.update || exists m :: m in plan.manifests && m.id == plan.target)
          case Some(LocalChanges(id)) =>
            plan.update && id == plan.target && exists m :: m in snapshot && m.id == id && !Unmodified(dirs, m)
          case Some(Downgrade) =>
            plan.update && exists m :: ManagedUnmodified(snapshot, dirs, m, plan.target)
                                       && !FirstIsNotOlder(plan.releases, plan.target, m)
          case Some(_) => false
          case None => true)
  {
    hide Unmodified;
    var previous := FindModule(snapshot, plan.target);
    if previous.Some? {
      FoundIsNotOlder(plan.releases, plan.target, previous.value);
      forall m | m in snapshot && m.id == plan.target ensures m == previous.value {
        FoundIfDistinct(snapshot, m);
      }
    }
  }

  method CheckTarget(s: Settings, snapshot: seq<Installed>, dirs: map<string, Tree>, plan: Plan)
    returns (refusal: Option<InstallError>)
    ensures refusal == TargetRefusal(snapshot, dirs, plan)
    ensures DistinctIds(snapshot) ==> (refusal.None? <==> TargetAdmitted(snapshot, dirs, plan))
  {
    if DistinctIds(snapshot) {
      TargetPassesExactly(snapshot, dirs, plan);
    }
    var previous := FindModule(snapshot, plan.target);
    if previous.None? && exists m :: m in plan.manifests && m.id == plan.target {
      return Some(NotManaged);
    }
    if plan.update {
      if previous.None? {
        return Some(NotManaged);
      }
      if !Unmodified(dirs, previous.value) {
        return Some(LocalChanges(plan.target));
      }
      var next := FindRelease(plan.releases, plan.target);
      if next.None? || Older(next.value.release.manifest.version, previous.value.version) {
        return Some(Downgrade);
      }
    }
    return None;
  }
}
