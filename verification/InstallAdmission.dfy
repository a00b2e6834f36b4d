/** Which plans are accepted: an exact condition on the plan, the lockfile and the directories that
    can be read off before anything is planned. */
module InstallAdmission {
  import opened Basics
  import opened Manifests
  import opened Artifact
  import opened Registry
  import opened InstallPlan
  import opened InstallTheorems
  import opened InstallPlanning

  /** The lockfile has no module with the id of the release. */
  ghost predicate IsNew(snapshot: seq<Installed>, r: PlannedRelease) {
    forall m :: m in snapshot ==> m.id != r.release.manifest.id
  }

  function PlaceOf(s: Settings, r: PlannedRelease): string
    requires s.roots != []
  {
    s.roots[0] + "/" + r.folder
  }

  /** The artifact is there and is what the release pins. */
  ghost predicate Pinned(s: Settings, plan: Plan, r: PlannedRelease) {
    && r.release.manifest.id in plan.artifacts
    && var a := plan.artifacts[r.release.manifest.id];
    && a.digest == r.release.sha256 && a.manifest == r.release.manifest && AcceptableFiles(s.layout, a.files)
  }

  /** A pinned release has a free place, or it updates the unmodified target and keeps its migrations. */
  ghost predicate ReleaseAdmitted(
      s: Settings, snapshot: seq<Installed>, dirs: map<string, Tree>, plan: Plan, r: PlannedRelease)
    requires s.roots != []
  {
    var id := r.release.manifest.id;
    && Pinned(s, plan, r)
    && if IsNew(snapshot, r) then PlaceOf(s, r) !in dirs
       else
         && plan.update && id == plan.target
         && exists m :: ManagedUnmodified(snapshot, dirs, m, id)
                        && KeepsMigrations(m.files, Recorded(plan.artifacts[id].files))
  }

  /** The new modules go to directories a lockfile may name, apart from every other module's. */
  ghost predicate PlacesAreFree(s: Settings, snapshot: seq<Installed>, releases: seq<PlannedRelease>)
    requires s.roots != []
  {
    && (forall r, m :: r in releases && IsNew(snapshot, r) && m in snapshot ==>
          Lower(m.directory) != Lower(PlaceOf(s, r)))
    && (forall r :: r in releases && IsNew(snapshot, r) ==> InRoot(s, PlaceOf(s, r)))
    && (forall i, j :: 0 <= i < j < |releases| && IsNew(snapshot, releases[i]) && IsNew(snapshot, releases[j]) ==>
          Lower(PlaceOf(s, releases[i])) != Lower(PlaceOf(s, releases[j])))
  }

  ghost predicate Admitted(s: Settings, lock: Option<LockText>, dirs: map<string, Tree>, plan: Plan)
    requires s.roots != []
  {
    && ValidModules(s, Modules(lock))
    && DigestOf(lock) == plan.expectedLock
    && TargetAdmitted(Modules(lock), dirs, plan)
    && Registrable(Retained(plan) + ReleaseManifests(plan.releases), s.platform)
    && plan.releases != []
    && (forall r :: r in plan.releases ==> ReleaseAdmitted(s, Modules(lock), dirs, plan, r))
    && ArtifactBytes(plan, plan.releases) <= MAX_INSTALL_BYTES
    && PlacesAreFree(s, Modules(lock), plan.releases)
    && |Modules(lock)| + |plan.releases| <= MAX_MODULES + if plan.update then 1 else 0
  }

  /* The releases. */

  lemma ReleasePassesExactly(
      s: Settings, snapshot: seq<Installed>, dirs: map<string, Tree>, plan: Plan, r: PlannedRelease, size: nat)
    requires s.roots != [] && DistinctIds(snapshot)
    ensures PlanEntry(s, snapshot, dirs, plan, r, size).Ok?
       <==> ReleaseAdmitted(s, snapshot, dirs, plan, r) && size + ArtifactBytes(plan, [r]) <= MAX_INSTALL_BYTES
  {
    hide AcceptableFiles, KeepsMigrations, Recorded, Unmodified;
    var id := r.release.manifest.id;
    assert [r][1..] == [];
    var former := FindModule(snapshot, id);
    if former.Some? {
      forall m | m in snapshot && m.id == id ensures m == former.value {
        FoundIfDistinct(snapshot, m);
      }
    }
  }

  lemma {:induction false} ReleasesPassExactly(
      s: Settings, snapshot: seq<Installed>, dirs: map<string, Tree>, plan: Plan, releases: seq<PlannedRelease>,
      entries: seq<PlannedEntry>, size: nat)
    requires s.roots != [] && DistinctIds(snapshot) && size <= MAX_INSTALL_BYTES
    ensures PlanEntries(s, snapshot, dirs, plan, releases, entries, size).Ok?
       <==> (forall r :: r in releases ==> ReleaseAdmitted(s, snapshot, dirs, plan, r))
            && size + ArtifactBytes(plan, releases) <= MAX_INSTALL_BYTES
    decreases |releases|
  {
    hide PlanEntry, ReleaseAdmitted, Verified;
    if releases != [] {
      var first := PlanEntry(s, snapshot, dirs, plan, releases[0], size);
      ReleasePassesExactly(s, snapshot, dirs, plan, releases[0], size);
      assert ArtifactBytes(plan, [releases[0]]) + ArtifactBytes(plan, releases[1..])
          == ArtifactBytes(plan, releases) by {
        assert [releases[0]][1..] == [];
      }
      assert forall r :: r in releases <==> r == releases[0] || r in releases[1..];
      if first.Ok? {
        EntryIsVerified(s, snapshot, dirs, plan, releases[0], size);
        ReleasesPassExactly(s, snapshot, dirs, plan, releases[1..], entries + [first.value.0], first.value.1);
      }
    }
  }

  /* The module list the entries lead to. */

  lemma ValidInAnyOrder(s: Settings, a: seq<Installed>, b: seq<Installed>)
    requires multiset(a) == multiset(b) && ValidModules(s, a)
    ensures ValidModules(s, b)
  {
    hide InRoot, Lower;
    assert |a| == |multiset(a)| == |multiset(b)| == |b|;
    forall m | m in b ensures m in a {
      assert m in multiset(b);
    }
    forall i, j | 0 <= i < j < |b|
      ensures b[i].id != b[j].id && Lower(b[i].directory) != Lower(b[j].directory)
    {
      var p, q := TwoPlaces(b, a, i, j);
      if p < q {
        assert a[p].id != a[q].id;
      } else {
        assert a[q].id != a[p].id;
      }
    }
  }

  lemma NextIsValidInAnyOrder(s: Settings, modules: seq<Installed>, entries: seq<PlannedEntry>)
    ensures ValidModules(s, NextModules(modules, entries))
       <==> ValidModules(s, Kept(modules, entries) + InstalledOf(entries))
  {
    hide ValidModules;
    var all := Kept(modules, entries) + InstalledOf(entries);
    SortKeepsMultiset((m: Installed) => m.id, all);
    if ValidModules(s, all) {
      ValidInAnyOrder(s, all, NextModules(modules, entries));
    }
    if ValidModules(s, NextModules(modules, entries)) {
      ValidInAnyOrder(s, NextModules(modules, entries), all);
    }
  }

  /** What the entries of admitted releases record. */
  ghost predicate Records(s: Settings, snapshot: seq<Installed>, plan: Plan, r: PlannedRelease, e: Installed)
    requires s.roots != []
  {
    && e.id == r.release.manifest.id && SafeFiles(s, e)
    && if IsNew(snapshot, r) then e.directory == PlaceOf(s, r)
       else
         && plan.update && e.id == plan.target
         && exists m :: m in snapshot && m.id == e.id && m.directory == e.directory
  }

  ghost predicate AllRecord(s: Settings, snapshot: seq<Installed>, plan: Plan, entries: seq<PlannedEntry>)
    requires s.roots != []
  {
    && |entries| == |plan.releases|
    && forall i :: 0 <= i < |entries| ==> Records(s, snapshot, plan, plan.releases[i], entries[i].installed)
  }

  lemma EntryRecords(s: Settings, snapshot: seq<Installed>, plan: Plan, r: PlannedRelease, e: PlannedEntry)
    requires s.roots != [] && Verified(s, plan, r, e) && EntryFits(s, snapshot, e)
    ensures Records(s, snapshot, plan, r, e.installed)
  {
    hide KeepsMigrations, IsMigration, SafeSourcePath, Lower, TotalSize;
    RecordedMembers(e.files) by {
      forall i, j | 0 <= i < j < |e.files| ensures e.files[i].path != e.files[j].path {
        assert Lower(e.files[i].path) != Lower(e.files[j].path);
      }
    }
  }

  lemma PlannedEntriesRecord(s: Settings, snapshot: seq<Installed>, dirs: map<string, Tree>, plan: Plan)
    requires s.roots != [] && PlanEntries(s, snapshot, dirs, plan, plan.releases, [], 0).Ok?
    requires forall r :: r in plan.releases ==> NoDowngrade(snapshot, plan, r)
    ensures AllRecord(s, snapshot, plan, PlanEntries(s, snapshot, dirs, plan, plan.releases, [], 0).value)
  {
    hide PlanEntries, EntryFits, Verified, Records;
    EntriesAreVerified(s, snapshot, dirs, plan, plan.releases, [], 0);
    EntriesFromReleases(s, snapshot, dirs, plan, plan.releases, [], 0);
    var entries := PlanEntries(s, snapshot, dirs, plan, plan.releases, [], 0).value;
    forall i | 0 <= i < |entries| ensures Records(s, snapshot, plan, plan.releases[i], entries[i].installed) {
      EntryRecords(s, snapshot, plan, plan.releases[i], entries[i]);
    }
  }

  lemma {:induction false} FilterOfAll<T(!new)>(keep: T -> bool, s: seq<T>)
    requires forall x :: x in s ==> keep(x)
    ensures Filter(keep, s) == s
  {
    if s != [] {
      FilterOfAll(keep, s[1..]);
    }
  }

  lemma {:induction false} FilterLosesOne(keep: Installed -> bool, s: seq<Installed>, k: nat)
    requires k < |s| && forall i :: 0 <= i < |s| ==> (keep(s[i]) <==> i != k)
    ensures |Filter(keep, s)| == |s| - 1
  {
    assert s == s[..k] + ([s[k]] + s[k + 1..]);
    FilterOfSum(keep, s[..k], [s[k]] + s[k + 1..]);
    FilterOfAll(keep, s[..k]);
    FilterOfAll(keep, s[k + 1..]);
    assert ([s[k]] + s[k + 1..])[1..] == s[k + 1..];
  }

  lemma ReplacedIsReleased(s: Settings, snapshot: seq<Installed>, plan: Plan, entries: seq<PlannedEntry>, id: Id)
    requires s.roots != [] && AllRecord(s, snapshot, plan, entries)
    ensures Replaced(entries, id) <==> exists r :: r in plan.releases && r.release.manifest.id == id
  {
    if Replaced(entries, id) {
      var i :| 0 <= i < |entries| && entries[i].installed.id == id;
      assert plan.releases[i] in plan.releases;
    }
    forall r | r in plan.releases && r.release.manifest.id == id ensures Replaced(entries, id) {
      var i :| 0 <= i < |entries| && plan.releases[i] == r;
      assert entries[i] in entries;
    }
  }

  /** Only the target of an update leaves the list, to come back as its new entry. */
  lemma KeptCount(s: Settings, snapshot: seq<Installed>, dirs: map<string, Tree>, plan: Plan,
                  entries: seq<PlannedEntry>)
    requires s.roots != [] && DistinctIds(snapshot) && AllRecord(s, snapshot, plan, entries)
    requires TargetAdmitted(snapshot, dirs, plan)
    ensures |Kept(snapshot, entries)| == |snapshot| - if plan.update then 1 else 0
  {
    hide Unmodified, Replaced;
    var keep := (m: Installed) => !Replaced(entries, m.id);
    forall m | m in snapshot ensures Replaced(entries, m.id) ==> plan.update && m.id == plan.target {
      ReplacedIsReleased(s, snapshot, plan, entries, m.id);
      if Replaced(entries, m.id) {
        var r :| r in plan.releases && r.release.manifest.id == m.id;
        var i :| 0 <= i < |entries| && plan.releases[i] == r;
        assert Records(s, snapshot, plan, plan.releases[i], entries[i].installed);
      }
    }
    if plan.update {
      var m :| ManagedUnmodified(snapshot, dirs, m, plan.target) && FirstIsNotOlder(plan.releases, plan.target, m);
      ReplacedIsReleased(s, snapshot, plan, entries, plan.target);
      var k :| 0 <= k < |snapshot| && snapshot[k] == m;
      FilterLosesOne(keep, snapshot, k);
    } else {
      FilterOfAll(keep, snapshot);
    }
  }

  ghost predicate Differ(m: Installed, n: Installed) {
    m.id != n.id && Lower(m.directory) != Lower(n.directory)
  }

  lemma KeptDiffer(s: Settings, modules: seq<Installed>, entries: seq<PlannedEntry>, i: nat, j: nat)
    requires ValidModules(s, modules) && i < j < |Kept(modules, entries)|
    ensures Differ(Kept(modules, entries)[i], Kept(modules, entries)[j])
  {
    hide Lower, InRoot;
    var keep := (m: Installed) => !Replaced(entries, m.id);
    var p, q := FilterPlaces(keep, modules, i, j);
  }

  /** The elements that stay keep their order. */
  lemma {:induction false} FilterPlaces(keep: Installed -> bool, s: seq<Installed>, i: nat, j: nat)
    returns (p: nat, q: nat)
    requires i < j < |Filter(keep, s)|
    ensures p < q < |s| && s[p] == Filter(keep, s)[i] && s[q] == Filter(keep, s)[j]
  {
    if !keep(s[0]) {
      p, q := FilterPlaces(keep, s[1..], i, j);
      p, q := p + 1, q + 1;
    } else if i > 0 {
      p, q := FilterPlaces(keep, s[1..], i - 1, j - 1);
      p, q := p + 1, q + 1;
    } else {
      assert Filter(keep, s)[j] == Filter(keep, s[1..])[j - 1];
      assert Filter(keep, s[1..])[j - 1] in s[1..];
      p := 0;
      q :| 1 <= q < |s| && s[q] == Filter(keep, s)[j];
    }
  }

  lemma KeptAndEntryDiffer(
      s: Settings, snapshot: seq<Installed>, plan: Plan, entries: seq<PlannedEntry>, m: Installed, i: nat)
    requires s.roots != [] && ValidModules(s, snapshot) && PlacesAreFree(s, snapshot, plan.releases)
    requires AllRecord(s, snapshot, plan, entries) && m in Kept(snapshot, entries) && i < |entries|
    ensures Differ(m, entries[i].installed)
  {
    hide Lower, InRoot, SafeFiles;
    var e := entries[i].installed;
    assert Records(s, snapshot, plan, plan.releases[i], e);
    assert entries[i] in entries && plan.releases[i] in plan.releases;
    assert m.id != e.id;
    if !IsNew(snapshot, plan.releases[i]) {
      var n :| n in snapshot && n.id == e.id && n.directory == e.directory;
      assert Differ(m, n);
    }
  }

  lemma EntriesDifferInPlace(
      s: Settings, snapshot: seq<Installed>, plan: Plan, entries: seq<PlannedEntry>, i: nat, j: nat)
    requires s.roots != [] && ValidModules(s, snapshot) && PlacesAreFree(s, snapshot, plan.releases)
    requires AllRecord(s, snapshot, plan, entries) && OneReleaseEach(plan.releases) && i < j < |entries|
    ensures Differ(entries[i].installed, entries[j].installed)
  {
    hide Lower, InRoot, SafeFiles;
    assert Records(s, snapshot, plan, plan.releases[i], entries[i].installed);
    assert Records(s, snapshot, plan, plan.releases[j], entries[j].installed);
    assert plan.releases[i] in plan.releases && plan.releases[j] in plan.releases;
  }

  lemma EntryMayBeListed(s: Settings, snapshot: seq<Installed>, plan: Plan, entries: seq<PlannedEntry>, i: nat)
    requires s.roots != [] && ValidModules(s, snapshot) && PlacesAreFree(s, snapshot, plan.releases)
    requires AllRecord(s, snapshot, plan, entries) && i < |entries|
    ensures InRoot(s, entries[i].installed.directory) && SafeFiles(s, entries[i].installed)
  {
    hide Lower, InRoot, SafeSourcePath;
    assert Records(s, snapshot, plan, plan.releases[i], entries[i].installed);
    assert plan.releases[i] in plan.releases;
  }

  lemma PlacesDiffer(s: Settings, snapshot: seq<Installed>, plan: Plan, entries: seq<PlannedEntry>, i: nat, j: nat)
    requires s.roots != [] && ValidModules(s, snapshot) && PlacesAreFree(s, snapshot, plan.releases)
    requires AllRecord(s, snapshot, plan, entries) && OneReleaseEach(plan.releases)
    requires i < j < |Kept(snapshot, entries) + InstalledOf(entries)|
    ensures var all := Kept(snapshot, entries) + InstalledOf(entries);
      Differ(all[i], all[j])
  {
    hide ValidModules, PlacesAreFree, AllRecord, Kept, OneReleaseEach, Differ;
    var kept := Kept(snapshot, entries);
    if j < |kept| {
      KeptDiffer(s, snapshot, entries, i, j);
    } else if i < |kept| {
      KeptAndEntryDiffer(s, snapshot, plan, entries, kept[i], j - |kept|);
    } else {
      EntriesDifferInPlace(s, snapshot, plan, entries, i - |kept|, j - |kept|);
    }
  }

  lemma FreePlacesAreValid(
      s: Settings, snapshot: seq<Installed>, dirs: map<string, Tree>, plan: Plan, entries: seq<PlannedEntry>)
    requires s.roots != [] && ValidModules(s, snapshot) && TargetAdmitted(snapshot, dirs, plan)
    requires AllRecord(s, snapshot, plan, entries) && OneReleaseEach(plan.releases)
    requires PlacesAreFree(s, snapshot, plan.releases)
    requires |snapshot| + |plan.releases| <= MAX_MODULES + if plan.update then 1 else 0
    ensures ValidModules(s, Kept(snapshot, entries) + InstalledOf(entries))
  {
    hide Lower, InRoot, SafeSourcePath, Records, TargetAdmitted, PlacesAreFree, Replaced, OneReleaseEach;
    KeptCount(s, snapshot, dirs, plan, entries);
    var kept := Kept(snapshot, entries);
    var all := kept + InstalledOf(entries);
    forall m | m in all
      ensures InRoot(s, m.directory) && forall p :: p in m.files ==> SafeSourcePath(s.layout, p)
    {
      if m !in kept {
        var i :| 0 <= i < |entries| && InstalledOf(entries)[i] == m;
        EntryMayBeListed(s, snapshot, plan, entries, i);
        assert SafeFiles(s, m);
      }
    }
    forall i, j | 0 <= i < j < |all|
      ensures all[i].id != all[j].id && Lower(all[i].directory) != Lower(all[j].directory)
    {
      PlacesDiffer(s, snapshot, plan, entries, i, j);
    }
  }

  /* The other way: a valid list shows that the places were free. */

  lemma ListedPlacesDiffer(s: Settings, all: seq<Installed>, m: Installed, n: Installed)
    requires ValidModules(s, all) && m in all && n in all && m != n
    ensures Differ(m, n)
  {
    hide Lower, InRoot;
    var i :| 0 <= i < |all| && all[i] == m;
    var j :| 0 <= j < |all| && all[j] == n;
  }

  lemma NewIsApart(
      s: Settings, snapshot: seq<Installed>, plan: Plan, entries: seq<PlannedEntry>, i: nat, m: Installed)
    requires s.roots != [] && DistinctIds(snapshot) && AllRecord(s, snapshot, plan, entries)
    requires ValidModules(s, Kept(snapshot, entries) + InstalledOf(entries))
    requires i < |entries| && IsNew(snapshot, plan.releases[i]) && m in snapshot
    ensures Lower(m.directory) != Lower(PlaceOf(s, plan.releases[i]))
  {
    hide Lower, InRoot, SafeFiles, ValidModules;
    var all := Kept(snapshot, entries) + InstalledOf(entries);
    var e := InstalledOf(entries)[i];
    assert Records(s, snapshot, plan, plan.releases[i], e);
    assert e in all && m.id != e.id;
    if Replaced(entries, m.id) {
      var k :| 0 <= k < |entries| && entries[k].installed.id == m.id;
      var u := InstalledOf(entries)[k];
      assert Records(s, snapshot, plan, plan.releases[k], u);
      assert !IsNew(snapshot, plan.releases[k]);
      var n :| n in snapshot && n.id == u.id && n.directory == u.directory;
      ListedPlacesDiffer(s, all, u, e);
      FoundIfDistinct(snapshot, m);
      FoundIfDistinct(snapshot, n);
    } else {
      assert m in Kept(snapshot, entries);
      ListedPlacesDiffer(s, all, m, e);
    }
  }

  lemma NewStands(s: Settings, snapshot: seq<Installed>, plan: Plan, entries: seq<PlannedEntry>, i: nat)
    requires s.roots != [] && AllRecord(s, snapshot, plan, entries)
    requires i < |entries| && IsNew(snapshot, plan.releases[i])
    ensures InstalledOf(entries)[i].directory == PlaceOf(s, plan.releases[i])
  {
    assert Records(s, snapshot, plan, plan.releases[i], entries[i].installed);
  }

  lemma NewMayBeListed(s: Settings, snapshot: seq<Installed>, plan: Plan, entries: seq<PlannedEntry>, i: nat)
    requires s.roots != [] && AllRecord(s, snapshot, plan, entries)
    requires ValidModules(s, Kept(snapshot, entries) + InstalledOf(entries))
    requires i < |entries| && IsNew(snapshot, plan.releases[i])
    ensures InRoot(s, PlaceOf(s, plan.releases[i]))
  {
    hide Lower, InRoot, Kept, AllRecord, IsNew, PlaceOf;
    NewStands(s, snapshot, plan, entries, i);
    assert InstalledOf(entries)[i] in Kept(snapshot, entries) + InstalledOf(entries);
  }

  lemma NewPlacesDiffer(
      s: Settings, snapshot: seq<Installed>, plan: Plan, entries: seq<PlannedEntry>, i: nat, j: nat)
    requires s.roots != [] && AllRecord(s, snapshot, plan, entries) && |plan.releases| == |entries|
    requires ValidModules(s, Kept(snapshot, entries) + InstalledOf(entries))
    requires i < j < |entries| && IsNew(snapshot, plan.releases[i]) && IsNew(snapshot, plan.releases[j])
    ensures Lower(PlaceOf(s, plan.releases[i])) != Lower(PlaceOf(s, plan.releases[j]))
  {
    hide Lower, InRoot, Kept, AllRecord, IsNew, PlaceOf;
    var kept, places := Kept(snapshot, entries), InstalledOf(entries);
    NewStands(s, snapshot, plan, entries, i);
    NewStands(s, snapshot, plan, entries, j);
    assert (kept + places)[|kept| + i] == places[i] && (kept + places)[|kept| + j] == places[j];
  }

  lemma ValidPlacesAreFree(
      s: Settings, snapshot: seq<Installed>, dirs: map<string, Tree>, plan: Plan, entries: seq<PlannedEntry>)
    requires s.roots != [] && DistinctIds(snapshot) && TargetAdmitted(snapshot, dirs, plan)
    requires AllRecord(s, snapshot, plan, entries)
    requires ValidModules(s, Kept(snapshot, entries) + InstalledOf(entries))
    ensures PlacesAreFree(s, snapshot, plan.releases)
    ensures |snapshot| + |plan.releases| <= MAX_MODULES + if plan.update then 1 else 0
  {
    hide Lower, InRoot, SafeSourcePath, TargetAdmitted, Records, IsNew, Kept, DistinctIds;
    assert |Kept(snapshot, entries) + InstalledOf(entries)| <= MAX_MODULES;
    KeptCount(s, snapshot, dirs, plan, entries);
    hide ValidModules;
    forall r | r in plan.releases && IsNew(snapshot, r)
      ensures InRoot(s, PlaceOf(s, r)) && forall m :: m in snapshot ==> Lower(m.directory) != Lower(PlaceOf(s, r))
    {
      var i :| 0 <= i < |plan.releases| && plan.releases[i] == r;
      NewMayBeListed(s, snapshot, plan, entries, i);
      forall m | m in snapshot ensures Lower(m.directory) != Lower(PlaceOf(s, r)) {
        NewIsApart(s, snapshot, plan, entries, i, m);
      }
    }
    forall i, j | 0 <= i < j < |entries| && IsNew(snapshot, plan.releases[i]) && IsNew(snapshot, plan.releases[j])
      ensures Lower(PlaceOf(s, plan.releases[i])) != Lower(PlaceOf(s, plan.releases[j]))
    {
      NewPlacesDiffer(s, snapshot, plan, entries, i, j);
    }
  }

  /* The whole plan. */

  lemma AdmittedIsNoDowngrade(s: Settings, snapshot: seq<Installed>, dirs: map<string, Tree>, plan: Plan)
    requires DistinctIds(snapshot) && TargetAdmitted(snapshot, dirs, plan)
    requires Registrable(Retained(plan) + ReleaseManifests(plan.releases), s.platform)
    ensures forall r :: r in plan.releases ==> NoDowngrade(snapshot, plan, r)
  {
    hide Registrable, Unmodified, FindModule, FindRelease, TargetAdmitted, ManagedUnmodified;
    TargetPassesExactly(snapshot, dirs, plan);
    forall r | r in plan.releases && plan.update && r.release.manifest.id == plan.target
      ensures NoDowngrade(snapshot, plan, r)
    {
      OneReleasePerId(Retained(plan), plan.releases, s.platform, r);
    }
  }

  /** The list an install would lead to is valid exactly when its places are free and there is room. */
  lemma NextIsValidExactly(s: Settings, snapshot: seq<Installed>, dirs: map<string, Tree>, plan: Plan)
    requires s.roots != [] && ValidModules(s, snapshot) && TargetAdmitted(snapshot, dirs, plan)
    requires Registrable(Retained(plan) + ReleaseManifests(plan.releases), s.platform)
    requires PlanEntries(s, snapshot, dirs, plan, plan.releases, [], 0).Ok?
    ensures ValidModules(s, NextModules(snapshot, PlanEntries(s, snapshot, dirs, plan, plan.releases, [], 0).value))
       <==> PlacesAreFree(s, snapshot, plan.releases)
            && |snapshot| + |plan.releases| <= MAX_MODULES + if plan.update then 1 else 0
  {
    hide Registrable, PlanEntries, TargetAdmitted, PlacesAreFree, AllRecord, NextModules, Lower, InRoot, SafeSourcePath;
    var entries := PlanEntries(s, snapshot, dirs, plan, plan.releases, [], 0).value;
    assert DistinctIds(snapshot);
    RegisteredOncePerId(Retained(plan), plan.releases, s.platform);
    AdmittedIsNoDowngrade(s, snapshot, dirs, plan);
    PlannedEntriesRecord(s, snapshot, dirs, plan);
    NextIsValidInAnyOrder(s, snapshot, entries);
    if ValidModules(s, Kept(snapshot, entries) + InstalledOf(entries)) {
      ValidPlacesAreFree(s, snapshot, dirs, plan, entries);
    } else if PlacesAreFree(s, snapshot, plan.releases)
              && |snapshot| + |plan.releases| <= MAX_MODULES + if plan.update then 1 else 0 {
      FreePlacesAreValid(s, snapshot, dirs, plan, entries);
      assert false;
    }
  }

  /** A plan is accepted exactly when it is admitted: made against this lockfile, with a target that
      may be changed, releases that register together, each pinned and with a place of its own,
      within the limits on bytes and modules. */
  lemma PlanIsAcceptedExactly(s: Settings, lock: Option<LockText>, dirs: map<string, Tree>, plan: Plan)
    requires s.roots != []
    ensures PlanInstall(s, lock, dirs, plan).Ok? <==> Admitted(s, lock, dirs, plan)
  {
    hide Registrable, PlanEntries, TargetAdmitted, PlacesAreFree, NextModules, Lower, InRoot, SafeSourcePath,
      ReleaseAdmitted, Unmodified, FindModule, FindRelease;
    var snapshot := Modules(lock);
    if ValidModules(s, snapshot) {
      TargetPassesExactly(snapshot, dirs, plan);
      ReleasesPassExactly(s, snapshot, dirs, plan, plan.releases, [], 0);
      if TargetAdmitted(snapshot, dirs, plan)
         && Registrable(Retained(plan) + ReleaseManifests(plan.releases), s.platform)
         && PlanEntries(s, snapshot, dirs, plan, plan.releases, [], 0).Ok? {
        NextIsValidExactly(s, snapshot, dirs, plan);
      }
    }
  }
}
