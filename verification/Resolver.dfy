/** Choosing catalog releases for a target: a backtracking search in which installed
    modules stay fixed. */
module Resolving {
  import opened Basics
  import opened Versions
  import opened Manifests

  /** What one resolution reads. */
  datatype Problem = Problem(releases: seq<Release>, installed: seq<Manifest>, platform: Version)

  datatype Want = WantModule(id: Id, range: Range) | WantCapability(capability: Capability)

  type Selection = map<Id, Release>

  /* Indexes over the catalog. */

  function InsertNewest(x: Release, s: seq<Release>): seq<Release> {
    if s == [] || !Older(x.manifest.version, s[0].manifest.version) then [x] + s
    else [s[0]] + InsertNewest(x, s[1..])
  }

  /** Newest first; releases of one version keep their order. */
  function SortNewest(s: seq<Release>): seq<Release> {
    if s == [] then [] else InsertNewest(s[0], SortNewest(s[1..]))
  }

  function ReleasesOf(releases: seq<Release>, id: Id): seq<Release> {
    Filter((r: Release) => r.manifest.id == id, releases)
  }

  /** The releases of a module, newest first. */
  function CandidatesOf(releases: seq<Release>, id: Id): seq<Release> {
    SortNewest(ReleasesOf(releases, id))
  }

  /** The release once for each time it lists the capability. */
  function Offerings(r: Release, capabilities: seq<Capability>, c: Capability): seq<Release> {
    if capabilities == [] then []
    else (if capabilities[0] == c then [r] else []) + Offerings(r, capabilities[1..], c)
  }

  function OfferingsIn(entries: seq<Release>, c: Capability): seq<Release> {
    if entries == [] then []
    else Offerings(entries[0], entries[0].manifest.provided, c) + OfferingsIn(entries[1..], c)
  }

  function ProvidersIn(releases: seq<Release>, ids: seq<Id>, c: Capability): seq<Release> {
    if ids == [] then []
    else OfferingsIn(CandidatesOf(releases, ids[0]), c) + ProvidersIn(releases, ids[1..], c)
  }

  /** The ids of the catalog in the order they first appear. */
  function CatalogIds(releases: seq<Release>): seq<Id> {
    Unique(Map((r: Release) => r.manifest.id, releases))
  }

  /** The releases providing a capability: module by module, newest first within each. */
  function ProvidersFor(releases: seq<Release>, c: Capability): seq<Release> {
    ProvidersIn(releases, CatalogIds(releases), c)
  }

  /** The installed manifest of an id; a later entry of the list wins. */
  function Existing(installed: seq<Manifest>, id: Id): Option<Manifest> {
    if installed == [] then None
    else
      var last := installed[|installed| - 1];
      if last.id == id then Some(last) else Existing(installed[..|installed| - 1], id)
  }

  lemma {:induction false} InsertKeepsReleases(x: Release, s: seq<Release>)
    ensures multiset(InsertNewest(x, s)) == multiset{x} + multiset(s)
  {
    if s == [] || !Older(x.manifest.version, s[0].manifest.version) {
    } else {
      InsertKeepsReleases(x, s[1..]);
      assert s == [s[0]] + s[1..];
    }
  }

  lemma {:induction false} SortKeepsReleases(s: seq<Release>)
    ensures multiset(SortNewest(s)) == multiset(s)
  {
    if s != [] {
      SortKeepsReleases(s[1..]);
      InsertKeepsReleases(s[0], SortNewest(s[1..]));
      assert s == [s[0]] + s[1..];
    }
  }

  ghost predicate NewestFirst(s: seq<Release>) {
    forall i, j :: 0 <= i < j < |s| ==> !Older(s[i].manifest.version, s[j].manifest.version)
  }

  lemma {:induction false} InsertKeepsNewestFirst(x: Release, s: seq<Release>)
    requires NewestFirst(s)
    ensures NewestFirst(InsertNewest(x, s))
  {
    if s != [] && Older(x.manifest.version, s[0].manifest.version) {
      InsertKeepsNewestFirst(x, s[1..]);
      InsertKeepsReleases(x, s[1..]);
      var tail := InsertNewest(x, s[1..]);
      forall j | 0 <= j < |tail| ensures !Older(s[0].manifest.version, tail[j].manifest.version) {
        assert tail[j] in multiset(tail);
        assert tail[j] == x || tail[j] in s[1..];
      }
    }
  }

  lemma {:induction false} SortIsNewestFirst(s: seq<Release>)
    ensures NewestFirst(SortNewest(s))
  {
    if s != [] {
      SortIsNewestFirst(s[1..]);
      InsertKeepsNewestFirst(s[0], SortNewest(s[1..]));
    }
  }

  lemma CandidateMembers(releases: seq<Release>, id: Id)
    ensures forall r :: r in CandidatesOf(releases, id) <==> r in releases && r.manifest.id == id
    ensures NewestFirst(CandidatesOf(releases, id))
  {
    var found := ReleasesOf(releases, id);
    SortKeepsReleases(found);
    SortIsNewestFirst(found);
    forall r ensures r in SortNewest(found) <==> r in found {
      assert r in SortNewest(found) <==> r in multiset(SortNewest(found));
      assert r in found <==> r in multiset(found);
    }
  }

  lemma {:induction false} OfferingMembers(r: Release, capabilities: seq<Capability>, c: Capability)
    ensures forall x :: x in Offerings(r, capabilities, c) <==> x == r && c in capabilities
  {
    if capabilities != [] {
      OfferingMembers(r, capabilities[1..], c);
      assert c in capabilities <==> c == capabilities[0] || c in capabilities[1..];
    }
  }

  lemma {:induction false} OfferingInMembers(entries: seq<Release>, c: Capability)
    ensures forall x :: x in OfferingsIn(entries, c) <==> x in entries && Provides(x.manifest, c)
  {
    if entries != [] {
      OfferingMembers(entries[0], entries[0].manifest.provided, c);
      OfferingInMembers(entries[1..], c);
      assert entries == [entries[0]] + entries[1..];
    }
  }

  lemma {:induction false} ProviderInMembers(releases: seq<Release>, ids: seq<Id>, c: Capability)
    ensures forall x :: x in ProvidersIn(releases, ids, c)
                        <==> x in releases && x.manifest.id in ids && Provides(x.manifest, c)
  {
    if ids != [] {
      CandidateMembers(releases, ids[0]);
      OfferingInMembers(CandidatesOf(releases, ids[0]), c);
      ProviderInMembers(releases, ids[1..], c);
      assert ids == [ids[0]] + ids[1..];
    }
  }

  lemma CatalogIdMembers(releases: seq<Release>)
    ensures forall r :: r in releases ==> r.manifest.id in CatalogIds(releases)
  {
    var ids := Map((r: Release) => r.manifest.id, releases);
    forall r | r in releases ensures r.manifest.id in CatalogIds(releases) {
      var i :| 0 <= i < |releases| && releases[i] == r;
      assert ids[i] == r.manifest.id;
      assert ids[i] in Elems(ids);
      assert ids[i] in Elems(Unique(ids));
    }
  }

  lemma ProviderMembers(releases: seq<Release>, c: Capability)
    ensures forall r :: r in ProvidersFor(releases, c) <==> r in releases && Provides(r.manifest, c)
  {
    CatalogIdMembers(releases);
    ProviderInMembers(releases, CatalogIds(releases), c);
  }

  /* The search. */

  function ModuleWants(ds: seq<Dependency>): seq<Want> {
    Map((d: Dependency) => WantModule(d.id, d.range), ds)
  }

  function CapabilityWants(rs: seq<Requirement>): seq<Want> {
    Map((r: Requirement) => WantCapability(r.id), Filter((r: Requirement) => !r.optional, rs))
  }

  /** What choosing a manifest adds to the pending list. */
  function Wanted(m: Manifest): seq<Want> {
    ModuleWants(m.dependencies) + CapabilityWants(m.requirements)
  }

  predicate Provided(p: Problem, selected: Selection, c: Capability) {
    || (exists m :: m in p.installed && Provides(m, c))
    || (exists id :: id in selected && Provides(selected[id].manifest, c))
  }

  predicate Eligible(p: Problem, selected: Selection, want: Want, r: Release) {
    && PlatformAdmits(r.manifest, p.platform)
    && match want
       case WantModule(_, range) => Satisfies(r.manifest.version, range)
       case WantCapability(_) => r.manifest.id !in selected && Existing(p.installed, r.manifest.id) == None
  }

  datatype Outcome = Found(selected: Selection) | Exhausted | LimitHit

  const MAX_ATTEMPTS := 10_000
  const MAX_PENDING := 4096
  const MAX_SELECTED := 256

  /** The catalog ids not selected yet. */
  ghost function Unselected(p: Problem, selected: Selection): set<Id> {
    (set r | r in p.releases :: r.manifest.id) - selected.Keys
  }

  /** Releases that may be tried for a want: of the catalog, and for a module want of that
      module, which is not selected. */
  ghost predicate Triable(p: Problem, selected: Selection, want: Want, candidates: seq<Release>) {
    && (forall r :: r in candidates ==> r in p.releases)
    && (want.WantModule? ==>
          && want.id !in selected
          && (forall r :: r in candidates ==> r.manifest.id == want.id))
  }

  /** One step: the outcome, and the attempts made so far. */
  function Search(p: Problem, selected: Selection, pending: seq<Want>, attempts: nat): (Outcome, nat)
    decreases Unselected(p, selected), |pending|, 0
  {
    var n := attempts + 1;
    if n > MAX_ATTEMPTS || |pending| > MAX_PENDING || |selected| > MAX_SELECTED then (LimitHit, n)
    else if pending == [] then (Found(selected), n)
    else
      var rest := pending[1..];
      match pending[0]
      case WantCapability(c) =>
        if Provided(p, selected, c) then Search(p, selected, rest, n)
        else
          ProviderMembers(p.releases, c);
          Try(p, selected, pending[0], ProvidersFor(p.releases, c), rest, n)
      case WantModule(id, range) =>
        if id in selected then
          if Satisfies(selected[id].manifest.version, range) then Search(p, selected, rest, n) else (Exhausted, n)
        else if Existing(p.installed, id).Some? then
          if Satisfies(Existing(p.installed, id).value.version, range) then Search(p, selected, rest, n)
          else (Exhausted, n)
        else
          CandidateMembers(p.releases, id);
          Try(p, selected, pending[0], CandidatesOf(p.releases, id), rest, n)
  }

  /** Tries the candidates in turn; the first that does not end exhausted decides. */
  function Try(p: Problem, selected: Selection, want: Want, candidates: seq<Release>, rest: seq<Want>, attempts: nat)
    : (Outcome, nat)
    requires Triable(p, selected, want, candidates)
    decreases Unselected(p, selected), |rest|, 1, |candidates|
  {
    if candidates == [] then (Exhausted, attempts)
    else if !Eligible(p, selected, want, candidates[0]) then Try(p, selected, want, candidates[1..], rest, attempts)
    else
      var r := candidates[0];
      SelectingShrinks(p, selected, r);
      var (o, n) := Search(p, selected[r.manifest.id := r], Wanted(r.manifest) + rest, attempts);
      if o == Exhausted then Try(p, selected, want, candidates[1..], rest, n) else (o, n)
  }

  lemma SelectingShrinks(p: Problem, selected: Selection, r: Release)
    requires r in p.releases && r.manifest.id !in selected
    ensures Unselected(p, selected[r.manifest.id := r]) < Unselected(p, selected)
  {
    assert r.manifest.id in Unselected(p, selected);
  }
}
