/** The resolver as it runs: the two catalog indexes, the counted search and the
    registry pass over its result. */
module ResolverRun {
  import opened Basics
  import opened Versions
  import opened Manifests
  import opened Ordering
  import opened OrderingTheorems
  import opened Resolving
  import opened ResolvingTheorems
  import opened Registry

  /* Filling the indexes. */

  function At<K(==), T>(index: map<K, seq<T>>, key: K): seq<T> {
    if key in index then index[key] else []
  }

  function FrontIds(releases: seq<Release>): seq<Id> {
    Map((r: Release) => r.manifest.id, releases)
  }

  lemma {:induction false} ReleasesOfStep(releases: seq<Release>, r: Release, id: Id)
    ensures ReleasesOf(releases + [r], id) == ReleasesOf(releases, id) + (if r.manifest.id == id then [r] else [])
  {
    FilterOfSum((q: Release) => q.manifest.id == id, releases, [r]);
  }

  lemma {:induction false} MapStep(releases: seq<Release>, r: Release)
    ensures FrontIds(releases + [r]) == FrontIds(releases) + [r.manifest.id]
  {
  }

  lemma CatalogIdsStep(releases: seq<Release>, r: Release)
    ensures CatalogIds(releases + [r])
         == if r.manifest.id in CatalogIds(releases) then CatalogIds(releases)
            else CatalogIds(releases) + [r.manifest.id]
  {
    MapStep(releases, r);
    var ids := FrontIds(releases);
    assert (ids + [r.manifest.id])[..|ids|] == ids;
    assert r.manifest.id in ids <==> r.manifest.id in CatalogIds(releases) by {
      assert r.manifest.id in Elems(ids) <==> r.manifest.id in Elems(Unique(ids));
    }
  }

  ghost predicate Grouped(releases: seq<Release>, candidates: map<Id, seq<Release>>, order: seq<Id>) {
    && order == CatalogIds(releases) && candidates.Keys == Elems(order)
    && (forall id :: At(candidates, id) == ReleasesOf(releases, id))
  }

  lemma NothingGrouped()
    ensures Grouped([], map[], [])
  {
  }

  lemma GroupedStep(releases: seq<Release>, r: Release, candidates: map<Id, seq<Release>>, order: seq<Id>)
    requires Grouped(releases, candidates, order)
    ensures var id := r.manifest.id;
      Grouped(releases + [r], candidates[id := At(candidates, id) + [r]],
              if id in candidates then order else order + [id])
  {
    var id := r.manifest.id;
    CatalogIdsStep(releases, r);
    ElemsOfSum(order, [id]);
    forall x ensures At(candidates[id := At(candidates, id) + [r]], x) == ReleasesOf(releases + [r], x) {
      ReleasesOfStep(releases, r, x);
    }
  }

  /** Releases grouped by module in catalog order, and the modules in order of appearance. */
  method GroupReleases(releases: seq<Release>) returns (candidates: map<Id, seq<Release>>, order: seq<Id>)
    ensures Grouped(releases, candidates, order)
  {
    hide Grouped;
    candidates, order := map[], [];
    NothingGrouped();
    assert releases[..0] == [];
    for i := 0 to |releases|
      invariant Grouped(releases[..i], candidates, order)
    {
      var id := releases[i].manifest.id;
      GroupedStep(releases[..i], releases[i], candidates, order);
      assert releases[..i + 1] == releases[..i] + [releases[i]];
      var entries := At(candidates, id) + [releases[i]];
      if id !in candidates {
        order := order + [id];
      }
      candidates := candidates[id := entries];
    }
    assert releases[..|releases|] == releases;
  }

  /** The groups of the modules named so far are sorted; the others are as they were. */
  ghost predicate SortedGroups(releases: seq<Release>, named: seq<Id>, candidates: map<Id, seq<Release>>) {
    forall id :: At(candidates, id) == if id in named then CandidatesOf(releases, id) else ReleasesOf(releases, id)
  }

  lemma SortedGroupsStep(releases: seq<Release>, named: seq<Id>, id: Id, candidates: map<Id, seq<Release>>)
    requires SortedGroups(releases, named, candidates) && id !in named && id in candidates
    ensures SortedGroups(releases, named + [id], candidates[id := SortNewest(candidates[id])])
  {
    assert At(candidates, id) == ReleasesOf(releases, id);
  }

  lemma FirstIn(s: seq<Release>)
    requires s != []
    ensures s[0] in s
  {
  }

  lemma SortedGroupsAll(releases: seq<Release>, candidates: map<Id, seq<Release>>)
    requires SortedGroups(releases, CatalogIds(releases), candidates)
    ensures forall id :: At(candidates, id) == CandidatesOf(releases, id)
  {
    forall id ensures At(candidates, id) == CandidatesOf(releases, id) {
      if id !in CatalogIds(releases) {
        CatalogIdMembers(releases);
        var found := ReleasesOf(releases, id);
        if found != [] {
          FirstIn(found);
        }
      }
    }
  }

  lemma DistinctPrefix(s: seq<Id>, i: nat)
    requires i < |s| && Distinct(s)
    ensures s[i] !in s[..i] && s[i] in Elems(s)
  {
  }

  /** Sorts each module's releases, newest first. */
  method SortCandidates(ghost releases: seq<Release>, groups: map<Id, seq<Release>>, order: seq<Id>)
    returns (candidates: map<Id, seq<Release>>)
    requires Distinct(order) && groups.Keys == Elems(order)
    requires SortedGroups(releases, [], groups)
    ensures SortedGroups(releases, order, candidates)
  {
    hide SortNewest, CandidatesOf, ReleasesOf, SortedGroups;
    candidates := groups;
    for i := 0 to |order|
      invariant candidates.Keys == groups.Keys
      invariant SortedGroups(releases, order[..i], candidates)
    {
      DistinctPrefix(order, i);
      SortedGroupsStep(releases, order[..i], order[i], candidates);
      assert order[..i + 1] == order[..i] + [order[i]];
      candidates := candidates[order[i] := SortNewest(candidates[order[i]])];
    }
    assert order[..|order|] == order;
  }

  lemma {:induction false} OfferingsStep(r: Release, cs: seq<Capability>, last: Capability, c: Capability)
    ensures Offerings(r, cs + [last], c) == Offerings(r, cs, c) + (if last == c then [r] else [])
  {
    if cs == [] {
      assert [] + [last] == [last] && [last][1..] == [];
    } else {
      assert (cs + [last])[1..] == cs[1..] + [last];
      OfferingsStep(r, cs[1..], last, c);
    }
  }

  lemma {:induction false} OfferingsInStep(entries: seq<Release>, last: Release, c: Capability)
    ensures OfferingsIn(entries + [last], c) == OfferingsIn(entries, c) + Offerings(last, last.manifest.provided, c)
  {
    if entries == [] {
      assert [] + [last] == [last] && [last][1..] == [];
    } else {
      assert (entries + [last])[1..] == entries[1..] + [last];
      OfferingsInStep(entries[1..], last, c);
    }
  }

  lemma {:induction false} ProvidersInStep(releases: seq<Release>, ids: seq<Id>, last: Id, c: Capability)
    ensures ProvidersIn(releases, ids + [last], c)
         == ProvidersIn(releases, ids, c) + OfferingsIn(CandidatesOf(releases, last), c)
  {
    if ids == [] {
      assert [] + [last] == [last] && [last][1..] == [];
    } else {
      assert (ids + [last])[1..] == ids[1..] + [last];
      ProvidersInStep(releases, ids[1..], last, c);
    }
  }

  type ProviderIndex = map<Capability, seq<Release>>

  ghost predicate WithOfferings(before: ProviderIndex, r: Release, cs: seq<Capability>, after: ProviderIndex) {
    forall c :: At(after, c) == At(before, c) + Offerings(r, cs, c)
  }

  ghost predicate WithEntries(before: ProviderIndex, entries: seq<Release>, after: ProviderIndex) {
    forall c :: At(after, c) == At(before, c) + OfferingsIn(entries, c)
  }

  ghost predicate WithModules(releases: seq<Release>, ids: seq<Id>, after: ProviderIndex) {
    forall c :: At(after, c) == ProvidersIn(releases, ids, c)
  }

  lemma SumOfThree(a: seq<Release>, b: seq<Release>, c: seq<Release>)
    ensures (a + b) + c == a + (b + c)
  {
  }

  lemma OfferingsAt(before: ProviderIndex, r: Release, cs: seq<Capability>, last: Capability, now: ProviderIndex,
                    c: Capability)
    requires At(now, c) == At(before, c) + Offerings(r, cs, c)
    ensures At(now[last := At(now, last) + [r]], c) == At(before, c) + Offerings(r, cs + [last], c)
  {
    hide Offerings;
    OfferingsStep(r, cs, last, c);
    SumOfThree(At(before, c), Offerings(r, cs, c), [r]);
    if last != c {
      assert Offerings(r, cs, c) + [] == Offerings(r, cs, c);
    }
  }

  lemma WithOfferingsStep(before: ProviderIndex, r: Release, cs: seq<Capability>, last: Capability, now: ProviderIndex)
    requires WithOfferings(before, r, cs, now)
    ensures WithOfferings(before, r, cs + [last], now[last := At(now, last) + [r]])
  {
    hide Offerings, At;
    forall c ensures At(now[last := At(now, last) + [r]], c) == At(before, c) + Offerings(r, cs + [last], c) {
      OfferingsAt(before, r, cs, last, now, c);
    }
  }

  lemma EntriesAt(
      before: ProviderIndex, entries: seq<Release>, last: Release, now: ProviderIndex, after: ProviderIndex,
      c: Capability)
    requires At(now, c) == At(before, c) + OfferingsIn(entries, c)
    requires At(after, c) == At(now, c) + Offerings(last, last.manifest.provided, c)
    ensures At(after, c) == At(before, c) + OfferingsIn(entries + [last], c)
  {
    hide At, Offerings, OfferingsIn;
    OfferingsInStep(entries, last, c);
    SumOfThree(At(before, c), OfferingsIn(entries, c), Offerings(last, last.manifest.provided, c));
  }

  lemma WithEntriesStep(
      before: ProviderIndex, entries: seq<Release>, last: Release, now: ProviderIndex, after: ProviderIndex)
    requires WithEntries(before, entries, now) && WithOfferings(now, last, last.manifest.provided, after)
    ensures WithEntries(before, entries + [last], after)
  {
    hide At, Offerings, OfferingsIn;
    forall c ensures At(after, c) == At(before, c) + OfferingsIn(entries + [last], c) {
      EntriesAt(before, entries, last, now, after, c);
    }
  }

  lemma WithNoModules(releases: seq<Release>)
    ensures WithModules(releases, [], map[])
  {
  }

  lemma ModulesAt(
      releases: seq<Release>, ids: seq<Id>, last: Id, now: ProviderIndex, after: ProviderIndex, c: Capability)
    requires At(now, c) == ProvidersIn(releases, ids, c)
    requires At(after, c) == At(now, c) + OfferingsIn(CandidatesOf(releases, last), c)
    ensures At(after, c) == ProvidersIn(releases, ids + [last], c)
  {
    hide At, ProvidersIn, OfferingsIn, CandidatesOf;
    ProvidersInStep(releases, ids, last, c);
  }

  lemma WithModulesStep(releases: seq<Release>, ids: seq<Id>, last: Id, now: ProviderIndex, after: ProviderIndex)
    requires WithModules(releases, ids, now) && WithEntries(now, CandidatesOf(releases, last), after)
    ensures WithModules(releases, ids + [last], after)
  {
    hide At, ProvidersIn, OfferingsIn, CandidatesOf;
    forall c ensures At(after, c) == ProvidersIn(releases, ids + [last], c) {
      ModulesAt(releases, ids, last, now, after, c);
    }
  }

  lemma NoOfferings(before: ProviderIndex, r: Release)
    ensures WithOfferings(before, r, [], before)
  {
  }

  lemma NoEntries(before: ProviderIndex)
    ensures WithEntries(before, [], before)
  {
  }

  /** Adds one release under each capability it lists. */
  method IndexRelease(r: Release, before: ProviderIndex) returns (providers: ProviderIndex)
    ensures WithOfferings(before, r, r.manifest.provided, providers)
  {
    hide WithOfferings;
    NoOfferings(before, r);
    providers := before;
    var capabilities := r.manifest.provided;
    for l := 0 to |capabilities|
      invariant WithOfferings(before, r, capabilities[..l], providers)
    {
      assert capabilities[..l + 1] == capabilities[..l] + [capabilities[l]];
      WithOfferingsStep(before, r, capabilities[..l], capabilities[l], providers);
      providers := providers[capabilities[l] := At(providers, capabilities[l]) + [r]];
    }
    assert capabilities[..|capabilities|] == capabilities;
  }

  method IndexModule(entries: seq<Release>, before: ProviderIndex) returns (providers: ProviderIndex)
    ensures WithEntries(before, entries, providers)
  {
    hide WithEntries, WithOfferings;
    NoEntries(before);
    providers := before;
    for j := 0 to |entries|
      invariant WithEntries(before, entries[..j], providers)
    {
      ghost var now := providers;
      providers := IndexRelease(entries[j], providers);
      assert entries[..j + 1] == entries[..j] + [entries[j]];
      WithEntriesStep(before, entries[..j], entries[j], now, providers);
    }
    assert entries[..|entries|] == entries;
  }

  /** The providers of each capability, over the sorted candidates of every module. */
  method IndexProviders(releases: seq<Release>, candidates: map<Id, seq<Release>>, order: seq<Id>)
    returns (providers: ProviderIndex)
    requires order == CatalogIds(releases)
    requires forall id :: At(candidates, id) == CandidatesOf(releases, id)
    ensures forall c :: At(providers, c) == ProvidersFor(releases, c)
  {
    hide ProvidersIn, At, OfferingsIn, CandidatesOf, WithEntries;
    providers := map[];
    WithNoModules(releases);
    for k := 0 to |order|
      invariant WithModules(releases, order[..k], providers)
    {
      ghost var now := providers;
      providers := IndexModule(At(candidates, order[k]), providers);
      assert order[..k + 1] == order[..k] + [order[k]];
      WithModulesStep(releases, order[..k], order[k], now, providers);
    }
    assert order[..|order|] == order;
  }

  /* The counted search. */

  class Resolution {
    const p: Problem
    const candidates: map<Id, seq<Release>>
    const providers: ProviderIndex
    var attempts: nat

    ghost predicate Indexed() {
      && (forall id :: At(candidates, id) == CandidatesOf(p.releases, id))
      && (forall c :: At(providers, c) == ProvidersFor(p.releases, c))
    }

    constructor (p: Problem)
      ensures this.p == p && Indexed() && attempts == 0
    {
      var groups, order := GroupReleases(p.releases);
      var sorted := SortCandidates(p.releases, groups, order);
      SortedGroupsAll(p.releases, sorted);
      var index := IndexProviders(p.releases, sorted, order);
      this.p, candidates, providers, attempts := p, sorted, index, 0;
    }

    method Search(selected: Selection, pending: seq<Want>) returns (outcome: Outcome)
      requires Indexed()
      modifies this`attempts
      ensures (outcome, attempts) == Resolving.Search(p, selected, pending, old(attempts))
      decreases Unselected(p, selected), |pending|
    {
      attempts := attempts + 1;
      if attempts > MAX_ATTEMPTS || |pending| > MAX_PENDING || |selected| > MAX_SELECTED {
        return LimitHit;
      }
      if pending == [] {
        return Found(selected);
      }
      var next, rest := pending[0], pending[1..];
      var tried: seq<Release>;
      if next.WantCapability? {
        if Provided(p, selected, next.capability) {
          outcome := Search(selected, rest);
          return;
        }
        tried := At(providers, next.capability);
        ProviderMembers(p.releases, next.capability);
      } else {
        if next.id in selected {
          if Satisfies(selected[next.id].manifest.version, next.range) {
            outcome := Search(selected, rest);
            return;
          }
          return Exhausted;
        }
        var existing := Existing(p.installed, next.id);
        if existing.Some? {
          if Satisfies(existing.value.version, next.range) {
            outcome := Search(selected, rest);
            return;
          }
          return Exhausted;
        }
        tried := At(candidates, next.id);
        CandidateMembers(p.releases, next.id);
      }
      ghost var goal := Resolving.Search(p, selected, pending, old(attempts));
      for i := 0 to |tried|
        invariant Triable(p, selected, next, tried[i..])
        invariant goal == Try(p, selected, next, tried[i..], rest, attempts)
      {
        var r := tried[i];
        assert tried[i..][0] == r && tried[i..][1..] == tried[i + 1..];
        if !Eligible(p, selected, next, r) {
          continue;
        }
        SelectingShrinks(p, selected, r);
        var found := Search(selected[r.manifest.id := r], Wanted(r.manifest) + rest);
        if found != Exhausted {
          return found;
        }
      }
      return Exhausted;
    }
  }

  /* The whole resolution. */

  datatype ResolveError = Limit | NoClosure | Rejected(error: RegistryError)

  function SelectedManifests(s: Selection, ids: seq<Id>): (ms: seq<Manifest>)
    requires forall id :: id in ids ==> id in s
    ensures |ms| == |ids|
    ensures forall i :: 0 <= i < |ids| ==> ms[i] == s[ids[i]].manifest
  {
    if ids == [] then [] else [s[ids[0]].manifest] + SelectedManifests(s, ids[1..])
  }

  /** Installed manifests together with those selected, in some order of the latter. */
  ghost predicate Together(p: Problem, s: Selection, all: seq<Manifest>) {
    exists ids: seq<Id> :: Elems(ids) == s.Keys && Distinct(ids) && all == p.installed + SelectedManifests(s, ids)
  }

  /** The releases of a selection, each once, and each after the selected ones it needs. */
  ghost predicate InstallOrder(all: seq<Manifest>, s: Selection, list: seq<Release>) {
    && (forall r :: r in list <==> exists id :: id in s && s[id] == r)
    && (forall i, j :: 0 <= i < j < |list| ==> list[i].manifest.id != list[j].manifest.id)
    && (exists g :: GraphOf(g, all) && NeededBefore(g, s, list))
  }

  ghost predicate NeededBefore(g: Composition, s: Selection, list: seq<Release>) {
    forall i, n :: 0 <= i < |list| && NeedsDirectly(g, list[i].manifest.id, n) && n in s ==> s[n] in list[..i]
  }

  /** The ids of a selection in some order. */
  method Enumerate(s: Selection) returns (ids: seq<Id>)
    ensures Elems(ids) == s.Keys && Distinct(ids)
  {
    ids := [];
    var left := s.Keys;
    while left != {}
      invariant left <= s.Keys && Elems(ids) == s.Keys - left && Distinct(ids)
      decreases left
    {
      var id :| id in left;
      assert id !in Elems(ids);
      ElemsOfSum(ids, [id]);
      ids, left := ids + [id], left - {id};
    }
  }

  /** The selected releases in the order of the registry. */
  method PickSelected(s: Selection, order: seq<Id>, ghost g: Composition) returns (list: seq<Release>)
    requires forall id :: id in s ==> s[id].manifest.id == id && id in order
    requires NeedsFirst(g, order)
    ensures forall r :: r in list <==> exists id :: id in s && s[id] == r
    ensures forall i, j :: 0 <= i < j < |list| ==> list[i].manifest.id != list[j].manifest.id
    ensures NeededBefore(g, s, list)
  {
    list := [];
    for k := 0 to |order|
      invariant forall r :: r in list <==> r.manifest.id in order[..k] && r.manifest.id in s && s[r.manifest.id] == r
      invariant forall i, j :: 0 <= i < j < |list| ==> list[i].manifest.id != list[j].manifest.id
      invariant NeededBefore(g, s, list)
    {
      var id := order[k];
      assert order[..k + 1] == order[..k] + [id];
      assert id !in order[..k];
      if id in s {
        ghost var before := list;
        forall n | NeedsDirectly(g, id, n) && n in s ensures s[n] in before {
          assert n in order[..k];
        }
        list := list + [s[id]];
        forall i, n | 0 <= i < |list| && NeedsDirectly(g, list[i].manifest.id, n) && n in s ensures s[n] in list[..i] {
          if i < |before| {
            assert list[..i] == before[..i];
          } else {
            assert list[..i] == before;
          }
        }
      }
    }
    assert order[..|order|] == order;
  }

  lemma EverySelectedIsRegistered(p: Problem, s: Selection, ids: seq<Id>, order: seq<Id>)
    requires Elems(ids) == s.Keys && forall id :: id in ids ==> id in s
    requires forall id :: id in s ==> s[id].manifest.id == id
    requires Elems(order) == Elems(Ids(p.installed + SelectedManifests(s, ids)))
    ensures forall id :: id in s ==> id in order
  {
    var all := p.installed + SelectedManifests(s, ids);
    forall x | x in s ensures x in order {
      assert x in Elems(ids);
      var i :| 0 <= i < |ids| && ids[i] == x;
      assert all[|p.installed| + i] == s[x].manifest;
      assert Ids(all)[|p.installed| + i] == x;
      assert x in Elems(Ids(all));
    }
  }

  lemma PickedInOrder(all: seq<Manifest>, s: Selection, list: seq<Release>, g: Composition)
    requires forall r :: r in list <==> exists id :: id in s && s[id] == r
    requires forall i, j :: 0 <= i < j < |list| ==> list[i].manifest.id != list[j].manifest.id
    requires GraphOf(g, all) && NeededBefore(g, s, list)
    ensures InstallOrder(all, s, list)
  {
  }

  /** Every selected manifest beside the installed ones, in some order. */
  method CollectManifests(p: Problem, s: Selection) returns (ids: seq<Id>, all: seq<Manifest>)
    ensures Elems(ids) == s.Keys && (forall id :: id in ids ==> id in s)
    ensures all == p.installed + SelectedManifests(s, ids) && Together(p, s, all)
  {
    ids := Enumerate(s);
    assert forall x :: x in ids ==> x in Elems(ids);
    all := p.installed + SelectedManifests(s, ids);
  }

  /** The registry pass over the installed modules and a selection. */
  method OrderSelection(p: Problem, s: Selection) returns (r: Result<seq<Release>, RegistryError>)
    requires forall id :: id in s ==> s[id].manifest.id == id
    ensures match r
      case Err(_) => exists all :: Together(p, s, all) && !Registrable(all, p.platform)
      case Ok(list) => exists all :: Together(p, s, all) && Registrable(all, p.platform) && InstallOrder(all, s, list)
  {
    hide Registrable, NeededBefore, Together, InstallOrder, GraphOf, NeedsFirst, Elems, Ids;
    var ids, all := CollectManifests(p, s);
    var registry := CreateRegistry(all, p.platform);
    if registry.Err? {
      return Err(registry.error);
    }
    ghost var g :| GraphOf(g, all) && NeedsFirst(g, registry.value);
    EverySelectedIsRegistered(p, s, ids, registry.value);
    var list := PickSelected(s, registry.value, g);
    PickedInOrder(all, s, list, g);
    return Ok(list);
  }

  /** Resolves a target against a catalog and the installed modules. */
  method ResolveModuleReleases(p: Problem, id: Id, range: Range) returns (r: Result<seq<Release>, ResolveError>)
    ensures var outcome := Resolving.Search(p, map[], Request(id, range), 0).0;
      match r
      case Err(Limit) => outcome == LimitHit
      case Err(NoClosure) => !exists s :: Resolves(p, id, range, s)
      case Err(Rejected(_)) =>
        outcome.Found? && Resolves(p, id, range, outcome.selected)
        && exists all :: Together(p, outcome.selected, all) && !Registrable(all, p.platform)
      case Ok(list) =>
        outcome.Found? && Resolves(p, id, range, outcome.selected) && |outcome.selected| <= MAX_SELECTED
        && exists all :: Together(p, outcome.selected, all) && Registrable(all, p.platform)
                         && InstallOrder(all, outcome.selected, list)
  {
    ResolverIsExact(p, id, range);
    var resolution := new Resolution(p);
    var outcome := resolution.Search(map[], Request(id, range));
    if outcome == LimitHit {
      return Err(Limit);
    }
    if outcome == Exhausted {
      return Err(NoClosure);
    }
    var list := OrderSelection(p, outcome.selected);
    if list.Err? {
      return Err(Rejected(list.error));
    }
    return Ok(list.value);
  }
}
