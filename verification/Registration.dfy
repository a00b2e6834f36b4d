/** When the registry takes what the resolver found. */
module Registration {
  import opened Basics
  import opened Versions
  import opened Manifests
  import opened Ordering
  import opened OrderingTheorems
  import opened Registry
  import opened Resolving
  import opened ResolvingTheorems
  import opened ResolverRun

  /** Needs of a module are registered, in range and provided for. */
  ghost predicate NeedsMet(g: Composition, m: Manifest) {
    && (forall d :: d in m.dependencies ==>
          d.id in g.modules && Satisfies(g.modules[d.id].version, RangeFor(m.dependencies, d.id)))
    && (forall c :: Demands(m, c) ==> c in g.providers)
  }

  ghost predicate AllNeedsMet(g: Composition, modules: seq<Manifest>) {
    forall m :: m in modules ==> NeedsMet(g, m)
  }

  ghost predicate NoLoop(g: Composition) {
    forall p :: !Loop(g, p)
  }

  lemma RangeIsOfDependency(ds: seq<Dependency>, id: Id) returns (d: Dependency)
    requires exists d :: d in ds && d.id == id
    ensures d in ds && d.id == id && RangeFor(ds, id) == d.range
  {
    if ds[0].id == id {
      d := ds[0];
    } else {
      d := RangeIsOfDependency(ds[1..], id);
    }
  }

  /** In a graph of some modules each need leads to one of them, if their needs are met. */
  lemma NeedsStayInside(g: Composition, modules: seq<Manifest>, a: Id, n: Id)
    requires GraphOf(g, modules) && AllNeedsMet(g, modules) && NeedsDirectly(g, a, n)
    ensures n in g.modules
  {
    assert a in Elems(Ids(modules));
    var i :| 0 <= i < |modules| && Ids(modules)[i] == a;
    assert modules[i] in modules && NeedsMet(g, modules[i]);
    if DependsOn(g.modules[a], n) {
      var d :| d in g.modules[a].dependencies && d.id == n;
    } else {
      var c :| Demands(g.modules[a], c) && c in g.providers && g.providers[c] == n;
      assert Offers(modules, c, n);
      var m :| m in modules && m.id == n && Provides(m, c);
    }
  }

  lemma ClosureIsInside(g: Composition, modules: seq<Manifest>, b: Id)
    requires GraphOf(g, modules) && AllNeedsMet(g, modules) && InClosure(g, Elems(Ids(modules)), b)
    ensures b in g.modules
  {
    var a :| a in Elems(Ids(modules)) && Reaches(g, a, b);
    var p :| Route(g, a, b, p);
    forall x, n | x in g.modules.Keys && NeedsDirectly(g, x, n) ensures n in g.modules.Keys {
      NeedsStayInside(g, modules, x, n);
    }
    ClosedUnderNeeds(g, g.modules.Keys, a, b, p);
  }

  lemma ModuleOf(g: Composition, modules: seq<Manifest>, id: Id) returns (m: Manifest)
    requires GraphOf(g, modules) && id in g.modules
    ensures m in modules && m.id == id && g.modules[id] == m
  {
    assert id in Elems(Ids(modules));
    var i :| 0 <= i < |modules| && Ids(modules)[i] == id;
    m := modules[i];
  }

  /** A graph composes exactly when every need is met and nothing needs itself. */
  lemma ComposableIsMet(g: Composition, modules: seq<Manifest>)
    requires GraphOf(g, modules)
    ensures Composable(g, Elems(Ids(modules))) <==> AllNeedsMet(g, modules) && NoLoop(g)
  {
    var roots := Elems(Ids(modules));
    if Composable(g, roots) {
      forall m | m in modules ensures NeedsMet(g, m) {
        ComposableMeets(g, modules, m);
      }
      forall p ensures !Loop(g, p) {
        if Loop(g, p) {
          assert NeedsDirectly(g, p[0], p[1]);
          ReachesSelf(g, p[0]);
          assert InClosure(g, roots, p[0]);
        }
      }
    }
    if AllNeedsMet(g, modules) && NoLoop(g) {
      forall b | InClosure(g, roots, b) ensures Fit(g, b) {
        ClosureIsInside(g, modules, b);
        var m := ModuleOf(g, modules, b);
        assert NeedsMet(g, m);
      }
    }
  }

  lemma ComposableMeets(g: Composition, modules: seq<Manifest>, m: Manifest)
    requires GraphOf(g, modules) && Composable(g, Elems(Ids(modules))) && m in modules
    ensures NeedsMet(g, m)
  {
    var roots := Elems(Ids(modules));
    ReachesSelf(g, m.id);
    assert InClosure(g, roots, m.id) && Fit(g, m.id);
    forall d | d in m.dependencies
      ensures d.id in g.modules && Satisfies(g.modules[d.id].version, RangeFor(m.dependencies, d.id))
    {
      assert DependsOn(m, d.id) && NeedsDirectly(g, m.id, d.id);
      ReachesStep(g, m.id, m.id, d.id);
      assert InClosure(g, roots, d.id) && Fit(g, d.id);
      assert RangeMet(g, m, d.id);
    }
  }

  lemma SameIdSame(modules: seq<Manifest>, m: Manifest, n: Manifest)
    requires Distinct(Ids(modules)) && m in modules && n in modules && m.id == n.id
    ensures m == n
  {
    var i :| 0 <= i < |modules| && modules[i] == m;
    var j :| 0 <= j < |modules| && modules[j] == n;
    assert Ids(modules)[i] == Ids(modules)[j];
  }

  lemma IdsAre(modules: seq<Manifest>, id: Id)
    ensures id in Elems(Ids(modules)) <==> exists m :: m in modules && m.id == id
  {
    if m :| m in modules && m.id == id {
      var i :| 0 <= i < |modules| && modules[i] == m;
      assert Ids(modules)[i] == id;
    }
    if id in Elems(Ids(modules)) {
      var i :| 0 <= i < |modules| && Ids(modules)[i] == id;
      assert modules[i] in modules && modules[i].id == id;
    }
  }

  ghost function ById(modules: seq<Manifest>): (r: map<Id, Manifest>)
    requires Distinct(Ids(modules))
    ensures r.Keys == Elems(Ids(modules))
    ensures forall m :: m in modules ==> m.id in r && r[m.id] == m
  {
    assert forall m, n :: m in modules && n in modules && m.id == n.id ==> m == n by {
      forall m, n | m in modules && n in modules && m.id == n.id ensures m == n {
        SameIdSame(modules, m, n);
      }
    }
    assert forall id :: id in Elems(Ids(modules)) <==> exists m :: m in modules && m.id == id by {
      forall id ensures id in Elems(Ids(modules)) <==> exists m :: m in modules && m.id == id {
        IdsAre(modules, id);
      }
    }
    map m | m in modules :: m.id := m
  }

  ghost function ProvidersOf(modules: seq<Manifest>): (r: map<Capability, Id>)
    requires OneProviderEach(modules)
    ensures forall c, id :: Offers(modules, c, id) <==> c in r && r[c] == id
  {
    assert forall m, c :: m in modules && c in m.provided ==> Offers(modules, c, m.id);
    map m, c | m in modules && c in m.provided :: c := m.id
  }

  /** Distinct ids and one provider per capability are all a graph takes. */
  lemma GraphExists(modules: seq<Manifest>) returns (g: Composition)
    requires Distinct(Ids(modules)) && OneProviderEach(modules)
    ensures GraphOf(g, modules)
  {
    g := Composition(ById(modules), ProvidersOf(modules), Elems(Ids(modules)), true);
  }

  lemma ExistingIsInstalled(installed: seq<Manifest>, id: Id)
    ensures Existing(installed, id).Some? ==>
      Existing(installed, id).value in installed && Existing(installed, id).value.id == id
    ensures Existing(installed, id).None? ==> forall m :: m in installed ==> m.id != id
  {
    if installed != [] {
      ExistingIsInstalled(installed[..|installed| - 1], id);
      assert installed == installed[..|installed| - 1] + [installed[|installed| - 1]];
    }
  }

  lemma SelectedAre(s: Selection, ids: seq<Id>, m: Manifest)
    requires forall id :: id in ids ==> id in s
    ensures m in SelectedManifests(s, ids) <==> exists id :: id in ids && s[id].manifest == m
  {
    var ms := SelectedManifests(s, ids);
    if m in ms {
      var i :| 0 <= i < |ms| && ms[i] == m;
      assert ids[i] in ids;
    }
    if id :| id in ids && s[id].manifest == m {
      var i :| 0 <= i < |ids| && ids[i] == id;
      assert ms[i] == m;
    }
  }

  lemma AllAre(p: Problem, s: Selection, all: seq<Manifest>)
    requires Together(p, s, all)
    ensures forall m :: m in all <==> m in p.installed || exists id :: id in s && s[id].manifest == m
  {
    var ids :| Elems(ids) == s.Keys && Distinct(ids) && (forall id :: id in ids ==> id in s)
               && all == p.installed + SelectedManifests(s, ids);
    forall id ensures id in ids <==> id in s {
      assert id in Elems(ids) <==> id in s.Keys;
    }
    hide *;
    forall m ensures m in all <==> m in p.installed || exists id :: id in s && s[id].manifest == m {
      SelectedAre(s, ids, m);
    }
  }

  lemma MetIsRegistered(p: Problem, s: Selection, all: seq<Manifest>, g: Composition, id: Id, range: Range)
    requires Admissible(p, s) && Together(p, s, all) && GraphOf(g, all) && Meets(p, s, WantModule(id, range))
    ensures id in g.modules && Satisfies(g.modules[id].version, range)
  {
    hide PlatformAdmits;
    AllAre(p, s, all);
    ExistingIsInstalled(p.installed, id);
  }

  /** What a closed selection's modules need is met by it and the installed ones. */
  lemma SelectedNeedsMet(p: Problem, s: Selection, all: seq<Manifest>, g: Composition, x: Id)
    requires Admissible(p, s) && Closed(p, s, {}) && Together(p, s, all) && GraphOf(g, all) && x in s
    ensures NeedsMet(g, s[x].manifest)
  {
    hide PlatformAdmits, Wanted, Meets, Admissible, Together;
    var m := s[x].manifest;
    assert AllMet(p, s, Wanted(m));
    forall d | d in m.dependencies
      ensures d.id in g.modules && Satisfies(g.modules[d.id].version, RangeFor(m.dependencies, d.id))
    {
      var e := RangeIsOfDependency(m.dependencies, d.id);
      WantedHasDependency(m, e);
      MetIsRegistered(p, s, all, g, e.id, e.range);
    }
    forall c | Demands(m, c) ensures c in g.providers {
      var r :| r in m.requirements && r.id == c && !r.optional;
      WantedHasRequirement(m, r);
      MetIsProvided(p, s, c);
      ProvidedIsOffered(p, s, all, c);
    }
  }

  lemma MetIsProvided(p: Problem, s: Selection, c: Capability)
    requires Meets(p, s, WantCapability(c))
    ensures Provided(p, s, c)
  {
  }

  lemma WantedHasDependency(m: Manifest, d: Dependency)
    requires d in m.dependencies
    ensures WantModule(d.id, d.range) in Wanted(m)
  {
    var i :| 0 <= i < |m.dependencies| && m.dependencies[i] == d;
    assert ModuleWants(m.dependencies)[i] == WantModule(d.id, d.range);
    assert WantModule(d.id, d.range) in ModuleWants(m.dependencies);
  }

  lemma WantedHasRequirement(m: Manifest, r: Requirement)
    requires r in m.requirements && !r.optional
    ensures WantCapability(r.id) in Wanted(m)
  {
    var kept := Filter((q: Requirement) => !q.optional, m.requirements);
    assert r in kept;
    var i :| 0 <= i < |kept| && kept[i] == r;
    assert CapabilityWants(m.requirements)[i] == WantCapability(r.id);
    assert WantCapability(r.id) in CapabilityWants(m.requirements);
  }

  lemma ProvidedIsOffered(p: Problem, s: Selection, all: seq<Manifest>, c: Capability)
    requires Together(p, s, all) && Provided(p, s, c)
    ensures exists id :: Offers(all, c, id)
  {
    AllAre(p, s, all);
    if m :| m in p.installed && Provides(m, c) {
      assert Offers(all, c, m.id);
    } else {
      var id :| id in s && Provides(s[id].manifest, c);
      assert Offers(all, c, s[id].manifest.id);
    }
  }

  lemma SumDistinct(a: seq<Id>, b: seq<Id>)
    requires Distinct(b) && forall x :: x in b ==> x !in a
    ensures Distinct(a + b) <==> Distinct(a)
  {
    if Distinct(a + b) {
      forall i, j | 0 <= i < j < |a| ensures a[i] != a[j] {
        assert (a + b)[i] != (a + b)[j];
      }
    }
    if Distinct(a) {
      forall i, j | 0 <= i < j < |a + b| ensures (a + b)[i] != (a + b)[j] {
        if i < |a| <= j {
          assert b[j - |a|] in b && a[i] in a;
        } else if |a| <= i {
          assert b[i - |a|] != b[j - |a|];
        }
      }
    }
  }

  /** No selected id is installed, so ids repeat only among the installed. */
  lemma TogetherDistinct(p: Problem, s: Selection, all: seq<Manifest>)
    requires Admissible(p, s) && Together(p, s, all)
    ensures Distinct(Ids(all)) <==> Distinct(Ids(p.installed))
  {
    hide PlatformAdmits, Distinct;
    var ids :| Elems(ids) == s.Keys && Distinct(ids) && (forall id :: id in ids ==> id in s)
               && all == p.installed + SelectedManifests(s, ids);
    assert Ids(all) == Ids(p.installed) + ids;
    forall x | x in ids ensures x !in Ids(p.installed) {
      ExistingIsInstalled(p.installed, x);
      IdsAre(p.installed, x);
      assert x in s;
    }
    SumDistinct(Ids(p.installed), ids);
  }

  /* Main results. */

  /** The registry takes a selection that was found exactly when the installed modules are
      admitted, without repeated ids and with their needs met, and when, over all together, no
      capability has two providers and nothing needs itself. */
  lemma SelectionRegistersExactly(p: Problem, id: Id, range: Range, s: Selection, all: seq<Manifest>)
    requires Resolves(p, id, range, s) && Together(p, s, all)
    ensures Registrable(all, p.platform) <==>
      && AllAdmitted(p.installed, p.platform) && Distinct(Ids(p.installed)) && OneProviderEach(all)
      && exists g :: GraphOf(g, all) && AllNeedsMet(g, p.installed) && NoLoop(g)
  {
    hide PlatformAdmits, NeedsMet, Composable, OneProviderEach, GraphOf, NoLoop, Together;
    AllAre(p, s, all);
    TogetherDistinct(p, s, all);
    forall g | GraphOf(g, all)
      ensures Composable(g, Elems(Ids(all))) <==> AllNeedsMet(g, p.installed) && NoLoop(g)
    {
      ComposableIsMet(g, all);
      forall x | x in s ensures NeedsMet(g, s[x].manifest) {
        SelectedNeedsMet(p, s, all, g, x);
      }
    }
    assert AllAdmitted(all, p.platform) <==> AllAdmitted(p.installed, p.platform);
  }

  /** Beside installed modules that register, a selection is rejected exactly when it gives a
      capability a second provider or closes a circle of needs. */
  lemma RejectedExactly(p: Problem, id: Id, range: Range, s: Selection, all: seq<Manifest>)
    requires Resolves(p, id, range, s) && Together(p, s, all) && Registrable(p.installed, p.platform)
    ensures Registrable(all, p.platform) <==> OneProviderEach(all) && forall g :: GraphOf(g, all) ==> NoLoop(g)
  {
    hide PlatformAdmits, NeedsMet, Composable, OneProviderEach, GraphOf, NoLoop, Together;
    SelectionRegistersExactly(p, id, range, s, all);
    TogetherDistinct(p, s, all);
    if OneProviderEach(all) {
      var h := GraphExists(all);
      forall g | GraphOf(g, all) ensures g == h {
        GraphIsUnique(g, h, all);
      }
      InstalledStayMet(p, s, all, h);
    }
  }

  lemma InstalledStayMet(p: Problem, s: Selection, all: seq<Manifest>, g: Composition)
    requires Together(p, s, all) && GraphOf(g, all) && Registrable(p.installed, p.platform)
    ensures AllNeedsMet(g, p.installed)
  {
    AllAre(p, s, all);
    var h :| GraphOf(h, p.installed) && Composable(h, Elems(Ids(p.installed)));
    ComposableIsMet(h, p.installed);
    forall m | m in p.installed ensures NeedsMet(g, m) {
      assert NeedsMet(h, m);
      forall d | d in m.dependencies
        ensures d.id in g.modules && Satisfies(g.modules[d.id].version, RangeFor(m.dependencies, d.id))
      {
        var n := ModuleOf(h, p.installed, d.id);
      }
      forall c | Demands(m, c) ensures c in g.providers {
        assert Offers(p.installed, c, h.providers[c]);
        var n :| n in p.installed && n.id == h.providers[c] && Provides(n, c);
        assert Offers(all, c, n.id);
      }
    }
  }

  /* A selection that is rejected though another would be taken. */

  const FIRST := Version(0, 0, 0)
  const SECOND := Version(0, 0, 1)

  function Made(id: Id, version: Version, provided: seq<Capability>): Manifest {
    Manifest(id, version, ANY, [], provided, [])
  }

  /** The newer release of t provides what the installed i provides already; the older does not. */
  function NewerClashes(t: Id, i: Id, c: Capability): Problem {
    Problem([Release(Made(t, SECOND, [c]), ""), Release(Made(t, FIRST, []), "")], [Made(i, FIRST, [c])], FIRST)
  }

  lemma MadeIsAdmitted(id: Id, version: Version, provided: seq<Capability>)
    ensures PlatformAdmits(Made(id, version, provided), FIRST) && Satisfies(version, ANY)
    ensures Wanted(Made(id, version, provided)) == []
  {
    assert MatchesAll(FIRST, ANY[0]) && MatchesAll(version, ANY[0]);
  }

  lemma OneResolves(t: Id, i: Id, c: Capability, r: Release)
    requires t != i && r in NewerClashes(t, i, c).releases
    ensures Resolves(NewerClashes(t, i, c), t, ANY, map[t := r])
  {
    MadeIsAdmitted(t, r.manifest.version, r.manifest.provided);
    ExistingIsInstalled(NewerClashes(t, i, c).installed, t);
  }

  /** The first candidate is taken at once: it is eligible and wants nothing. */
  lemma NoLimitIsHit(t: Id, i: Id, c: Capability)
    requires t != i
    ensures Search(NewerClashes(t, i, c), map[], Request(t, ANY), 0).0.Found?
  {
    hide Search, Try, CandidatesOf, Eligible, Wanted, NewestFirst;
    var p := NewerClashes(t, i, c);
    var candidates := CandidatesOf(p.releases, t);
    ExistingIsInstalled(p.installed, t);
    CandidateMembers(p.releases, t);
    RequestTries(p, t, ANY);
    assert p.releases[0] in candidates;
    assert candidates[0] in candidates;
    ReleaseIsEligible(t, i, c, candidates[0]);
    FirstIsTaken(p, WantModule(t, ANY), candidates, 1);
  }

  lemma ReleaseIsEligible(t: Id, i: Id, c: Capability, r: Release)
    requires r in NewerClashes(t, i, c).releases
    ensures Eligible(NewerClashes(t, i, c), map[], WantModule(t, ANY), r) && Wanted(r.manifest) == []
  {
    MadeIsAdmitted(t, r.manifest.version, r.manifest.provided);
  }

  lemma FirstIsTaken(p: Problem, want: Want, candidates: seq<Release>, attempts: nat)
    requires candidates != [] && Triable(p, map[], want, candidates) && Eligible(p, map[], want, candidates[0])
    requires Wanted(candidates[0].manifest) == [] && attempts < MAX_ATTEMPTS
    ensures Try(p, map[], want, candidates, [], attempts).0.Found?
  {
    hide Eligible, Wanted, Triable;
    var selected: Selection := map[candidates[0].manifest.id := candidates[0]];
    assert map[][candidates[0].manifest.id := candidates[0]] == selected;
    assert Wanted(candidates[0].manifest) + [] == [];
    SelectedOne(p, selected, attempts);
  }

  lemma SelectedOne(p: Problem, selected: Selection, attempts: nat)
    requires |selected| == 1 && attempts < MAX_ATTEMPTS
    ensures Search(p, selected, [], attempts) == (Found(selected), attempts + 1)
  {
  }

  lemma NewestIsFound(t: Id, i: Id, c: Capability)
    requires t != i
    ensures var p := NewerClashes(t, i, c);
      Search(p, map[], Request(t, ANY), 0).0 == Found(map[t := p.releases[0]])
  {
    hide Search, Resolves;
    var p := NewerClashes(t, i, c);
    NoLimitIsHit(t, i, c);
    ResolverIsExact(p, t, ANY);
    OneResolves(t, i, c, p.releases[0]);
    ExistingIsInstalled(p.installed, t);
    TargetIsNewest(p, t, ANY, p.releases[0], map[t := p.releases[0]]);
    OnlyOneIsSelected(p, t, Search(p, map[], Request(t, ANY), 0).0.selected);
  }

  lemma OnlyOneIsSelected(p: Problem, t: Id, s: Selection)
    requires Resolves(p, t, ANY, s) && t in s && (forall r :: r in p.releases ==> r.manifest.id == t)
    ensures s == map[t := s[t]] && s[t] in p.releases
  {
    hide PlatformAdmits;
  }

  lemma AllOneIsOne(ids: seq<Id>, t: Id)
    requires Distinct(ids) && t in ids && forall k :: 0 <= k < |ids| ==> ids[k] == t
    ensures ids == [t]
  {
    if |ids| > 1 {
      FirstTwoDiffer(ids);
    }
  }

  lemma FirstTwoDiffer(ids: seq<Id>)
    requires Distinct(ids) && |ids| > 1
    ensures ids[0] != ids[1]
  {
  }

  lemma TogetherWithOne(p: Problem, t: Id, r: Release, all: seq<Manifest>)
    ensures Together(p, map[t := r], all) <==> all == p.installed + [r.manifest]
  {
    var s := map[t := r];
    assert Elems([t]) == s.Keys && SelectedManifests(s, [t]) == [r.manifest];
    if Together(p, s, all) {
      var ids :| Elems(ids) == s.Keys && Distinct(ids) && (forall id :: id in ids ==> id in s)
                 && all == p.installed + SelectedManifests(s, ids);
      assert t in Elems(ids);
      forall k | 0 <= k < |ids| ensures ids[k] == t {
        assert ids[k] in s;
      }
      AllOneIsOne(ids, t);
    }
  }

  /** The newest release is taken and the registry rejects it, although the older one answers the
      request as well and registers: the search does not look at what capabilities clash. */
  lemma RejectedThoughAnotherRegisters(t: Id, i: Id, c: Capability)
    requires t != i
    ensures var p := NewerClashes(t, i, c);
      var newer, older := map[t := p.releases[0]], map[t := p.releases[1]];
      && Search(p, map[], Request(t, ANY), 0).0 == Found(newer)
      && (forall all :: Together(p, newer, all) ==> !Registrable(all, p.platform))
      && Resolves(p, t, ANY, older)
      && (forall all :: Together(p, older, all) ==> Registrable(all, p.platform))
  {
    hide Search, Resolves, Registrable, Together;
    var p := NewerClashes(t, i, c);
    NewestIsFound(t, i, c);
    OneResolves(t, i, c, p.releases[1]);
    forall all | Together(p, map[t := p.releases[0]], all) ensures !Registrable(all, p.platform) {
      TogetherWithOne(p, t, p.releases[0], all);
      BothProvide(t, i, c, all);
    }
    forall all | Together(p, map[t := p.releases[1]], all) ensures Registrable(all, p.platform) {
      TogetherWithOne(p, t, p.releases[1], all);
      PlainPairRegisters(Made(i, FIRST, [c]), Made(t, FIRST, []), c);
      MadeIsAdmitted(i, FIRST, [c]);
      MadeIsAdmitted(t, FIRST, []);
    }
  }

  lemma BothProvide(t: Id, i: Id, c: Capability, all: seq<Manifest>)
    requires t != i && all == [Made(i, FIRST, [c])] + [Made(t, SECOND, [c])]
    ensures !Registrable(all, FIRST)
  {
    assert all[0] in all && all[1] in all;
    assert Offers(all, c, i) && Offers(all, c, t);
  }

  lemma NoNeedsNoLoop(g: Composition)
    requires forall x, n :: !NeedsDirectly(g, x, n)
    ensures NoLoop(g)
  {
    forall p | |p| >= 2 ensures !Chain(g, p) {
      assert !NeedsDirectly(g, p[0], p[0 + 1]);
    }
  }

  lemma PlainPairRegisters(a: Manifest, b: Manifest, c: Capability)
    requires a.id != b.id && a.provided == [c] && b.provided == []
    requires a.dependencies == [] == b.dependencies && a.requirements == [] == b.requirements
    ensures PlatformAdmits(a, FIRST) && PlatformAdmits(b, FIRST) ==> Registrable([a] + [b], FIRST)
  {
    hide PlatformAdmits, Composable, InClosure, Chain, Reaches;
    var all := [a] + [b];
    assert Ids(all) == [a.id, b.id];
    var g := GraphExists(all);
    forall x, n ensures !NeedsDirectly(g, x, n) {
      if x in g.modules {
        var m := ModuleOf(g, all, x);
      }
    }
    NoNeedsNoLoop(g);
    ComposableIsMet(g, all);
  }
}
