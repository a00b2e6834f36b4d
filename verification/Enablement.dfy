/** Enabling and disabling modules: the order as a canonical form of a set of ids,
    the closure an enable adds, and the modules a disable would break. */
module Enablement {
  import opened Basics
  import opened Versions
  import opened Manifests
  import opened Ordering
  import opened OrderingTheorems
  import opened Composing

  /* The order is a function of the set of roots. */

  lemma DistinctCounts(s: seq<Id>)
    ensures Distinct(s) <==> forall x :: multiset(s)[x] <= 1
  {
    if Distinct(s) {
      forall x ensures multiset(s)[x] <= 1 { CountAtMostOne(s, x); }
    } else {
      var i, j :| 0 <= i < j < |s| && s[i] == s[j];
      assert s == s[..i] + [s[i]] + s[i + 1..j] + [s[j]] + s[j + 1..];
      assert multiset(s)[s[i]] >= 2;
    }
  }

  lemma {:induction false} CountAtMostOne(s: seq<Id>, x: Id)
    requires Distinct(s)
    ensures multiset(s)[x] <= 1
  {
    if s != [] {
      var front, last := s[..|s| - 1], s[|s| - 1];
      assert s == front + [last];
      CountAtMostOne(front, x);
      if x == last {
        assert x !in front;
        assert x !in multiset(front);
      }
    }
  }

  lemma SortKeepsDistinct(s: seq<Id>)
    requires Distinct(s)
    ensures Distinct(SortedIds(s))
  {
    SortKeepsMultiset((id: Id) => id, s);
    DistinctCounts(s);
    DistinctCounts(SortedIds(s));
  }

  lemma {:induction false} SortedSetsAreEqual(a: seq<Id>, b: seq<Id>)
    requires SortedByKey((id: Id) => id, a) && SortedByKey((id: Id) => id, b)
    requires Distinct(a) && Distinct(b) && Elems(a) == Elems(b)
    ensures a == b
  {
    assert b != [] ==> b[0] in Elems(b);
    if a != [] {
      assert a[0] in Elems(b);
      assert b[0] in Elems(a);
      var i :| 0 <= i < |b| && b[i] == a[0];
      var j :| 0 <= j < |a| && a[j] == b[0];
      BeforeTotal(a[0], b[0]);
      assert a[0] == b[0];
      forall x | x in Elems(a[1..]) ensures x in Elems(b[1..]) {
        assert x in Elems(b);
        var k :| 0 <= k < |b| && b[k] == x;
        assert k > 0;
        assert b[1..][k - 1] == x;
      }
      forall x | x in Elems(b[1..]) ensures x in Elems(a[1..]) {
        assert x in Elems(a);
        var k :| 0 <= k < |a| && a[k] == x;
        assert k > 0;
        assert a[1..][k - 1] == x;
      }
      SortedSetsAreEqual(a[1..], b[1..]);
    }
  }

  lemma {:induction false} UniqueOfDistinct(s: seq<Id>)
    requires Distinct(s)
    ensures Unique(s) == s
  {
    if s != [] {
      UniqueOfDistinct(s[..|s| - 1]);
    }
  }

  lemma {:induction false} SortOfSorted(s: seq<Id>)
    requires SortedByKey((id: Id) => id, s)
    ensures SortedIds(s) == s
  {
    if s != [] {
      SortOfSorted(s[1..]);
    }
  }

  /** Neither the order nor the repetition of the roots matters. */
  lemma OrderDependsOnSet(
      modules: map<Id, Manifest>, providers: map<Capability, Id>, a: seq<Id>, b: seq<Id>, including: bool)
    requires Elems(a) == Elems(b)
    ensures Order(modules, providers, a, including) == Order(modules, providers, b, including)
  {
    var key := (id: Id) => id;
    SortSorts(key, Unique(a));
    SortSorts(key, Unique(b));
    SortKeepsElements(key, Unique(a));
    SortKeepsElements(key, Unique(b));
    SortKeepsDistinct(Unique(a));
    SortKeepsDistinct(Unique(b));
    SortedSetsAreEqual(SortedIds(Unique(a)), SortedIds(Unique(b)));
  }

  /* Strict and including modes. */

  /** The ids hold everything their modules need. */
  ghost predicate ClosedSet(g: Composition, ids: set<Id>) {
    forall a, n :: a in ids && NeedsDirectly(g, a, n) ==> n in ids
  }

  /** From these ids both compositions follow the same edges, which lead to these ids again. */
  ghost predicate FollowAlike(g: Composition, h: Composition, ids: iset<Id>) {
    && g.modules == h.modules
    && forall id, e :: id in ids && id in g.modules && e in Edges(g.modules[id]) ==>
         && Follow(g, id, e) == Follow(h, id, e)
         && (Follow(g, id, e).Ok? && Follow(g, id, e).value.Some? ==> Follow(g, id, e).value.value in ids)
  }

  lemma {:induction false} SameVisit(
      g: Composition, h: Composition, ids: iset<Id>, visiting: seq<Id>, ordered: seq<Id>, id: Id, consumer: Option<Id>)
    requires FollowAlike(g, h, ids) && id in ids
    ensures VisitFrom(g, visiting, ordered, id, consumer) == VisitFrom(h, visiting, ordered, id, consumer)
    decreases g.modules.Keys - Elems(visiting), 0
  {
    if id !in ordered && id !in visiting && id in g.modules {
      ElemsOfSum(visiting, [id]);
      assert id in g.modules.Keys - Elems(visiting) && id !in g.modules.Keys - Elems(visiting + [id]);
      SameEdges(g, h, ids, visiting + [id], ordered, id, Edges(g.modules[id]));
    }
  }

  lemma {:induction false} SameEdges(
      g: Composition, h: Composition, ids: iset<Id>, visiting: seq<Id>, ordered: seq<Id>, id: Id, edges: seq<Edge>)
    requires FollowAlike(g, h, ids) && id in ids && id in g.modules
    requires forall e :: e in edges ==> e in Edges(g.modules[id])
    ensures VisitEdges(g, visiting, ordered, id, edges) == VisitEdges(h, visiting, ordered, id, edges)
    decreases g.modules.Keys - Elems(visiting), |edges|
  {
    if edges != [] {
      var step := Follow(g, id, edges[0]);
      assert step == Follow(h, id, edges[0]);
      if step.Ok? && step.value.Some? {
        SameVisit(g, h, ids, visiting, ordered, step.value.value, Some(id));
        var r := VisitFrom(g, visiting, ordered, step.value.value, Some(id));
        if r.Ok? {
          SameEdges(g, h, ids, visiting, r.value, id, edges[1..]);
        }
      } else if step.Ok? {
        SameEdges(g, h, ids, visiting, ordered, id, edges[1..]);
      }
    }
  }

  lemma {:induction false} SameRoots(g: Composition, h: Composition, ids: iset<Id>, ordered: seq<Id>, roots: seq<Id>)
    requires FollowAlike(g, h, ids) && forall x :: x in roots ==> x in ids
    ensures VisitRoots(g, ordered, roots) == VisitRoots(h, ordered, roots)
    decreases |roots|
  {
    if roots != [] {
      SameVisit(g, h, ids, [], ordered, roots[0], None);
      var r := VisitFrom(g, [], ordered, roots[0], None);
      if r.Ok? {
        SameRoots(g, h, ids, r.value, roots[1..]);
      }
    }
  }

  lemma ClosedFollowAlike(g: Composition)
    requires ClosedSet(g, g.requested)
    ensures FollowAlike(g, g.(including := true), iset x | x in g.requested)
  {
    forall id, e | id in g.requested && id in g.modules && e in Edges(g.modules[id])
      ensures Follow(g, id, e) == Follow(g.(including := true), id, e)
      ensures Follow(g, id, e).Ok? && Follow(g, id, e).value.Some? ==> Follow(g, id, e).value.value in g.requested
    {
      SameFollow(g, id, e);
      if Follow(g, id, e).Ok? && Follow(g, id, e).value.Some? {
        FollowLeadsToNeed(g, id, e);
      }
    }
  }

  lemma SameFollow(g: Composition, id: Id, e: Edge)
    requires ClosedSet(g, g.requested) && id in g.requested
    requires id in g.modules && e in Edges(g.modules[id])
    ensures Follow(g, id, e) == Follow(g.(including := true), id, e)
  {
    match e {
      case OnModule(d) =>
        EdgeIsDependency(g.modules[id], d);
        assert NeedsDirectly(g, id, d);
      case OnCapability(r) =>
        EdgeIsDemand(g.modules[id], r);
        if !r.optional && r.id in g.providers && g.providers[r.id] != id {
          assert Demands(g.modules[id], r.id);
          assert NeedsDirectly(g, id, g.providers[r.id]);
        }
    }
  }

  /** While needs are pulled in, the walk never asks what was requested. */
  lemma RequestedDoesNotMatter(g: Composition, requested: set<Id>, ordered: seq<Id>, roots: seq<Id>)
    requires g.including
    ensures VisitRoots(g, ordered, roots) == VisitRoots(g.(requested := requested), ordered, roots)
  {
    var h := g.(requested := requested);
    var ids := iset x: Id | x in requested || x !in requested;
    forall id, e | id in g.modules && e in Edges(g.modules[id]) ensures Follow(g, id, e) == Follow(h, id, e) {
      if e.OnModule? {
        EdgeIsDependency(g.modules[id], e.id);
      }
    }
    assert FollowAlike(g, h, ids);
    SameRoots(g, h, ids, ordered, roots);
  }

  /** On a closed set of roots both modes do the same thing, errors included. */
  lemma ClosedRootsAgree(modules: map<Id, Manifest>, providers: map<Capability, Id>, roots: seq<Id>)
    requires ClosedSet(Composition(modules, providers, Elems(roots), false), Elems(roots))
    ensures Order(modules, providers, roots, false) == Order(modules, providers, roots, true)
  {
    var g := Composition(modules, providers, Elems(roots), false);
    var sorted := SortedIds(Unique(roots));
    SortKeepsElements((id: Id) => id, Unique(roots));
    ClosedFollowAlike(g);
    forall x | x in sorted ensures x in Elems(roots) {
      assert x in Elems(sorted);
    }
    SameRoots(g, g.(including := true), iset x | x in g.requested, [], sorted);
  }

  /** The order of a closed set of roots is its own order, in either mode. */
  lemma OrderOfClosedRootsIsStable(modules: map<Id, Manifest>, providers: map<Capability, Id>, roots: seq<Id>)
    requires ClosedSet(Composition(modules, providers, Elems(roots), false), Elems(roots))
    requires Order(modules, providers, roots, true).Ok?
    ensures var o := Order(modules, providers, roots, true).value;
      && Order(modules, providers, o, true) == Ok(o)
      && Order(modules, providers, o, false) == Ok(o)
  {
    var g := Composition(modules, providers, Elems(roots), true);
    var o := Order(modules, providers, roots, true).value;
    OrderIsExact(modules, providers, roots, true);
    forall x | x in o ensures x in roots {
      var a :| a in Elems(roots) && Reaches(g, a, x);
      var p :| Route(g, a, x, p);
      forall i | 0 <= i < |p| - 1 ensures NeedsDirectly(g.(including := false), p[i], p[i + 1]) {
        assert NeedsDirectly(g, p[i], p[i + 1]);
      }
      ClosedUnderNeeds(g.(including := false), Elems(roots), a, x, p);
    }
    forall x | x in roots ensures x in o {
      ReachesSelf(g, x);
      assert x in Elems(roots);
    }
    assert Elems(o) == Elems(roots);
    OrderDependsOnSet(modules, providers, o, roots, true);
    ClosedRootsAgree(modules, providers, o);
  }

  /** The closed form of any composable roots composes in strict mode as well. */
  lemma ClosureComposesStrictly(modules: map<Id, Manifest>, providers: map<Capability, Id>, roots: seq<Id>)
    requires Order(modules, providers, roots, true).Ok?
    ensures var o := Order(modules, providers, roots, true).value;
      && ClosedSet(Composition(modules, providers, Elems(o), false), Elems(o))
      && Order(modules, providers, o, false).Ok?
      && Elems(Order(modules, providers, o, false).value) == Elems(o)
  {
    hide Order, Loop;
    var g := Composition(modules, providers, Elems(roots), true);
    var o := Order(modules, providers, roots, true).value;
    var strict := Composition(modules, providers, Elems(o), false);
    OrderIsExact(modules, providers, roots, true);
    forall i | 0 <= i < |o| ensures Fit(strict, o[i]) {
      assert o[i] in o;
      assert Fit(g, o[i]);
    }
    forall i, n | 0 <= i < |o| && NeedsDirectly(strict, o[i], n) ensures n in o[..i] && n in Elems(o) {
      assert NeedsDirectly(g, o[i], n);
    }
    assert Settled(strict, o);
    SettledIsComposable(strict, o, Elems(o));
    OrderIsExact(modules, providers, o, false);
    StrictOrderLists(modules, providers, o);
  }

  /* Without closed roots the order need not be its own order. */

  function Plain(id: Id): Manifest {
    Manifest(id, Version(1, 0, 0), ANY, [], [], [])
  }

  function Needing(id: Id, other: Id): Manifest {
    Plain(id).(dependencies := [Dependency(other, ANY)])
  }

  function Three(a: Id, b: Id, z: Id): map<Id, Manifest> {
    map[a := Plain(a), b := Plain(b), z := Needing(z, a)]
  }

  lemma SingleEdge(g: Composition, a: Id, z: Id)
    requires z in g.modules && g.modules[z] == Needing(z, a)
    requires a in g.modules && g.modules[a] == Plain(a) && g.including
    ensures Edges(Plain(a)) == [] && Edges(Needing(z, a)) == [OnModule(a)]
    ensures Follow(g, z, OnModule(a)) == Ok(Some(a))
  {
    var m := Needing(z, a);
    assert DependencyIds(m) == [a];
    SortOfSorted([a]);
    assert ModuleEdges([a]) == [OnModule(a)];
    assert SortedRequirements(m) == [];
    EdgeIsDependency(m, a);
    assert MatchesAll(Version(1, 0, 0), ANY[0]);
    assert Satisfies(Version(1, 0, 0), ANY);
  }

  lemma PlainVisit(g: Composition, visiting: seq<Id>, ordered: seq<Id>, a: Id, consumer: Option<Id>)
    requires a in g.modules && g.modules[a] == Plain(a)
    requires a !in visiting
    ensures VisitFrom(g, visiting, ordered, a, consumer) == Ok(if a in ordered then ordered else ordered + [a])
  {
    assert Edges(Plain(a)) == [];
  }

  lemma NeedingVisit(g: Composition, ordered: seq<Id>, a: Id, z: Id)
    requires z in g.modules && g.modules[z] == Needing(z, a) && z !in ordered && a != z
    requires a in g.modules && g.modules[a] == Plain(a) && g.including
    ensures VisitFrom(g, [], ordered, z, None) == Ok((if a in ordered then ordered else ordered + [a]) + [z])
  {
    SingleEdge(g, a, z);
    PlainVisit(g, [z], ordered, a, Some(z));
    assert [] + [z] == [z];
    var o := if a in ordered then ordered else ordered + [a];
    assert VisitEdges(g, [z], o, z, []) == Ok(o);
    assert [OnModule(a)][1..] == [];
    assert VisitEdges(g, [z], ordered, z, [OnModule(a)]) == Ok(o);
  }

  lemma ThreeRoots(a: Id, b: Id, z: Id)
    requires Before(a, b) && Before(b, z) && Before(a, z)
    ensures a != b && b != z && a != z
    ensures SortedIds(Unique([b, z])) == [b, z]
    ensures SortedIds(Unique([b, a, z])) == [a, b, z]
  {
    hide Before;
    BeforeAsymmetric(a, b);
    BeforeAsymmetric(b, z);
    BeforeAsymmetric(a, z);
    UniqueOfDistinct([b, z]);
    UniqueOfDistinct([b, a, z]);
    SortOfSorted([b, z]);
    SortOfSorted([a, z]);
    assert [b, a, z][1..] == [a, z];
    assert InsertByKey((id: Id) => id, b, [a, z]) == [a, b, z] by { assert [a, z][1..] == [z]; }
  }

  /** Take ids a, b, z in that order, z needing a. The roots b and z are ordered b, a, z;
      asked to order that list, the walk answers a, b, z. */
  lemma OrderOfOpenRootsIsNotStable(a: Id, b: Id, z: Id)
    requires Before(a, b) && Before(b, z) && Before(a, z)
    ensures Order(Three(a, b, z), map[], [b, z], true) == Ok([b, a, z])
    ensures Order(Three(a, b, z), map[], [b, a, z], true) == Ok([a, b, z])
  {
    ThreeRoots(a, b, z);
    OpenRoots(Composition(Three(a, b, z), map[], Elems([b, z]), true), a, b, z);
    OpenRoots(Composition(Three(a, b, z), map[], Elems([b, a, z]), true), a, b, z);
  }

  lemma OpenRoots(g: Composition, a: Id, b: Id, z: Id)
    requires a != b && b != z && a != z
    requires g.modules == Three(a, b, z) && g.including
    ensures VisitRoots(g, [], [b, z]) == Ok([b, a, z])
    ensures VisitRoots(g, [], [a, b, z]) == Ok([a, b, z])
  {
    RootsAfter(g, [], a, b, z);
    RootsAfter(g, [a], a, b, z);
    PlainVisit(g, [], [], a, None);
    assert [] + [b] + [a] + [z] == [b, a, z] && [a] + [b] + [z] == [a, b, z] && [] + [a] == [a];
    assert [a, b, z][1..] == [b, z];
  }

  lemma RootsAfter(g: Composition, before: seq<Id>, a: Id, b: Id, z: Id)
    requires a != b && b != z && a != z && b !in before && z !in before
    requires g.modules == Three(a, b, z) && g.including
    ensures VisitRoots(g, before, [b, z])
         == Ok((if a in before then before + [b] else before + [b] + [a]) + [z])
  {
    PlainVisit(g, [], before, b, None);
    NeedingVisit(g, before + [b], a, z);
    assert [b, z][1..] == [z] && [z][1..] == [];
    var o := (if a in before then before + [b] else before + [b] + [a]) + [z];
    assert a in before + [b] <==> a in before;
    assert VisitRoots(g, before + [b], [z]) == VisitRoots(g, o, []) == Ok(o);
  }

  /* Enabling. */

  datatype EnableReport = EnableReport(enabled: seq<Id>, newlyEnabled: seq<Id>, alreadyEnabled: bool, changed: bool)

  datatype EnableError = UnknownModule(id: Id) | NotComposable(error: OrderError)

  /** The ids an enable adds, and the whole list it would write. */
  method EnableModule(modules: map<Id, Manifest>, providers: map<Capability, Id>, current: seq<Id>, id: Id)
    returns (r: Result<EnableReport, EnableError>)
    ensures r.Ok? <==> id in modules
                       && Composable(Composition(modules, providers, Elems(current + [id]), true),
                           Elems(current + [id]))
    ensures r.Ok? ==>
      var g := Composition(modules, providers, Elems(current + [id]), true);
      && NeedsFirst(g, r.value.enabled)
      && (forall x :: x in r.value.enabled <==> InClosure(g, Elems(current + [id]), x))
      && (forall x :: x in r.value.newlyEnabled <==> x in r.value.enabled && x !in current)
      && r.value.alreadyEnabled == (id in current)
      && r.value.changed == (current != r.value.enabled)
      && Order(modules, providers, r.value.enabled, false).Ok?
  {
    if id !in modules {
      return Err(UnknownModule(id));
    }
    var order := ModuleOrder(modules, providers, current + [id], true);
    if order.Err? {
      return Err(NotComposable(order.error));
    }
    var enabled := order.value;
    ClosureComposesStrictly(modules, providers, current + [id]);
    var newlyEnabled := Filter((x: Id) => x !in current, enabled);
    return Ok(EnableReport(enabled, newlyEnabled, id in current, current != enabled));
  }

  /* Disabling. */

  const PROTECTED: set<Id> := {"system.core", "auth.core"}

  ghost predicate DependsChain(g: Composition, p: seq<Id>) {
    forall i :: 0 <= i < |p| - 1 ==> p[i] in g.modules && DependsOn(g.modules[p[i]], p[i + 1])
  }

  ghost predicate DependsRoute(g: Composition, a: Id, b: Id, p: seq<Id>) {
    |p| >= 2 && p[0] == a && p[|p| - 1] == b && DependsChain(g, p)
  }

  /** a depends on b, directly or through other dependencies. */
  ghost predicate Dependent(g: Composition, a: Id, b: Id) {
    exists p :: DependsRoute(g, a, b, p)
  }

  lemma DependentThrough(g: Composition, a: Id, d: Id, b: Id)
    requires a in g.modules && DependsOn(g.modules[a], d) && (d == b || Dependent(g, d, b))
    ensures Dependent(g, a, b)
  {
    if d == b {
      assert DependsRoute(g, a, b, [a, b]);
    } else {
      var p :| DependsRoute(g, d, b, p);
      var q := [a] + p;
      forall i | 0 <= i < |q| - 1 ensures q[i] in g.modules && DependsOn(g.modules[q[i]], q[i + 1]) {
        if i > 0 {
          assert p[i - 1] in g.modules && DependsOn(g.modules[p[i - 1]], p[i - 1 + 1]);
        }
      }
      assert DependsRoute(g, a, b, q);
    }
  }

  lemma DependentFirstStep(g: Composition, a: Id, b: Id) returns (d: Id)
    requires Dependent(g, a, b)
    ensures a in g.modules && DependsOn(g.modules[a], d) && (d == b || Dependent(g, d, b))
  {
    var p :| DependsRoute(g, a, b, p);
    d := p[1];
    assert p[0] in g.modules && DependsOn(g.modules[p[0]], p[0 + 1]);
    if |p| > 2 {
      var q := p[1..];
      forall i | 0 <= i < |q| - 1 ensures q[i] in g.modules && DependsOn(g.modules[q[i]], q[i + 1]) {
        assert p[i + 1] in g.modules && DependsOn(g.modules[p[i + 1]], p[i + 1 + 1]);
      }
      assert DependsRoute(g, d, b, q);
    }
  }

  lemma NotDependentWithoutStep(g: Composition, a: Id, b: Id)
    requires a in g.modules
    requires forall d :: DependsOn(g.modules[a], d) ==> d != b && !Dependent(g, d, b)
    ensures !Dependent(g, a, b)
  {
    if Dependent(g, a, b) {
      var d := DependentFirstStep(g, a, b);
    }
  }

  /** A single pass over a needs-first order finds every module that depends on id. */
  method DependentsOf(g: Composition, order: seq<Id>, id: Id) returns (dependents: set<Id>)
    requires NeedsFirst(g, order)
    requires forall x :: x in order ==> x in g.modules
    ensures dependents == set x | x in order && x != id && Dependent(g, x, id)
  {
    dependents := {id};
    for i := 0 to |order|
      invariant dependents == {id} + set x | x in order[..i] && Dependent(g, x, id)
    {
      var m := g.modules[order[i]];
      assert order[..i + 1] == order[..i] + [order[i]];
      if exists d :: d in m.dependencies && d.id in dependents {
        var d :| d in m.dependencies && d.id in dependents;
        assert DependsOn(m, d.id);
        DependentThrough(g, order[i], d.id, id);
        dependents := dependents + {order[i]};
      } else {
        forall d | DependsOn(m, d) ensures d != id && !Dependent(g, d, id) {
          assert NeedsDirectly(g, order[i], d);
          assert d in order[..i] && d !in dependents;
        }
        NotDependentWithoutStep(g, order[i], id);
      }
    }
    assert order[..|order|] == order;
    dependents := dependents - {id};
  }

  datatype DisableError =
    | Protected
    | NotRegistered
    | OrderFailed(error: OrderError)
    | RequiredBy(dependents: set<Id>)
    | RestNotComposable(error: OrderError)

  function Without(order: seq<Id>, id: Id): seq<Id> {
    Filter((x: Id) => x != id, order)
  }

  /** Nothing else that is enabled depends on id. */
  ghost predicate NoDependents(g: Composition, current: seq<Id>, id: Id) {
    forall x :: x in current && x != id ==> !Dependent(g, x, id)
  }

  /** Some module of the list requires a capability that id provides. */
  ghost predicate CapabilityUsed(g: Composition, list: seq<Id>, id: Id) {
    exists x, c :: x in list && x in g.modules && Demands(g.modules[x], c) && c in g.providers && g.providers[c] == id
  }

  /** A remaining module requires a capability, and its provider is the module taken out. */
  ghost predicate NamesUse(g: Composition, list: seq<Id>, id: Id, e: OrderError) {
    && e.DisabledProvider? && e.id == id
    && e.consumer in list && e.consumer in g.modules && Demands(g.modules[e.consumer], e.capability)
    && e.capability in g.providers && g.providers[e.capability] == id
  }

  /** In strict mode the order lists exactly the roots, all registered. */
  lemma StrictOrderLists(modules: map<Id, Manifest>, providers: map<Capability, Id>, roots: seq<Id>)
    requires Order(modules, providers, roots, false).Ok?
    ensures var o := Order(modules, providers, roots, false).value;
      forall x :: (x in o <==> x in roots) && (x in o ==> x in modules)
  {
    var g := Composition(modules, providers, Elems(roots), false);
    OrderIsExact(modules, providers, roots, false);
    var o := Order(modules, providers, roots, false).value;
    forall x ensures (x in o <==> x in roots) && (x in o ==> x in modules) {
      if x in roots {
        ReachesSelf(g, x);
        assert x in Elems(roots);
        assert InClosure(g, Elems(roots), x);
      }
      if x in o {
        assert InClosure(g, Elems(roots), x);
        assert x in g.requested;
        assert Fit(g, x);
      }
    }
  }

  /** Each element once, after everything it is related to. */
  ghost predicate RelatedFirst(related: (Id, Id) -> bool, order: seq<Id>) {
    Distinct(order) && forall i, n :: 0 <= i < |order| && related(order[i], n) ==> n in order[..i]
  }

  lemma RelatedFirstWith(related: (Id, Id) -> bool, order: seq<Id>, last: Id)
    requires RelatedFirst(related, order) && last !in order
    requires forall n :: related(last, n) ==> n in order
    ensures RelatedFirst(related, order + [last])
  {
    var longer := order + [last];
    forall i, n | 0 <= i < |longer| && related(longer[i], n) ensures n in longer[..i] {
      if i < |order| {
        assert longer[..i] == order[..i] && related(order[i], n);
      } else {
        assert longer[..i] == order;
      }
    }
  }

  lemma RelatedFirstFront(related: (Id, Id) -> bool, order: seq<Id>)
    requires order != [] && RelatedFirst(related, order)
    ensures var front, last := order[..|order| - 1], order[|order| - 1];
      RelatedFirst(related, front) && last !in front && forall n :: related(last, n) ==> n in front
  {
    var front := order[..|order| - 1];
    forall i, n | 0 <= i < |front| && related(front[i], n) ensures n in front[..i] {
      assert front[..i] == order[..i] && related(order[i], n);
    }
  }

  lemma {:induction false} WithoutKeepsRelatedFirst(related: (Id, Id) -> bool, order: seq<Id>, id: Id)
    requires RelatedFirst(related, order)
    requires forall x :: x in order && x != id ==> !related(x, id)
    ensures RelatedFirst(related, Without(order, id))
    decreases |order|
  {
    hide RelatedFirst;
    if order == [] {
      assert Without(order, id) == order;
    } else {
      var front, last := order[..|order| - 1], order[|order| - 1];
      assert order == front + [last];
      RelatedFirstFront(related, order);
      WithoutKeepsRelatedFirst(related, front, id);
      FilterOfSum((x: Id) => x != id, front, [last]);
      var kept := Without(front, id);
      if last != id {
        assert Without(order, id) == kept + [last];
        RelatedFirstWith(related, kept, last);
      } else {
        assert Without(order, id) == kept;
      }
    }
  }

  /** When nothing enabled depends on the disabled module, the list written still has every
      dependency of every member, earlier in the list. */
  lemma DisabledListKeepsDependencies(
      modules: map<Id, Manifest>, providers: map<Capability, Id>, current: seq<Id>, id: Id)
    requires Order(modules, providers, current, false).Ok?
    requires NoDependents(Composition(modules, providers, Elems(current), false), current, id)
    ensures RelatedFirst((a, n) => a in modules && DependsOn(modules[a], n),
                         Without(Order(modules, providers, current, false).value, id))
  {
    var g := Composition(modules, providers, Elems(current), false);
    var order := Order(modules, providers, current, false).value;
    OrderIsExact(modules, providers, current, false);
    StrictOrderLists(modules, providers, current);
    var related := (a, n) => a in modules && DependsOn(modules[a], n);
    forall i, n | 0 <= i < |order| && related(order[i], n) ensures n in order[..i] {
      assert NeedsDirectly(g, order[i], n);
    }
    forall x | x in order && x != id ensures !related(x, id) {
      if related(x, id) {
        DependentThrough(g, x, id, id);
      }
    }
    WithoutKeepsRelatedFirst(related, order, id);
  }

  /** The dependents check looks at dependencies only. The list written composes in strict
      mode exactly when, besides, no remaining module requires a capability of the disabled one. */
  lemma DisabledListComposesExactly(
      modules: map<Id, Manifest>, providers: map<Capability, Id>, current: seq<Id>, id: Id)
    requires Order(modules, providers, current, false).Ok?
    requires NoDependents(Composition(modules, providers, Elems(current), false), current, id)
    ensures var g := Composition(modules, providers, Elems(current), false);
      var rest := Without(Order(modules, providers, current, false).value, id);
      Order(modules, providers, rest, false).Ok? <==> !CapabilityUsed(g, rest, id)
  {
    var g := Composition(modules, providers, Elems(current), false);
    var order := Order(modules, providers, current, false).value;
    var rest := Without(order, id);
    OrderIsExact(modules, providers, rest, false);
    if CapabilityUsed(g, rest, id) {
      UsedIsNotComposable(g.(requested := Elems(rest)), rest, id);
    } else {
      OrderIsExact(modules, providers, current, false);
      StrictOrderLists(modules, providers, current);
      UnusedKeepsNeedsFirst(g, order, id);
      assert forall x :: x in order ==> Fit(g, x);
      RestIsSettled(g, g.(requested := Elems(rest)), order, rest, id);
      SettledIsComposable(g.(requested := Elems(rest)), rest, Elems(rest));
    }
  }

  lemma UsedIsNotComposable(h: Composition, rest: seq<Id>, id: Id)
    requires CapabilityUsed(h, rest, id) && id !in rest && h.requested == Elems(rest) && !h.including
    ensures !Composable(h, Elems(rest))
  {
    var x, c :| x in rest && x in h.modules && Demands(h.modules[x], c) && c in h.providers && h.providers[c] == id;
    assert NeedsDirectly(h, x, id);
    ReachesSelf(h, x);
    ReachesStep(h, x, x, id);
    assert x in Elems(rest) && InClosure(h, Elems(rest), id);
  }

  lemma UnusedKeepsNeedsFirst(g: Composition, order: seq<Id>, id: Id)
    requires NeedsFirst(g, order)
    requires forall x :: x in order && x != id ==> !Dependent(g, x, id)
    requires !CapabilityUsed(g, Without(order, id), id)
    ensures RelatedFirst((a, n) => NeedsDirectly(g, a, n), Without(order, id))
  {
    var related := (a, n) => NeedsDirectly(g, a, n);
    forall x | x in order && x != id ensures !related(x, id) {
      assert x in Without(order, id);
      if x in g.modules && DependsOn(g.modules[x], id) {
        DependentThrough(g, x, id, id);
      }
    }
    WithoutKeepsRelatedFirst(related, order, id);
  }

  lemma RestIsSettled(g: Composition, h: Composition, order: seq<Id>, rest: seq<Id>, id: Id)
    requires g.modules == h.modules && g.providers == h.providers
    requires rest == Without(order, id) && h.requested == Elems(rest)
    requires RelatedFirst((a, n) => NeedsDirectly(g, a, n), rest)
    requires forall x :: x in order ==> Fit(g, x)
    ensures Settled(h, rest)
  {
    var related := (a, n) => NeedsDirectly(g, a, n);
    forall i, n | 0 <= i < |rest| && NeedsDirectly(h, rest[i], n) ensures n in rest[..i] && n in h.requested {
      assert related(rest[i], n);
    }
    forall i | 0 <= i < |rest| ensures Fit(h, rest[i]) {
      assert rest[i] in rest;
      assert Fit(g, rest[i]);
    }
  }

  lemma {:induction false} DependsRouteIsRoute(g: Composition, a: Id, b: Id, p: seq<Id>)
    requires DependsRoute(g, a, b, p)
    ensures Route(g, a, b, p)
  {
    forall i | 0 <= i < |p| - 1 ensures NeedsDirectly(g, p[i], p[i + 1]) {
      assert p[i] in g.modules && DependsOn(g.modules[p[i]], p[i + 1]);
    }
  }

  /** Enabled modules depend on enabled ones only. */
  lemma NotEnabledHasNoDependents(
      modules: map<Id, Manifest>, providers: map<Capability, Id>, current: seq<Id>, id: Id)
    requires Order(modules, providers, current, false).Ok? && id !in current
    ensures NoDependents(Composition(modules, providers, Elems(current), false), current, id)
  {
    var g := Composition(modules, providers, Elems(current), false);
    OrderIsExact(modules, providers, current, false);
    forall x | x in current ensures !Dependent(g, x, id) {
      if Dependent(g, x, id) {
        var p :| DependsRoute(g, x, id, p);
        DependsRouteIsRoute(g, x, id, p);
        RootIsInClosure(g, current, x, id);
      }
    }
  }

  lemma RootIsInClosure(g: Composition, current: seq<Id>, x: Id, b: Id)
    requires x in current && Reaches(g, x, b)
    ensures InClosure(g, Elems(current), b)
  {
    assert x in Elems(current);
  }

  /** Two compositions of the same modules have the same routes. */
  lemma SameReach(g: Composition, h: Composition, a: Id, b: Id)
    requires g.modules == h.modules && g.providers == h.providers && Reaches(h, a, b)
    ensures Reaches(g, a, b)
  {
    var p :| Route(h, a, b, p);
    forall i | 0 <= i < |p| - 1 ensures NeedsDirectly(g, p[i], p[i + 1]) {
      assert NeedsDirectly(h, p[i], p[i + 1]);
    }
    assert Route(g, a, b, p);
  }

  lemma SameLoop(g: Composition, h: Composition, p: seq<Id>)
    requires g.modules == h.modules && g.providers == h.providers && Loop(h, p)
    ensures Loop(g, p)
  {
    forall i | 0 <= i < |p| - 1 ensures NeedsDirectly(g, p[i], p[i + 1]) {
      assert NeedsDirectly(h, p[i], p[i + 1]);
    }
  }

  /** What keeps the rest from composing is a capability of the disabled module, in use. */
  lemma RestErrorNamesUse(
      modules: map<Id, Manifest>, providers: map<Capability, Id>, current: seq<Id>, id: Id, e: OrderError)
    requires Order(modules, providers, current, false).Ok?
    requires NoDependents(Composition(modules, providers, Elems(current), false), current, id)
    requires Order(modules, providers, Without(Order(modules, providers, current, false).value, id), false) == Err(e)
    ensures NamesUse(Composition(modules, providers, Elems(current), false),
                     Without(Order(modules, providers, current, false).value, id), id, e)
  {
    var g := Composition(modules, providers, Elems(current), false);
    var rest := Without(Order(modules, providers, current, false).value, id);
    var h := Composition(modules, providers, Elems(rest), false);
    OrderIsExact(modules, providers, current, false);
    OrderIsExact(modules, providers, rest, false);
    StrictOrderLists(modules, providers, current);
    var start :| start in rest && Truthful(h, start, e);
    assert start in Elems(current);
    TruthAboutRest(g, h, current, rest, start, id, e);
  }

  /** A true error about the rest is none about all that is enabled. */
  lemma TruthAboutRest(
      g: Composition, h: Composition, current: seq<Id>, rest: seq<Id>, start: Id, id: Id, e: OrderError)
    requires Composable(g, Elems(current)) && !g.including && g.requested == Elems(current)
    requires h == g.(requested := Elems(rest)) && start in current && NoDependents(g, current, id)
    requires forall x :: x in rest <==> x in current && x != id
    requires Truthful(h, start, e)
    ensures NamesUse(g, rest, id, e)
  {
    forall x | Reaches(h, start, x) ensures InClosure(g, Elems(current), x) && x in current && Fit(g, x) {
      SameReach(g, h, start, x);
      assert start in Elems(current) && InClosure(g, Elems(current), x);
      assert x in g.requested;
    }
    ReachesSelf(h, start);
    match e {
      case Cycle(p) => SameLoop(g, h, p);
      case Unregistered(_) =>
      case MissingModule(a, x) => ReachesStep(h, start, a, x);
      case DisabledDependency(a, x) =>
        assert NeedsDirectly(h, a, x);
        ReachesStep(h, start, a, x);
        assert x == id;
        if a != id {
          DependentThrough(g, a, id, id);
        } else {
          assert NeedsDirectly(g, id, id);
          assert Loop(g, [id, id]);
        }
      case Incompatible(_, _) =>
      case NoProvider(_, _) =>
      case DisabledProvider(a, c, x) =>
        assert NeedsDirectly(h, a, x);
        ReachesStep(h, start, a, x);
    }
  }

  /** The enabled modules that depend on the one to disable; there are none unless it is enabled. */
  method EnabledDependents(modules: map<Id, Manifest>, providers: map<Capability, Id>, current: seq<Id>,
                           order: seq<Id>, id: Id)
    returns (dependents: set<Id>)
    requires Order(modules, providers, current, false) == Ok(order)
    ensures var g := Composition(modules, providers, Elems(current), false);
      && dependents == (set x | x in current && x != id && Dependent(g, x, id))
      && (dependents == {} <==> NoDependents(g, current, id))
  {
    hide Dependent, Order, NeedsFirst, Composable, InClosure, Truthful;
    ghost var g := Composition(modules, providers, Elems(current), false);
    dependents := {};
    StrictOrderLists(modules, providers, current);
    if id in current {
      assert NeedsFirst(g, order) by {
        OrderIsExact(modules, providers, current, false);
      }
      dependents := DependentsOf(Composition(modules, providers, Elems(current), false), order, id);
    } else {
      NotEnabledHasNoDependents(modules, providers, current, id);
    }
    if dependents == {} {
      forall x | x in current && x != id ensures !Dependent(g, x, id) {
        assert x in order && x !in dependents;
      }
    }
  }

  /** The list without the module, composed again. */
  method ComposeWithout(modules: map<Id, Manifest>, providers: map<Capability, Id>, current: seq<Id>, order: seq<Id>,
                        id: Id)
    returns (r: Result<seq<Id>, OrderError>)
    requires Order(modules, providers, current, false) == Ok(order)
    requires NoDependents(Composition(modules, providers, Elems(current), false), current, id)
    ensures var g := Composition(modules, providers, Elems(current), false);
      match r
      case Ok(enabled) =>
        && enabled == Without(order, id) && !CapabilityUsed(g, enabled, id)
        && Order(modules, providers, enabled, false).Ok?
      case Err(e) => CapabilityUsed(g, Without(order, id), id) && NamesUse(g, Without(order, id), id, e)
  {
    hide Order, Dependent, CapabilityUsed, NamesUse, Without;
    var enabled := Without(order, id);
    DisabledListComposesExactly(modules, providers, current, id);
    var rest := ModuleOrder(modules, providers, enabled, false);
    if rest.Err? {
      RestErrorNamesUse(modules, providers, current, id, rest.error);
      return Err(rest.error);
    }
    return Ok(enabled);
  }

  /** Refuses when an enabled module depends on the one to disable, or uses a capability of it;
      otherwise gives the list that is written. */
  method DisableModule(modules: map<Id, Manifest>, providers: map<Capability, Id>, current: seq<Id>, id: Id)
    returns (r: Result<seq<Id>, DisableError>)
    ensures var g := Composition(modules, providers, Elems(current), false);
      var order := Order(modules, providers, current, false);
      && (r.Ok? <==> id !in PROTECTED && id in modules && order.Ok?
                     && NoDependents(g, current, id) && !CapabilityUsed(g, Without(order.value, id), id))
      && match r
         case Err(Protected) => id in PROTECTED
         case Err(NotRegistered) => id !in PROTECTED && id !in modules
         case Err(OrderFailed(e)) => order == Err(e)
         case Err(RequiredBy(ds)) => ds == (set x | x in current && x != id && Dependent(g, x, id)) && ds != {}
         case Err(RestNotComposable(e)) => order.Ok? && NamesUse(g, Without(order.value, id), id, e)
         case Ok(enabled) => order.Ok? && enabled == Without(order.value, id)
                             && Order(modules, providers, enabled, false).Ok?
  {
    hide Order, Dependent, NoDependents, CapabilityUsed, NamesUse, Without, Composable;
    if id in PROTECTED {
      return Err(Protected);
    }
    if id !in modules {
      return Err(NotRegistered);
    }
    var order := ModuleOrder(modules, providers, current, false);
    if order.Err? {
      return Err(OrderFailed(order.error));
    }
    var dependents := EnabledDependents(modules, providers, current, order.value, id);
    if dependents != {} {
      return Err(RequiredBy(dependents));
    }
    var rest := ComposeWithout(modules, providers, current, order.value, id);
    return match rest case Ok(enabled) => Ok(enabled) case Err(e) => Err(RestNotComposable(e));
  }

  /* A capability still in use. */

  function Providing(id: Id, c: Capability): Manifest {
    Plain(id).(provided := [c])
  }

  function Requiring(id: Id, c: Capability): Manifest {
    Plain(id).(requirements := [Requirement(c, false)])
  }

  lemma SettledPair(g: Composition, p: Id, u: Id, c: Capability)
    requires p != u && g.modules == map[p := Providing(p, c), u := Requiring(u, c)] && g.providers == map[c := p]
    requires !g.including && g.requested == {u, p}
    ensures Settled(g, [p, u])
  {
    assert g.modules[p].requirements == [] && g.modules[u].dependencies == [];
    forall i, n | 0 <= i < 2 && NeedsDirectly(g, [p, u][i], n) ensures n in [p, u][..i] {
      assert i == 1 && n == p && [p, u][..1] == [p];
    }
  }

  lemma NobodyDepends(g: Composition, current: seq<Id>, id: Id)
    requires forall x :: x in g.modules ==> g.modules[x].dependencies == []
    ensures NoDependents(g, current, id)
  {
    forall x | x in current && x != id ensures !Dependent(g, x, id) {
      if Dependent(g, x, id) {
        var d := DependentFirstStep(g, x, id);
      }
    }
  }

  /** Nothing depends on p, but u requires the capability that p provides: p passes the check on
      dependents, and without it the list does not compose. */
  lemma UsedCapabilityIsRefused(p: Id, u: Id, c: Capability)
    requires p != u
    ensures var modules, providers := map[p := Providing(p, c), u := Requiring(u, c)], map[c := p];
      var g := Composition(modules, providers, Elems([u, p]), false);
      var order := Order(modules, providers, [u, p], false);
      && order.Ok? && NoDependents(g, [u, p], p)
      && CapabilityUsed(g, Without(order.value, p), p)
      && Order(modules, providers, Without(order.value, p), false).Err?
  {
    var modules, providers := map[p := Providing(p, c), u := Requiring(u, c)], map[c := p];
    var g := Composition(modules, providers, Elems([u, p]), false);
    hide Settled, Composable, Order, CapabilityUsed, Dependent;
    assert Elems([u, p]) == {u, p} == Elems([p, u]);
    SettledPair(g, p, u, c);
    SettledIsComposable(g, [p, u], {u, p});
    OrderIsExact(modules, providers, [u, p], false);
    StrictOrderLists(modules, providers, [u, p]);
    NobodyDepends(g, [u, p], p);
    var rest := Without(Order(modules, providers, [u, p], false).value, p);
    assert u in rest && Requirement(c, false) in modules[u].requirements;
    assert Demands(modules[u], c);
    IsUsed(g, rest, u, c, p);
    DisabledListComposesExactly(modules, providers, [u, p], p);
  }

  lemma IsUsed(g: Composition, list: seq<Id>, x: Id, c: Capability, id: Id)
    requires x in list && x in g.modules && Demands(g.modules[x], c) && c in g.providers && g.providers[c] == id
    ensures CapabilityUsed(g, list, id)
  {
  }
}
