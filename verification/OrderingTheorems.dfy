/** What the composition order guarantees, against a description of the module
    graph that does not mention the walk. */
module OrderingTheorems {
  import opened Basics
  import opened Manifests
  import opened Ordering

  /* The module graph. */

  predicate Demands(m: Manifest, c: Capability) {
    exists r :: r in m.requirements && r.id == c && !r.optional
  }

  /** a needs b: a dependency, or the provider of a required capability other than a itself. */
  ghost predicate NeedsDirectly(g: Composition, a: Id, b: Id) {
    && a in g.modules
    && (|| DependsOn(g.modules[a], b)
        || (b != a && exists c :: Demands(g.modules[a], c) && c in g.providers && g.providers[c] == b))
  }

  ghost predicate Chain(g: Composition, p: seq<Id>) {
    forall i :: 0 <= i < |p| - 1 ==> NeedsDirectly(g, p[i], p[i + 1])
  }

  ghost predicate Route(g: Composition, a: Id, b: Id, p: seq<Id>) {
    |p| >= 1 && p[0] == a && p[|p| - 1] == b && Chain(g, p)
  }

  ghost predicate Reaches(g: Composition, a: Id, b: Id) {
    exists p :: Route(g, a, b, p)
  }

  /** b is a root or needed, directly or not, by one. */
  ghost predicate InClosure(g: Composition, roots: set<Id>, b: Id) {
    exists a :: a in roots && Reaches(g, a, b)
  }

  ghost predicate Loop(g: Composition, p: seq<Id>) {
    |p| >= 2 && p[0] == p[|p| - 1] && Chain(g, p)
  }

  /** A registered module whose ranges are met and whose required capabilities are provided. */
  ghost predicate Fit(g: Composition, a: Id) {
    && a in g.modules
    && (forall d :: DependsOn(g.modules[a], d) ==> RangeMet(g, g.modules[a], d))
    && (forall c :: Demands(g.modules[a], c) ==> c in g.providers)
  }

  /** Everything the roots need is fit, free of cycles and, when needs are not pulled
      in, among the roots. */
  ghost predicate Composable(g: Composition, roots: set<Id>) {
    && (forall b :: InClosure(g, roots, b) ==> Fit(g, b))
    && (forall p :: Loop(g, p) ==> !InClosure(g, roots, p[0]))
    && (!g.including ==> forall b :: InClosure(g, roots, b) ==> b in g.requested)
  }

  /** Each module once, after all it needs. */
  ghost predicate NeedsFirst(g: Composition, order: seq<Id>) {
    && Distinct(order)
    && (forall i, n :: 0 <= i < |order| && NeedsDirectly(g, order[i], n) ==> n in order[..i])
  }

  ghost predicate Within(g: Composition, a: Id) {
    !g.including ==> forall n :: NeedsDirectly(g, a, n) ==> n in g.requested
  }

  /** NeedsFirst, and every member passed its checks. */
  ghost predicate Settled(g: Composition, order: seq<Id>) {
    && NeedsFirst(g, order)
    && (forall i :: 0 <= i < |order| ==> Fit(g, order[i]) && Within(g, order[i]))
  }

  /** An error tells the truth about something the starting module reaches. */
  ghost predicate Truthful(g: Composition, start: Id, e: OrderError) {
    match e
    case Cycle(p) => Loop(g, p) && Reaches(g, start, p[0])
    case Unregistered(id) => id == start && id !in g.modules
    case MissingModule(a, id) => Reaches(g, start, a) && NeedsDirectly(g, a, id) && id !in g.modules
    case DisabledDependency(a, id) =>
      !g.including && Reaches(g, start, a) && a in g.modules && DependsOn(g.modules[a], id) && id !in g.requested
    case Incompatible(a, id) =>
      Reaches(g, start, a) && a in g.modules && DependsOn(g.modules[a], id) && !RangeMet(g, g.modules[a], id)
    case NoProvider(a, c) =>
      Reaches(g, start, a) && a in g.modules && Demands(g.modules[a], c) && c !in g.providers
    case DisabledProvider(a, c, id) =>
      && !g.including && Reaches(g, start, a) && id !in g.requested
      && a in g.modules && Demands(g.modules[a], c) && c in g.providers && g.providers[c] == id != a
  }

  /* Reachability. */

  lemma ReachesSelf(g: Composition, a: Id)
    ensures Reaches(g, a, a)
  {
    assert Route(g, a, a, [a]);
  }

  lemma ReachesStep(g: Composition, a: Id, b: Id, c: Id)
    requires Reaches(g, a, b) && NeedsDirectly(g, b, c)
    ensures Reaches(g, a, c)
  {
    var p :| Route(g, a, b, p);
    var q := p + [c];
    forall i | 0 <= i < |q| - 1 ensures NeedsDirectly(g, q[i], q[i + 1]) {
      if i < |p| - 1 {
        assert NeedsDirectly(g, p[i], p[i + 1]);
      }
    }
    assert Route(g, a, c, q);
  }

  lemma ReachesTransitive(g: Composition, a: Id, b: Id, c: Id)
    requires Reaches(g, a, b) && Reaches(g, b, c)
    ensures Reaches(g, a, c)
  {
    var p :| Route(g, a, b, p);
    var q :| Route(g, b, c, q);
    var r := p + q[1..];
    forall i | 0 <= i < |r| - 1 ensures NeedsDirectly(g, r[i], r[i + 1]) {
      if i < |p| - 1 {
        assert NeedsDirectly(g, p[i], p[i + 1]);
      } else {
        var k := i - |p| + 1;
        assert r[i] == q[k] && r[i + 1] == q[k + 1];
        assert NeedsDirectly(g, q[k], q[k + 1]);
      }
    }
    assert Route(g, a, c, r);
  }

  lemma ChainReaches(g: Composition, p: seq<Id>, i: nat, j: nat)
    requires Chain(g, p) && i <= j < |p|
    ensures Reaches(g, p[i], p[j])
  {
    var q := p[i..j + 1];
    forall k | 0 <= k < |q| - 1 ensures NeedsDirectly(g, q[k], q[k + 1]) {
      assert NeedsDirectly(g, p[i + k], p[i + k + 1]);
    }
    assert Route(g, p[i], p[j], q);
  }

  /** Nothing leaves a set that holds all its members' needs. */
  lemma {:induction false} ClosedUnderNeeds(g: Composition, s: set<Id>, a: Id, b: Id, p: seq<Id>)
    requires forall x, n :: x in s && NeedsDirectly(g, x, n) ==> n in s
    requires a in s && Route(g, a, b, p)
    ensures b in s
    decreases |p|
  {
    if |p| > 1 {
      assert NeedsDirectly(g, p[0], p[1]);
      forall i | 0 <= i < |p[1..]| - 1 ensures NeedsDirectly(g, p[1..][i], p[1..][i + 1]) {
        assert NeedsDirectly(g, p[i + 1], p[i + 2]);
      }
      ClosedUnderNeeds(g, s, p[1], b, p[1..]);
    }
  }

  /* One edge. */

  lemma DemandIsEdge(m: Manifest, r: Requirement)
    requires r in m.requirements
    ensures OnCapability(r) in Edges(m)
  {
    SortKeepsElements((q: Requirement) => q.id, m.requirements);
    assert r in Elems(SortedRequirements(m));
    var i :| 0 <= i < |SortedRequirements(m)| && SortedRequirements(m)[i] == r;
    assert CapabilityEdges(SortedRequirements(m))[i] == OnCapability(r);
    assert OnCapability(r) in CapabilityEdges(SortedRequirements(m));
  }

  lemma EdgeIsDemand(m: Manifest, r: Requirement)
    requires OnCapability(r) in Edges(m)
    ensures r in m.requirements
  {
    hide SortByKey, SortedIds, DependencyIds;
    var ids, rs := SortedIds(DependencyIds(m)), SortedRequirements(m);
    var i :| 0 <= i < |Edges(m)| && Edges(m)[i] == OnCapability(r);
    assert i >= |ids|;
    assert rs[i - |ids|] == r;
    SortKeepsElements((q: Requirement) => q.id, m.requirements);
    assert r in Elems(rs);
  }

  lemma DependencyIsEdge(m: Manifest, d: Id)
    requires DependsOn(m, d)
    ensures OnModule(d) in Edges(m)
  {
    var x :| x in m.dependencies && x.id == d;
    var k :| 0 <= k < |m.dependencies| && m.dependencies[k] == x;
    var raw := DependencyIds(m);
    assert raw[k] == d;
    SortKeepsElements((id: Id) => id, raw);
    assert d in Elems(SortedIds(raw));
    var i :| 0 <= i < |SortedIds(raw)| && SortedIds(raw)[i] == d;
    assert ModuleEdges(SortedIds(raw))[i] == OnModule(d);
    assert OnModule(d) in ModuleEdges(SortedIds(raw));
  }

  /** An edge that leads somewhere leads to a need. */
  lemma FollowLeadsToNeed(g: Composition, a: Id, e: Edge)
    requires a in g.modules && e in Edges(g.modules[a])
    requires Follow(g, a, e).Ok? && Follow(g, a, e).value.Some?
    ensures NeedsDirectly(g, a, Follow(g, a, e).value.value)
  {
    match e {
      case OnModule(d) => EdgeIsDependency(g.modules[a], d);
      case OnCapability(r) =>
        EdgeIsDemand(g.modules[a], r);
        assert Demands(g.modules[a], r.id);
    }
  }

  lemma FollowErrorIsTruthful(g: Composition, start: Id, a: Id, e: Edge)
    requires a in g.modules && e in Edges(g.modules[a]) && Reaches(g, start, a)
    requires Follow(g, a, e).Err?
    ensures Truthful(g, start, Follow(g, a, e).error)
  {
    match e {
      case OnModule(d) => EdgeIsDependency(g.modules[a], d);
      case OnCapability(r) =>
        EdgeIsDemand(g.modules[a], r);
        assert Demands(g.modules[a], r.id);
    }
  }

  /** Every edge of the module followed without an error, into what is already placed. */
  ghost predicate Followed(g: Composition, a: Id, edges: seq<Edge>, placed: seq<Id>)
    requires a in g.modules
    requires forall e :: e in edges ==> e in Edges(g.modules[a])
  {
    forall e :: e in edges ==>
      Follow(g, a, e).Ok? && (Follow(g, a, e).value.Some? ==> Follow(g, a, e).value.value in placed)
  }

  lemma FollowedIsFit(g: Composition, a: Id, placed: seq<Id>)
    requires a in g.modules && Followed(g, a, Edges(g.modules[a]), placed)
    ensures Fit(g, a) && Within(g, a)
    ensures forall n :: NeedsDirectly(g, a, n) ==> n in placed
  {
    var m := g.modules[a];
    forall d | DependsOn(m, d)
      ensures RangeMet(g, m, d) && d in placed && (!g.including ==> d in g.requested)
    {
      DependencyIsEdge(m, d);
      assert Follow(g, a, OnModule(d)).Ok?;
    }
    forall c | Demands(m, c)
      ensures c in g.providers
      ensures g.providers[c] != a ==> g.providers[c] in placed && (!g.including ==> g.providers[c] in g.requested)
    {
      var r :| r in m.requirements && r.id == c && !r.optional;
      DemandIsEdge(m, r);
      assert Follow(g, a, OnCapability(r)).Ok?;
    }
  }

  /* The walk. */

  /** What holds when a walk with this path stands before a module. */
  ghost predicate Standing(g: Composition, start: Id, visiting: seq<Id>, ordered: seq<Id>) {
    && Settled(g, ordered)
    && Chain(g, visiting)
    && (visiting != [] ==> visiting[0] == start)
    && (forall x :: x in visiting ==> x !in ordered)
  }

  /** A finished part of the walk placed only what its start reaches, before nothing it needs. */
  ghost predicate Placed(g: Composition, visiting: seq<Id>, before: seq<Id>, id: Id, after: seq<Id>) {
    && Settled(g, after)
    && before <= after
    && (forall x :: x in after ==> x in before || Reaches(g, id, x))
    && (forall x :: x in visiting ==> x !in after)
  }

  lemma SettledWith(g: Composition, order: seq<Id>, id: Id)
    requires Settled(g, order) && id !in order && Fit(g, id) && Within(g, id)
    requires forall n :: NeedsDirectly(g, id, n) ==> n in order
    ensures Settled(g, order + [id])
  {
    var longer := order + [id];
    forall i, n | 0 <= i < |longer| && NeedsDirectly(g, longer[i], n) ensures n in longer[..i] {
      if i < |order| {
        assert longer[..i] == order[..i];
        assert NeedsDirectly(g, order[i], n);
      } else {
        assert longer[..i] == order;
      }
    }
  }

  lemma PlacedTwice(g: Composition, visiting: seq<Id>, a: seq<Id>, mid: Id, b: seq<Id>, id: Id, c: seq<Id>)
    requires Placed(g, visiting, a, mid, b) && Placed(g, visiting, b, id, c) && Reaches(g, id, mid)
    ensures Placed(g, visiting, a, id, c)
  {
    forall x | x in c ensures x in a || Reaches(g, id, x) {
      if x in b && x !in a {
        ReachesTransitive(g, id, mid, x);
      }
    }
  }

  lemma CycleIsTruthful(g: Composition, start: Id, visiting: seq<Id>, id: Id)
    requires Chain(g, visiting) && id in visiting && visiting[0] == start
    requires NeedsDirectly(g, visiting[|visiting| - 1], id)
    ensures Truthful(g, start, Cycle(visiting[IndexOf(visiting, id)..] + [id]))
  {
    var k := IndexOf(visiting, id);
    var p := visiting[k..] + [id];
    forall i | 0 <= i < |p| - 1 ensures NeedsDirectly(g, p[i], p[i + 1]) {
      if i < |p| - 2 {
        assert NeedsDirectly(g, visiting[k + i], visiting[k + i + 1]);
      }
    }
    ChainReaches(g, visiting, 0, k);
  }

  lemma {:induction false} VisitWalks(
      g: Composition, start: Id, visiting: seq<Id>, ordered: seq<Id>, id: Id, consumer: Option<Id>)
    requires Standing(g, start, visiting, ordered)
    requires visiting == [] ==> id == start && consumer == None
    requires visiting != [] ==> consumer == Some(visiting[|visiting| - 1])
                                && NeedsDirectly(g, visiting[|visiting| - 1], id)
    ensures match VisitFrom(g, visiting, ordered, id, consumer)
            case Ok(o) => Placed(g, visiting, ordered, id, o) && id in o
            case Err(e) => Truthful(g, start, e)
    decreases g.modules.Keys - Elems(visiting), 0
  {
    if visiting != [] {
      ChainReaches(g, visiting, 0, |visiting| - 1);
    }
    if id in ordered {
    } else if id in visiting {
      CycleIsTruthful(g, start, visiting, id);
    } else if id !in g.modules {
    } else {
      ElemsOfSum(visiting, [id]);
      var path := visiting + [id];
      forall i | 0 <= i < |path| - 1 ensures NeedsDirectly(g, path[i], path[i + 1]) {
        if i < |visiting| - 1 {
          assert NeedsDirectly(g, visiting[i], visiting[i + 1]);
        }
      }
      assert id in g.modules.Keys - Elems(visiting) && id !in g.modules.Keys - Elems(path);
      EdgesWalk(g, start, path, ordered, id, Edges(g.modules[id]));
      var r := VisitEdges(g, path, ordered, id, Edges(g.modules[id]));
      if r.Ok? {
        FollowedIsFit(g, id, r.value);
        assert id in path;
        SettledWith(g, r.value, id);
        ReachesSelf(g, id);
        forall x | x in visiting ensures x !in r.value + [id] {
          assert x in path;
        }
      }
    }
  }

  lemma {:induction false} EdgesWalk(
      g: Composition, start: Id, visiting: seq<Id>, ordered: seq<Id>, id: Id, edges: seq<Edge>)
    requires Standing(g, start, visiting, ordered)
    requires visiting != [] && visiting[|visiting| - 1] == id && id in g.modules
    requires forall e :: e in edges ==> e in Edges(g.modules[id])
    ensures match VisitEdges(g, visiting, ordered, id, edges)
            case Ok(o) => Placed(g, visiting, ordered, id, o) && Followed(g, id, edges, o)
            case Err(e) => Truthful(g, start, e)
    decreases g.modules.Keys - Elems(visiting), |edges|
  {
    if edges != [] {
      var step := Follow(g, id, edges[0]);
      ChainReaches(g, visiting, 0, |visiting| - 1);
      if step.Err? {
        FollowErrorIsTruthful(g, start, id, edges[0]);
      } else if step.value.None? {
        EdgesWalk(g, start, visiting, ordered, id, edges[1..]);
        assert edges == [edges[0]] + edges[1..];
      } else {
        var next := step.value.value;
        FollowLeadsToNeed(g, id, edges[0]);
        VisitWalks(g, start, visiting, ordered, next, Some(id));
        var r := VisitFrom(g, visiting, ordered, next, Some(id));
        if r.Ok? {
          EdgesWalk(g, start, visiting, r.value, id, edges[1..]);
          ReachesSelf(g, id);
          ReachesStep(g, id, id, next);
          var last := VisitEdges(g, visiting, r.value, id, edges[1..]);
          if last.Ok? {
            PlacedTwice(g, visiting, ordered, next, r.value, id, last.value);
            assert next in last.value;
            assert edges == [edges[0]] + edges[1..];
          }
        }
      }
    }
  }

  lemma {:induction false} RootsWalk(g: Composition, ordered: seq<Id>, roots: seq<Id>)
    requires Settled(g, ordered)
    ensures match VisitRoots(g, ordered, roots)
            case Ok(o) =>
              && Settled(g, o)
              && ordered <= o
              && Elems(roots) <= Elems(o)
              && (forall x :: x in o ==> x in ordered || InClosure(g, Elems(roots), x))
            case Err(e) => exists start :: start in roots && Truthful(g, start, e)
    decreases |roots|
  {
    if roots != [] {
      var root := roots[0];
      VisitWalks(g, root, [], ordered, root, None);
      var r := VisitFrom(g, [], ordered, root, None);
      assert root in roots && root in Elems(roots);
      if r.Ok? {
        RootsWalk(g, r.value, roots[1..]);
        var last := VisitRoots(g, r.value, roots[1..]);
        assert roots == [root] + roots[1..];
        ElemsOfSum([root], roots[1..]);
        if last.Ok? {
          forall x | x in last.value ensures x in ordered || InClosure(g, Elems(roots), x) {
            if x !in r.value {
              var a :| a in Elems(roots[1..]) && Reaches(g, a, x);
              assert a in Elems(roots);
            }
          }
        }
      }
    }
  }

  /* Main results. */

  lemma SettledIsClosed(g: Composition, order: seq<Id>, roots: set<Id>, b: Id)
    requires Settled(g, order) && roots <= Elems(order) && InClosure(g, roots, b)
    ensures b in order
  {
    var a :| a in roots && Reaches(g, a, b);
    var p :| Route(g, a, b, p);
    forall x, n | x in Elems(order) && NeedsDirectly(g, x, n) ensures n in Elems(order) {
      var i :| 0 <= i < |order| && order[i] == x;
      assert NeedsDirectly(g, order[i], n);
    }
    ClosedUnderNeeds(g, Elems(order), a, b, p);
  }

  lemma {:induction false} ChainGoesDown(g: Composition, order: seq<Id>, p: seq<Id>, i: nat, j: nat)
    requires NeedsFirst(g, order) && |p| >= 2 && Chain(g, p)
    requires i < |order| && order[i] == p[0] && j < |order| && order[j] == p[|p| - 1]
    ensures j < i
    decreases |p|
  {
    assert NeedsDirectly(g, p[0], p[1]);
    assert p[1] in order[..i];
    var k :| 0 <= k < i && order[k] == p[1];
    if |p| > 2 {
      forall l | 0 <= l < |p[1..]| - 1 ensures NeedsDirectly(g, p[1..][l], p[1..][l + 1]) {
        assert NeedsDirectly(g, p[l + 1], p[l + 2]);
      }
      ChainGoesDown(g, order, p[1..], k, j);
    }
  }

  lemma SettledIsComposable(g: Composition, order: seq<Id>, roots: set<Id>)
    requires Settled(g, order) && roots <= Elems(order)
    requires roots <= g.requested
    ensures Composable(g, roots)
  {
    forall b | InClosure(g, roots, b) ensures Fit(g, b) && (!g.including ==> b in g.requested) {
      SettledIsClosed(g, order, roots, b);
      var a :| a in roots && Reaches(g, a, b);
      var p :| Route(g, a, b, p);
      if |p| > 1 {
        var c := p[|p| - 2];
        ChainReaches(g, p, 0, |p| - 2);
        assert InClosure(g, roots, c);
        SettledIsClosed(g, order, roots, c);
        assert NeedsDirectly(g, p[|p| - 2], p[|p| - 2 + 1]);
      }
    }
    forall p | Loop(g, p) ensures !InClosure(g, roots, p[0]) {
      if InClosure(g, roots, p[0]) {
        SettledIsClosed(g, order, roots, p[0]);
        var i :| 0 <= i < |order| && order[i] == p[0];
        ChainGoesDown(g, order, p, i, i);
      }
    }
  }

  lemma TruthfulIsNotComposable(g: Composition, start: Id, roots: set<Id>, e: OrderError)
    requires start in roots && Truthful(g, start, e)
    ensures !Composable(g, roots)
  {
    ReachesSelf(g, start);
    match e {
      case Cycle(p) => assert InClosure(g, roots, p[0]);
      case Unregistered(id) => assert InClosure(g, roots, id);
      case MissingModule(a, id) =>
        ReachesStep(g, start, a, id);
        assert InClosure(g, roots, id);
      case DisabledDependency(a, id) =>
        ReachesStep(g, start, a, id);
        assert InClosure(g, roots, id);
      case Incompatible(a, id) => assert InClosure(g, roots, a);
      case NoProvider(a, c) => assert InClosure(g, roots, a);
      case DisabledProvider(a, c, id) =>
        ReachesStep(g, start, a, id);
        assert InClosure(g, roots, id);
    }
  }

  /** The order exists exactly when the closure of the roots is composable; it then lists
      that closure, each module once and after all it needs, and otherwise the error
      reported is a true one about something a root reaches. */
  lemma OrderIsExact(modules: map<Id, Manifest>, providers: map<Capability, Id>, roots: seq<Id>, including: bool)
    ensures var g := Composition(modules, providers, Elems(roots), including);
      && (Order(modules, providers, roots, including).Ok? <==> Composable(g, Elems(roots)))
      && (match Order(modules, providers, roots, including)
          case Ok(o) =>
            NeedsFirst(g, o) && forall x :: x in o <==> InClosure(g, Elems(roots), x)
          case Err(e) => exists start :: start in roots && Truthful(g, start, e))
  {
    var g := Composition(modules, providers, Elems(roots), including);
    var sorted := SortedIds(Unique(roots));
    SortKeepsElements((id: Id) => id, Unique(roots));
    assert Elems(sorted) == Elems(roots);
    RootsWalk(g, [], sorted);
    match VisitRoots(g, [], sorted) {
      case Ok(o) =>
        SettledIsComposable(g, o, Elems(roots));
        forall x | InClosure(g, Elems(roots), x) ensures x in o {
          SettledIsClosed(g, o, Elems(roots), x);
        }
      case Err(e) =>
        var start :| start in sorted && Truthful(g, start, e);
        assert start in Elems(roots);
        TruthfulIsNotComposable(g, start, Elems(roots), e);
    }
  }
}
