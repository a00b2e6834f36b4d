/** The order in which enabled modules are composed: a depth-first walk over
    dependencies and required capabilities, dependencies first. */
module Ordering {
  import opened Basics
  import opened Versions
  import opened Manifests

  /** What one ordering run reads: the registered modules, the provider of each
      capability, the requested ids, and whether needs outside them are pulled in. */
  datatype Composition = Composition(
    modules: map<Id, Manifest>,
    providers: map<Capability, Id>,
    requested: set<Id>,
    including: bool)

  datatype OrderError =
    | Cycle(path: seq<Id>)
    | Unregistered(id: Id)
    | MissingModule(consumer: Id, id: Id)
    | DisabledDependency(consumer: Id, id: Id)
    | Incompatible(consumer: Id, id: Id)
    | NoProvider(consumer: Id, capability: Capability)
    | DisabledProvider(consumer: Id, capability: Capability, id: Id)

  /* The walk. */

  datatype Edge = OnModule(id: Id) | OnCapability(requirement: Requirement)

  function DependencyIds(m: Manifest): seq<Id> {
    Map((d: Dependency) => d.id, m.dependencies)
  }

  function SortedIds(ids: seq<Id>): seq<Id> {
    SortByKey((id: Id) => id, ids)
  }

  function SortedRequirements(m: Manifest): seq<Requirement> {
    SortByKey((r: Requirement) => r.id, m.requirements)
  }

  function ModuleEdges(ids: seq<Id>): seq<Edge> {
    Map((id: Id) => OnModule(id), ids)
  }

  function CapabilityEdges(rs: seq<Requirement>): seq<Edge> {
    Map((r: Requirement) => OnCapability(r), rs)
  }

  /** The edges of a module in the order they are followed. */
  function Edges(m: Manifest): seq<Edge> {
    ModuleEdges(SortedIds(DependencyIds(m))) + CapabilityEdges(SortedRequirements(m))
  }

  /** The first range a manifest declares for a dependency. */
  function RangeFor(ds: seq<Dependency>, id: Id): Range
    requires exists d :: d in ds && d.id == id
  {
    if ds[0].id == id then ds[0].range else RangeFor(ds[1..], id)
  }

  predicate DependsOn(m: Manifest, id: Id) {
    exists d :: d in m.dependencies && d.id == id
  }

  predicate RangeMet(g: Composition, m: Manifest, id: Id)
    requires DependsOn(m, id)
  {
    id in g.modules ==> Satisfies(g.modules[id].version, RangeFor(m.dependencies, id))
  }

  /** Checks one edge of a module: an error, nothing to visit, or the module to visit next. */
  function Follow(g: Composition, id: Id, e: Edge): Result<Option<Id>, OrderError>
    requires id in g.modules
    requires e in Edges(g.modules[id])
  {
    match e
    case OnModule(d) =>
      EdgeIsDependency(g.modules[id], d);
      if !g.including && d !in g.requested then Err(DisabledDependency(id, d))
      else if !RangeMet(g, g.modules[id], d) then Err(Incompatible(id, d))
      else Ok(Some(d))
    case OnCapability(r) =>
      if r.optional then Ok(None)
      else if r.id !in g.providers then Err(NoProvider(id, r.id))
      else if g.providers[r.id] == id then Ok(None)
      else if !g.including && g.providers[r.id] !in g.requested then
        Err(DisabledProvider(id, r.id, g.providers[r.id]))
      else Ok(Some(g.providers[r.id]))
  }

  /** Visits one module; `visiting` is the path to it and `ordered` what is already placed. */
  function VisitFrom(g: Composition, visiting: seq<Id>, ordered: seq<Id>, id: Id, consumer: Option<Id>)
    : Result<seq<Id>, OrderError>
    decreases g.modules.Keys - Elems(visiting), 0
  {
    if id in ordered then Ok(ordered)
    else if id in visiting then Err(Cycle(visiting[IndexOf(visiting, id)..] + [id]))
    else if id !in g.modules then
      Err(match consumer case Some(b) => MissingModule(b, id) case None => Unregistered(id))
    else
      ElemsOfSum(visiting, [id]);
      assert id in g.modules.Keys - Elems(visiting) && id !in g.modules.Keys - Elems(visiting + [id]);
      match VisitEdges(g, visiting + [id], ordered, id, Edges(g.modules[id]))
      case Ok(o) => Ok(o + [id])
      case Err(e) => Err(e)
  }

  function VisitEdges(g: Composition, visiting: seq<Id>, ordered: seq<Id>, id: Id, edges: seq<Edge>)
    : Result<seq<Id>, OrderError>
    requires id in g.modules
    requires forall e :: e in edges ==> e in Edges(g.modules[id])
    decreases g.modules.Keys - Elems(visiting), |edges|
  {
    if edges == [] then Ok(ordered)
    else
      match Follow(g, id, edges[0])
      case Err(e) => Err(e)
      case Ok(None) => VisitEdges(g, visiting, ordered, id, edges[1..])
      case Ok(Some(next)) =>
        match VisitFrom(g, visiting, ordered, next, Some(id))
        case Err(e) => Err(e)
        case Ok(o) => VisitEdges(g, visiting, o, id, edges[1..])
  }

  function VisitRoots(g: Composition, ordered: seq<Id>, roots: seq<Id>): Result<seq<Id>, OrderError>
    decreases |roots|
  {
    if roots == [] then Ok(ordered)
    else
      match VisitFrom(g, [], ordered, roots[0], None)
      case Err(e) => Err(e)
      case Ok(o) => VisitRoots(g, o, roots[1..])
  }

  /** The composition order of the requested roots. */
  function Order(modules: map<Id, Manifest>, providers: map<Capability, Id>, roots: seq<Id>, including: bool)
    : Result<seq<Id>, OrderError>
  {
    VisitRoots(Composition(modules, providers, Elems(roots), including), [], SortedIds(Unique(roots)))
  }

  lemma EdgeIsDependency(m: Manifest, d: Id)
    requires OnModule(d) in Edges(m)
    ensures DependsOn(m, d)
  {
    var ids := SortedIds(DependencyIds(m));
    var i :| 0 <= i < |Edges(m)| && Edges(m)[i] == OnModule(d);
    assert i < |ids|;
    assert ids[i] == d;
    SortKeepsElements((id: Id) => id, DependencyIds(m));
    assert d in Elems(ids);
    assert d in DependencyIds(m);
    var k :| 0 <= k < |DependencyIds(m)| && DependencyIds(m)[k] == d;
    assert m.dependencies[k] in m.dependencies;
  }
}
