/** The composition walk as it runs: one object holding the path being visited,
    the ids already visited and the order so far. */
module Composing {
  import opened Basics
  import opened Manifests
  import opened Ordering
  import opened OrderingTheorems

  class Composer {
    const g: Composition
    var visiting: seq<Id>
    var visited: set<Id>
    var ordered: seq<Id>

    ghost predicate Valid()
      reads this
    {
      visited == Elems(ordered)
    }

    constructor (g: Composition)
      ensures Valid() && this.g == g && visiting == [] && ordered == []
    {
      this.g := g;
      visiting, visited, ordered := [], {}, [];
    }

    /** The rest of the walk over these edges of a module, from here on. */
    ghost function Rest(id: Id, edges: seq<Edge>): Result<seq<Id>, OrderError>
      requires id in g.modules && forall e :: e in edges ==> e in Edges(g.modules[id])
      reads this
    {
      VisitEdges(g, visiting, ordered, id, edges)
    }

    method Visit(id: Id, consumer: Option<Id>) returns (failure: Option<OrderError>)
      requires Valid()
      modifies this
      ensures Valid()
      ensures match VisitFrom(g, old(visiting), old(ordered), id, consumer)
              case Ok(o) => failure == None && ordered == o && visiting == old(visiting)
              case Err(e) => failure == Some(e)
      decreases g.modules.Keys - Elems(visiting), 0
    {
      hide Follow, RangeMet;
      if id in visited {
        return None;
      }
      if id in visiting {
        return Some(Cycle(visiting[IndexOf(visiting, id)..] + [id]));
      }
      if id !in g.modules {
        return Some(match consumer case Some(c) => MissingModule(c, id) case None => Unregistered(id));
      }
      ElemsOfSum(visiting, [id]);
      assert id in g.modules.Keys - Elems(visiting) && id !in g.modules.Keys - Elems(visiting + [id]);
      visiting := visiting + [id];
      failure := VisitNeeds(id);
      if failure == None {
        visiting := visiting[..|visiting| - 1];
        visited := visited + {id};
        ElemsOfSum(ordered, [id]);
        ordered := ordered + [id];
      }
    }

    /** Follows the dependencies of a module, then its requirements. */
    method VisitNeeds(id: Id) returns (failure: Option<OrderError>)
      requires Valid() && id in g.modules
      modifies this
      ensures Valid()
      ensures match old(Rest(id, Edges(g.modules[id])))
              case Ok(o) => failure == None && ordered == o && visiting == old(visiting)
              case Err(e) => failure == Some(e)
      decreases g.modules.Keys - Elems(visiting), 2
    {
      hide Follow, RangeMet, VisitEdges, SortedIds, SortedRequirements;
      var current := g.modules[id];
      var dependencies := SortedIds(DependencyIds(current));
      var requirements := SortedRequirements(current);
      ghost var all := Edges(current);
      var n := |dependencies|;
      ghost var path := visiting;
      for i := 0 to n
        invariant Valid() && visiting == path
        invariant old(Rest(id, all)) == Rest(id, all[i..])
      {
        failure := FollowDependency(id, dependencies[i], all[i..]);
        if failure != None {
          return;
        }
        assert all[i..][1..] == all[i + 1..];
      }
      for i := 0 to |requirements|
        invariant Valid() && visiting == path
        invariant old(Rest(id, all)) == Rest(id, all[n + i..])
      {
        failure := FollowRequirement(id, requirements[i], all[n + i..]);
        if failure != None {
          return;
        }
        assert all[n + i..][1..] == all[n + (i + 1)..];
      }
      NothingLeft(g, path, ordered, id, all[n + |requirements|..]);
      return None;
    }

    method FollowDependency(id: Id, dependency: Id, ghost edges: seq<Edge>) returns (failure: Option<OrderError>)
      requires Valid() && id in g.modules && forall e :: e in edges ==> e in Edges(g.modules[id])
      requires edges != [] && edges[0] == OnModule(dependency)
      modifies this
      ensures Valid()
      ensures failure == None ==> visiting == old(visiting) && Rest(id, edges[1..]) == old(Rest(id, edges))
      ensures failure.Some? ==> old(Rest(id, edges)) == Err(failure.value)
      decreases g.modules.Keys - Elems(visiting), 1
    {
      hide Edges, RangeMet, VisitFrom;
      var current := g.modules[id];
      assert edges[0] in edges;
      EdgeIsDependency(current, dependency);
      if !g.including && dependency !in g.requested {
        return Some(DisabledDependency(id, dependency));
      }
      if !RangeMet(g, current, dependency) {
        return Some(Incompatible(id, dependency));
      }
      failure := Visit(dependency, Some(id));
    }

    method FollowRequirement(id: Id, requirement: Requirement, ghost edges: seq<Edge>)
      returns (failure: Option<OrderError>)
      requires Valid() && id in g.modules && forall e :: e in edges ==> e in Edges(g.modules[id])
      requires edges != [] && edges[0] == OnCapability(requirement)
      modifies this
      ensures Valid()
      ensures failure == None ==> visiting == old(visiting) && Rest(id, edges[1..]) == old(Rest(id, edges))
      ensures failure.Some? ==> old(Rest(id, edges)) == Err(failure.value)
      decreases g.modules.Keys - Elems(visiting), 1
    {
      hide Edges, RangeMet, VisitFrom;
      assert edges[0] in edges;
      if requirement.optional {
        return None;
      }
      if requirement.id !in g.providers {
        return Some(NoProvider(id, requirement.id));
      }
      var provider := g.providers[requirement.id];
      if provider == id {
        return None;
      }
      if !g.including && provider !in g.requested {
        return Some(DisabledProvider(id, requirement.id, provider));
      }
      failure := Visit(provider, Some(id));
    }
  }

  lemma NothingLeft(g: Composition, path: seq<Id>, placed: seq<Id>, id: Id, edges: seq<Edge>)
    requires id in g.modules && edges == []
    ensures VisitEdges(g, path, placed, id, edges) == Ok(placed)
  {
  }

  /** Composes the requested roots, or says why they cannot be. */
  method ModuleOrder(
      modules: map<Id, Manifest>, providers: map<Capability, Id>, roots: seq<Id>, including: bool)
    returns (r: Result<seq<Id>, OrderError>)
    ensures r == Order(modules, providers, roots, including)
    ensures var g := Composition(modules, providers, Elems(roots), including);
      && (r.Ok? <==> Composable(g, Elems(roots)))
      && (r.Ok? ==> NeedsFirst(g, r.value) && forall x :: x in r.value <==> InClosure(g, Elems(roots), x))
      && (r.Err? ==> exists start :: start in roots && Truthful(g, start, r.error))
  {
    OrderIsExact(modules, providers, roots, including);
    var g := Composition(modules, providers, Elems(roots), including);
    var composer := new Composer(g);
    var sorted := SortedIds(Unique(roots));
    for i := 0 to |sorted|
      invariant composer.Valid() && composer.visiting == [] && composer.g == g
      invariant VisitRoots(g, [], sorted) == VisitRoots(g, composer.ordered, sorted[i..])
    {
      assert sorted[i..][0] == sorted[i] && sorted[i..][1..] == sorted[i + 1..];
      var failure := composer.Visit(sorted[i], None);
      if failure != None {
        return Err(failure.value);
      }
    }
    return Ok(composer.ordered);
  }
}
