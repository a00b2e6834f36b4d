/** The registry that checks a whole set of manifests together and orders them. */
module Registry {
  import opened Basics
  import opened Versions
  import opened Manifests
  import opened Ordering
  import opened OrderingTheorems
  import opened Composing

  datatype RegistryError =
    | NotAdmitted(id: Id)
    | Duplicate(id: Id)
    | DuplicateProvider(duplicate: DuplicateCapability)
    | NotOrdered(error: OrderError)

  function Ids(modules: seq<Manifest>): seq<Id> {
    Map((m: Manifest) => m.id, modules)
  }

  /** The graph over a set of manifests with distinct ids and one provider per capability. */
  ghost predicate GraphOf(g: Composition, modules: seq<Manifest>) {
    && g.modules.Keys == Elems(Ids(modules))
    && (forall m :: m in modules ==> m.id in g.modules && g.modules[m.id] == m)
    && (forall c, id :: Offers(modules, c, id) <==> c in g.providers && g.providers[c] == id)
    && g.requested == Elems(Ids(modules))
    && g.including
  }

  lemma GraphIsUnique(g: Composition, h: Composition, modules: seq<Manifest>)
    requires GraphOf(g, modules) && GraphOf(h, modules)
    ensures g == h
  {
    forall id | id in g.modules.Keys ensures g.modules[id] == h.modules[id] {
      assert id in Ids(modules);
      var i :| 0 <= i < |modules| && Ids(modules)[i] == id;
      assert modules[i] in modules;
    }
    assert g.modules == h.modules;
    forall c | c in g.providers ensures c in h.providers && g.providers[c] == h.providers[c] {
      assert Offers(modules, c, g.providers[c]);
    }
    forall c | c in h.providers ensures c in g.providers {
      assert Offers(modules, c, h.providers[c]);
    }
    assert g.providers == h.providers;
  }

  /** Every manifest admitted, ids distinct, one provider per capability, and everything
      the modules need among them and free of cycles. */
  ghost predicate Registrable(modules: seq<Manifest>, platform: Version) {
    && AllAdmitted(modules, platform)
    && Distinct(Ids(modules))
    && OneProviderEach(modules)
    && (exists g :: GraphOf(g, modules) && Composable(g, Elems(Ids(modules))))
  }

  predicate AllAdmitted(modules: seq<Manifest>, platform: Version) {
    forall m :: m in modules ==> PlatformAdmits(m, platform)
  }

  /** The first n manifests are admitted, have distinct ids and are the ones in the map. */
  ghost predicate Indexed(modules: seq<Manifest>, n: nat, platform: Version, byId: map<Id, Manifest>) {
    && n <= |modules|
    && AllAdmitted(modules[..n], platform)
    && (forall j, k :: 0 <= j < k < n ==> modules[j].id != modules[k].id)
    && (forall j :: 0 <= j < n ==> modules[j].id in byId && byId[modules[j].id] == modules[j])
    && (forall id :: id in byId ==> exists j :: 0 <= j < n && modules[j].id == id)
  }

  lemma IndexedStep(modules: seq<Manifest>, n: nat, platform: Version, byId: map<Id, Manifest>)
    requires n < |modules| && Indexed(modules, n, platform, byId)
    requires PlatformAdmits(modules[n], platform) && modules[n].id !in byId
    ensures Indexed(modules, n + 1, platform, byId[modules[n].id := modules[n]])
  {
  }

  lemma IndexedAll(modules: seq<Manifest>, platform: Version, byId: map<Id, Manifest>)
    requires Indexed(modules, |modules|, platform, byId)
    ensures AllAdmitted(modules, platform) && Distinct(Ids(modules))
    ensures byId.Keys == Elems(Ids(modules))
    ensures forall m :: m in modules ==> m.id in byId && byId[m.id] == m
  {
    hide PlatformAdmits;
    assert modules[..|modules|] == modules;
    var ids := Ids(modules);
    forall id | id in byId ensures id in Elems(ids) {
      var j :| 0 <= j < |modules| && modules[j].id == id;
      assert ids[j] == id;
    }
    forall id | id in Elems(ids) ensures id in byId {
      var j :| 0 <= j < |ids| && ids[j] == id;
      assert modules[j].id == id;
    }
  }

  lemma RepeatedId(modules: seq<Manifest>, n: nat, platform: Version, byId: map<Id, Manifest>)
    requires n < |modules| && Indexed(modules, n, platform, byId) && modules[n].id in byId
    ensures !Distinct(Ids(modules))
  {
    var j :| 0 <= j < n && modules[j].id == modules[n].id;
    assert Ids(modules)[j] == Ids(modules)[n];
  }

  /** The manifests by id, or the first one that is not admitted or repeats an id. */
  method IndexById(modules: seq<Manifest>, platform: Version) returns (r: Result<map<Id, Manifest>, RegistryError>)
    ensures r.Ok? <==> Distinct(Ids(modules)) && AllAdmitted(modules, platform)
    ensures r.Ok? ==>
      && r.value.Keys == Elems(Ids(modules))
      && (forall m :: m in modules ==> m.id in r.value && r.value[m.id] == m)
  {
    var byId: map<Id, Manifest> := map[];
    for i := 0 to |modules|
      invariant Indexed(modules, i, platform, byId)
    {
      var m := modules[i];
      if !PlatformAdmits(m, platform) {
        return Err(NotAdmitted(m.id));
      }
      if m.id in byId {
        RepeatedId(modules, i, platform, byId);
        return Err(Duplicate(m.id));
      }
      IndexedStep(modules, i, platform, byId);
      byId := byId[m.id := m];
    }
    IndexedAll(modules, platform, byId);
    return Ok(byId);
  }

  lemma RootIsInClosure(g: Composition, roots: set<Id>, id: Id)
    requires id in roots
    ensures InClosure(g, roots, id)
  {
    ReachesSelf(g, id);
  }

  lemma ClosureIsRegistered(g: Composition, roots: set<Id>, id: Id)
    requires Composable(g, roots) && InClosure(g, roots, id)
    ensures id in g.modules
  {
    assert Fit(g, id);
  }

  lemma OrderListsAll(g: Composition, modules: seq<Manifest>, order: seq<Id>)
    requires GraphOf(g, modules) && Composable(g, Elems(Ids(modules)))
    requires forall x :: x in order <==> InClosure(g, Elems(Ids(modules)), x)
    ensures Elems(order) == Elems(Ids(modules))
  {
    hide Composable, InClosure, Ids;
    var roots := Elems(Ids(modules));
    forall id ensures id in order <==> id in roots {
      if id in roots {
        RootIsInClosure(g, roots, id);
      }
      if id in order {
        ClosureIsRegistered(g, roots, id);
      }
    }
  }

  /** Accepts exactly the registrable sets, and lists their ids with needs first. */
  method CreateRegistry(modules: seq<Manifest>, platform: Version) returns (r: Result<seq<Id>, RegistryError>)
    ensures r.Ok? <==> Registrable(modules, platform)
    ensures r.Ok? ==>
      && Elems(r.value) == Elems(Ids(modules))
      && exists g :: GraphOf(g, modules) && NeedsFirst(g, r.value)
  {
    var byId := IndexById(modules, platform);
    if byId.Err? {
      return Err(byId.error);
    }
    var providers := CapabilityProviders(modules);
    if providers.Err? {
      return Err(DuplicateProvider(providers.error));
    }
    var ids := Ids(modules);
    ghost var g := Composition(byId.value, providers.value, Elems(ids), true);
    assert GraphOf(g, modules);
    var order := ModuleOrder(byId.value, providers.value, ids, true);
    if order.Err? {
      forall h | GraphOf(h, modules) ensures !Composable(h, Elems(ids)) {
        GraphIsUnique(g, h, modules);
      }
      return Err(NotOrdered(order.error));
    }
    OrderListsAll(g, modules, order.value);
    return Ok(order.value);
  }
}
