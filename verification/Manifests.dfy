/** Module manifests, catalog releases and the capability index over a set of modules. */
module Manifests {
  import opened Basics
  import opened Versions

  type Id = string
  type Capability = string

  datatype Dependency = Dependency(id: Id, range: Range)

  datatype Requirement = Requirement(id: Capability, optional: bool)

  datatype Manifest = Manifest(
    id: Id,
    version: Version,
    platformApi: Range,
    dependencies: seq<Dependency>,
    provided: seq<Capability>,
    requirements: seq<Requirement>)

  datatype Release = Release(manifest: Manifest, sha256: string)

  /** The compatibility gate a manifest passes before it is offered or installed. */
  predicate PlatformAdmits(m: Manifest, platform: Version) {
    && Satisfies(platform, m.platformApi)
    && !ReachesOlderLine(m.platformApi, platform)
    && Distinct(Map((d: Dependency) => d.id, m.dependencies))
  }

  predicate Provides(m: Manifest, c: Capability) {
    c in m.provided
  }

  datatype DuplicateCapability = DuplicateCapability(capability: Capability, first: Id, second: Id)

  /** Some module before position i, or the module at i within its first k capabilities,
      has the id and provides the capability. */
  ghost predicate Registered(modules: seq<Manifest>, i: nat, k: nat, c: Capability, id: Id) {
    exists j, l :: 0 <= j <= i && j < |modules| && 0 <= l < |modules[j].provided| && (j < i || l < k)
                   && modules[j].provided[l] == c && modules[j].id == id
  }

  ghost predicate Offers(modules: seq<Manifest>, c: Capability, id: Id) {
    exists m :: m in modules && m.id == id && Provides(m, c)
  }

  lemma RegisteredStep(modules: seq<Manifest>, i: nat, k: nat, c: Capability, id: Id)
    requires i < |modules| && k < |modules[i].provided|
    ensures Registered(modules, i, k + 1, c, id)
       <==> Registered(modules, i, k, c, id) || (c == modules[i].provided[k] && id == modules[i].id)
  {
  }

  lemma RegisteredNext(modules: seq<Manifest>, i: nat, c: Capability, id: Id)
    requires i < |modules|
    ensures Registered(modules, i + 1, 0, c, id) <==> Registered(modules, i, |modules[i].provided|, c, id)
  {
  }

  lemma RegisteredAll(modules: seq<Manifest>, c: Capability, id: Id)
    ensures Registered(modules, |modules|, 0, c, id) <==> Offers(modules, c, id)
  {
    if Offers(modules, c, id) {
      var m :| m in modules && m.id == id && Provides(m, c);
      var j :| 0 <= j < |modules| && modules[j] == m;
      var l :| 0 <= l < |m.provided| && m.provided[l] == c;
      assert modules[j].provided[l] == c;
    }
  }

  lemma RegisteredIsOffered(modules: seq<Manifest>, i: nat, k: nat, c: Capability, id: Id)
    requires Registered(modules, i, k, c, id)
    ensures Offers(modules, c, id)
  {
  }

  /** No two modules of different ids provide the same capability. */
  ghost predicate OneProviderEach(modules: seq<Manifest>) {
    forall c, a, b :: Offers(modules, c, a) && Offers(modules, c, b) ==> a == b
  }

  /** Every provider of a capability by module id; a capability has one provider. */
  method CapabilityProviders(modules: seq<Manifest>)
    returns (r: Result<map<Capability, Id>, DuplicateCapability>)
    ensures r.Ok? <==> OneProviderEach(modules)
    ensures r.Ok? ==> forall c, id :: Offers(modules, c, id) <==> c in r.value && r.value[c] == id
    ensures r.Err? ==> r.error.first != r.error.second
                       && Offers(modules, r.error.capability, r.error.first)
                       && Offers(modules, r.error.capability, r.error.second)
  {
    var providers: map<Capability, Id> := map[];
    for i := 0 to |modules|
      invariant forall c, id :: Registered(modules, i, 0, c, id) <==> c in providers && providers[c] == id
    {
      var m := modules[i];
      for k := 0 to |m.provided|
        invariant forall c, id :: Registered(modules, i, k, c, id) <==> c in providers && providers[c] == id
      {
        var capability := m.provided[k];
        if capability in providers && providers[capability] != m.id {
          RegisteredIsOffered(modules, i, k, capability, providers[capability]);
          RegisteredStep(modules, i, k, capability, m.id);
          RegisteredIsOffered(modules, i, k + 1, capability, m.id);
          return Err(DuplicateCapability(capability, providers[capability], m.id));
        }
        ghost var before, next := providers, k + 1;
        providers := providers[capability := m.id];
        forall c, id
          ensures Registered(modules, i, next, c, id) <==> c in providers && providers[c] == id
        {
          RegisteredStep(modules, i, k, c, id);
          assert Registered(modules, i, k, c, id) <==> c in before && before[c] == id;
        }
      }
      ghost var next := i + 1;
      forall c, id
        ensures Registered(modules, next, 0, c, id) <==> c in providers && providers[c] == id
      {
        RegisteredNext(modules, i, c, id);
      }
    }
    forall c, id { RegisteredAll(modules, c, id); }
    return Ok(providers);
  }
}
