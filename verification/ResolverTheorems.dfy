/** The search is exact: it finds a selection when there is one, what it finds is
    one, and at each choice it keeps the first candidate that can be completed. */
module ResolvingTheorems {
  import opened Basics
  import opened Versions
  import opened Manifests
  import opened Resolving

  /** A want is met by a selected or installed version, or by a selected or installed provider. */
  predicate Meets(p: Problem, s: Selection, want: Want) {
    match want
    case WantCapability(c) => Provided(p, s, c)
    case WantModule(id, range) =>
      if id in s then Satisfies(s[id].manifest.version, range)
      else Existing(p.installed, id).Some? && Satisfies(Existing(p.installed, id).value.version, range)
  }

  /** Catalog releases, one per id, none of an installed id, each admitted by the platform. */
  ghost predicate Admissible(p: Problem, s: Selection) {
    forall id :: id in s ==>
      && s[id] in p.releases
      && s[id].manifest.id == id
      && Existing(p.installed, id) == None
      && PlatformAdmits(s[id].manifest, p.platform)
  }

  ghost predicate AllMet(p: Problem, s: Selection, wants: seq<Want>) {
    forall w :: w in wants ==> Meets(p, s, w)
  }

  /** Everything the selected releases want, those of `from` aside, is met. */
  ghost predicate Closed(p: Problem, s: Selection, from: set<Id>) {
    forall id :: id in s && id !in from ==> AllMet(p, s, Wanted(s[id].manifest))
  }

  ghost predicate Extends(a: Selection, b: Selection) {
    forall id :: id in a ==> id in b && b[id] == a[id]
  }

  /** s finishes what is selected so far: it adds to it and meets the pending wants. */
  ghost predicate Completes(p: Problem, selected: Selection, pending: seq<Want>, s: Selection) {
    && Extends(selected, s)
    && Admissible(p, s)
    && Closed(p, s, selected.Keys)
    && AllMet(p, s, pending)
  }

  /** A selection that answers a request for a module in a range. */
  ghost predicate Resolves(p: Problem, id: Id, range: Range, s: Selection) {
    Admissible(p, s) && Closed(p, s, {}) && Meets(p, s, WantModule(id, range))
  }

  lemma ProvidedGrows(p: Problem, a: Selection, b: Selection, c: Capability)
    requires Extends(a, b) && Provided(p, a, c)
    ensures Provided(p, b, c)
  {
  }

  /* What is found is a completion. */

  lemma FoundAfterChoice(p: Problem, selected: Selection, r: Release, rest: seq<Want>, s: Selection)
    requires r.manifest.id !in selected
    requires Completes(p, selected[r.manifest.id := r], Wanted(r.manifest) + rest, s)
    ensures Completes(p, selected, rest, s) && r.manifest.id in s && s[r.manifest.id] == r
  {
    var grown := selected[r.manifest.id := r];
    assert r.manifest.id in grown && grown[r.manifest.id] == r;
    forall id | id in selected ensures id in s && s[id] == selected[id] {
      assert id in grown && grown[id] == selected[id];
    }
    forall id | id in s && id !in selected.Keys ensures AllMet(p, s, Wanted(s[id].manifest)) {
      if id == r.manifest.id {
        forall w | w in Wanted(r.manifest) ensures Meets(p, s, w) {
          assert w in Wanted(r.manifest) + rest;
        }
      } else {
        assert id !in grown.Keys;
      }
    }
    forall w | w in rest ensures Meets(p, s, w) {
      assert w in Wanted(r.manifest) + rest;
    }
  }

  lemma MeetsStays(p: Problem, a: Selection, b: Selection, w: Want)
    requires Extends(a, b) && Admissible(p, b) && Meets(p, a, w)
    ensures Meets(p, b, w)
  {
    if w.WantCapability? {
      ProvidedGrows(p, a, b, w.capability);
    }
  }

  /** One step of the search: on past a want that is met, into the candidates of one that is not. */
  lemma SearchStep(p: Problem, selected: Selection, pending: seq<Want>, attempts: nat)
    requires attempts + 1 <= MAX_ATTEMPTS && |pending| <= MAX_PENDING && |selected| <= MAX_SELECTED && pending != []
    ensures var next, rest, found := pending[0], pending[1..], Search(p, selected, pending, attempts);
      if Meets(p, selected, next) then found == Search(p, selected, rest, attempts + 1)
      else
        match next
        case WantCapability(c) =>
          && Triable(p, selected, next, ProvidersFor(p.releases, c))
          && found == Try(p, selected, next, ProvidersFor(p.releases, c), rest, attempts + 1)
          && forall r :: r in ProvidersFor(p.releases, c) <==> r in p.releases && Provides(r.manifest, c)
        case WantModule(id, _) =>
          if id in selected || Existing(p.installed, id).Some? then found.0 == Exhausted
          else
            && Triable(p, selected, next, CandidatesOf(p.releases, id))
            && found == Try(p, selected, next, CandidatesOf(p.releases, id), rest, attempts + 1)
            && forall r :: r in CandidatesOf(p.releases, id) <==> r in p.releases && r.manifest.id == id
  {
    hide Provided, ProvidersFor, CandidatesOf, Try, Satisfies, Provides;
    if pending[0].WantCapability? {
      ProviderMembers(p.releases, pending[0].capability);
    } else {
      CandidateMembers(p.releases, pending[0].id);
    }
  }

  /** A want that is met stays so. */
  lemma MetIsCompleted(p: Problem, selected: Selection, next: Want, rest: seq<Want>, s: Selection)
    requires Completes(p, selected, rest, s) && Meets(p, selected, next)
    ensures Completes(p, selected, [next] + rest, s)
  {
    hide Meets, Closed;
    MeetsStays(p, selected, s, next);
  }

  lemma {:induction false} SearchIsSound(p: Problem, selected: Selection, pending: seq<Want>, attempts: nat)
    requires Admissible(p, selected)
    ensures match Search(p, selected, pending, attempts).0
            case Found(s) => Completes(p, selected, pending, s) && |s| <= MAX_SELECTED
            case _ => true
    decreases Unselected(p, selected), |pending|, 0
  {
    var n := attempts + 1;
    if n > MAX_ATTEMPTS || |pending| > MAX_PENDING || |selected| > MAX_SELECTED || pending == [] {
    } else {
      hide Search, Meets, Completes, Admissible, Try, Triable, ProvidersFor, CandidatesOf, Provides;
      var next, rest := pending[0], pending[1..];
      assert pending == [next] + rest;
      SearchStep(p, selected, pending, attempts);
      if Meets(p, selected, next) {
        SearchIsSound(p, selected, rest, n);
        match Search(p, selected, rest, n).0 {
          case Found(s) => MetIsCompleted(p, selected, next, rest, s);
          case _ =>
        }
      } else if next.WantCapability? {
        TryIsSound(p, selected, next, ProvidersFor(p.releases, next.capability), rest, n);
      } else if next.id !in selected && Existing(p.installed, next.id).None? {
        TryIsSound(p, selected, next, CandidatesOf(p.releases, next.id), rest, n);
      }
    }
  }

  lemma {:induction false} TryIsSound(
      p: Problem, selected: Selection, want: Want, candidates: seq<Release>, rest: seq<Want>, attempts: nat)
    requires Admissible(p, selected) && Triable(p, selected, want, candidates)
    requires want.WantModule? ==> Existing(p.installed, want.id) == None
    requires forall r :: r in candidates && want.WantCapability? ==> Provides(r.manifest, want.capability)
    ensures match Try(p, selected, want, candidates, rest, attempts).0
            case Found(s) => Completes(p, selected, [want] + rest, s) && |s| <= MAX_SELECTED
            case _ => true
    decreases Unselected(p, selected), |rest|, 1, |candidates|
  {
    hide Search, Wanted, Provides;
    if candidates != [] {
      var r := candidates[0];
      assert Triable(p, selected, want, candidates[1..]);
      if !Eligible(p, selected, want, r) {
        TryIsSound(p, selected, want, candidates[1..], rest, attempts);
      } else {
        SelectingShrinks(p, selected, r);
        var grown := selected[r.manifest.id := r];
        SearchIsSound(p, grown, Wanted(r.manifest) + rest, attempts);
        var (o, n) := Search(p, grown, Wanted(r.manifest) + rest, attempts);
        if o == Exhausted {
          TryIsSound(p, selected, want, candidates[1..], rest, n);
        } else if o.Found? {
          FoundAfterChoice(p, selected, r, rest, o.selected);
          assert r in candidates;
          assert Meets(p, o.selected, want);
        }
      }
    }
  }

  /* Nothing is missed. */

  lemma ChoiceIsOpen(p: Problem, selected: Selection, r: Release, rest: seq<Want>, s: Selection)
    requires Completes(p, selected, rest, s)
    requires r.manifest.id !in selected && r.manifest.id in s && s[r.manifest.id] == r
    ensures Completes(p, selected[r.manifest.id := r], Wanted(r.manifest) + rest, s)
  {
    assert AllMet(p, s, Wanted(s[r.manifest.id].manifest));
  }

  lemma {:induction false} ExhaustedMeansNone(
      p: Problem, selected: Selection, pending: seq<Want>, attempts: nat, s: Selection)
    requires Completes(p, selected, pending, s)
    ensures Search(p, selected, pending, attempts).0 != Exhausted
    decreases Unselected(p, selected), |pending|, 0
  {
    hide Try, PlatformAdmits, Closed, ProvidersFor, CandidatesOf;
    var n := attempts + 1;
    if n > MAX_ATTEMPTS || |pending| > MAX_PENDING || |selected| > MAX_SELECTED || pending == [] {
    } else {
      hide Search;
      var next, rest := pending[0], pending[1..];
      assert pending == [next] + rest;
      assert next in pending && Meets(p, s, next);
      SearchStep(p, selected, pending, attempts);
      if Meets(p, selected, next) {
        ExhaustedMeansNone(p, selected, rest, n, s);
      } else if next.WantCapability? {
        var id := NewProvider(p, selected, next.capability, s);
        TryFinds(p, selected, next, ProvidersFor(p.releases, next.capability), rest, n, s, id);
      } else {
        assert next.id !in selected;
        assert next.id in s;
        TryFinds(p, selected, next, CandidatesOf(p.releases, next.id), rest, n, s, next.id);
      }
    }
  }

  /** A capability met by the whole selection but not yet met has a provider still to be chosen. */
  lemma NewProvider(p: Problem, selected: Selection, c: Capability, s: Selection) returns (id: Id)
    requires Extends(selected, s) && Provided(p, s, c) && !Provided(p, selected, c)
    ensures id in s && id !in selected && Provides(s[id].manifest, c)
  {
    id :| id in s && Provides(s[id].manifest, c);
  }

  lemma {:induction false} TryFinds(
      p: Problem, selected: Selection, want: Want, candidates: seq<Release>, rest: seq<Want>, attempts: nat,
      s: Selection, id: Id)
    requires Triable(p, selected, want, candidates)
    requires Completes(p, selected, rest, s)
    requires id in s && id !in selected && s[id] in candidates
    requires Eligible(p, selected, want, s[id])
    ensures Try(p, selected, want, candidates, rest, attempts).0 != Exhausted
    decreases Unselected(p, selected), |rest|, 1, |candidates|
  {
    var r := candidates[0];
    assert Triable(p, selected, want, candidates[1..]);
    if r != s[id] {
      assert s[id] in candidates[1..];
    }
    if !Eligible(p, selected, want, r) {
      TryFinds(p, selected, want, candidates[1..], rest, attempts, s, id);
    } else {
      SelectingShrinks(p, selected, r);
      var (o, n) := Search(p, selected[r.manifest.id := r], Wanted(r.manifest) + rest, attempts);
      if r == s[id] {
        ChoiceIsOpen(p, selected, r, rest, s);
        ExhaustedMeansNone(p, selected[r.manifest.id := r], Wanted(r.manifest) + rest, attempts, s);
      } else if o == Exhausted {
        TryFinds(p, selected, want, candidates[1..], rest, n, s, id);
      }
    }
  }

  /* The first candidate that can be completed is kept. */

  ghost predicate Chooses(t: Selection, r: Release) {
    r.manifest.id in t && t[r.manifest.id] == r
  }

  /** No completion chooses this release. */
  ghost predicate Hopeless(p: Problem, selected: Selection, rest: seq<Want>, r: Release) {
    forall t :: Completes(p, selected, rest, t) ==> !Chooses(t, r)
  }

  /** Candidate i is chosen, and every eligible candidate before it is hopeless. */
  ghost predicate FirstCompletable(
      p: Problem, selected: Selection, want: Want, candidates: seq<Release>, rest: seq<Want>, i: nat, s: Selection)
  {
    && i < |candidates|
    && Eligible(p, selected, want, candidates[i])
    && Chooses(s, candidates[i])
    && (forall j :: 0 <= j < i ==>
          !Eligible(p, selected, want, candidates[j]) || Hopeless(p, selected, rest, candidates[j]))
  }

  lemma FirstAfterHead(
      p: Problem, selected: Selection, want: Want, candidates: seq<Release>, rest: seq<Want>, k: nat, s: Selection)
    requires candidates != [] && FirstCompletable(p, selected, want, candidates[1..], rest, k, s)
    requires !Eligible(p, selected, want, candidates[0]) || Hopeless(p, selected, rest, candidates[0])
    ensures FirstCompletable(p, selected, want, candidates, rest, k + 1, s)
  {
    hide Hopeless, Eligible, Chooses;
    forall j | 0 <= j < k + 1
      ensures !Eligible(p, selected, want, candidates[j]) || Hopeless(p, selected, rest, candidates[j])
    {
      if j > 0 {
        assert candidates[j] == candidates[1..][j - 1];
      }
    }
  }

  lemma HopelessWhenExhausted(
      p: Problem, selected: Selection, r: Release, rest: seq<Want>, attempts: nat)
    requires r.manifest.id !in selected
    requires Search(p, selected[r.manifest.id := r], Wanted(r.manifest) + rest, attempts).0 == Exhausted
    ensures Hopeless(p, selected, rest, r)
  {
    forall t | Completes(p, selected, rest, t) ensures !Chooses(t, r) {
      if Chooses(t, r) {
        ChoiceIsOpen(p, selected, r, rest, t);
        ExhaustedMeansNone(p, selected[r.manifest.id := r], Wanted(r.manifest) + rest, attempts, t);
      }
    }
  }

  lemma FirstAtHead(
      p: Problem, selected: Selection, want: Want, candidates: seq<Release>, rest: seq<Want>, s: Selection)
    requires candidates != [] && Eligible(p, selected, want, candidates[0])
    requires candidates[0].manifest.id in s && s[candidates[0].manifest.id] == candidates[0]
    ensures FirstCompletable(p, selected, want, candidates, rest, 0, s)
  {
  }

  lemma {:induction false} TryKeepsFirst(
      p: Problem, selected: Selection, want: Want, candidates: seq<Release>, rest: seq<Want>, attempts: nat)
      returns (i: nat)
    requires Admissible(p, selected) && Triable(p, selected, want, candidates)
    requires want.WantModule? ==> Existing(p.installed, want.id) == None
    requires Try(p, selected, want, candidates, rest, attempts).0.Found?
    ensures FirstCompletable(p, selected, want, candidates, rest, i,
                             Try(p, selected, want, candidates, rest, attempts).0.selected)
    decreases |candidates|
  {
    hide Search, Wanted, FirstCompletable, Completes, Hopeless;
    var r, tail := candidates[0], candidates[1..];
    assert Triable(p, selected, want, tail);
    if !Eligible(p, selected, want, r) {
      var k := TryKeepsFirst(p, selected, want, tail, rest, attempts);
      i := k + 1;
      FirstAfterHead(p, selected, want, candidates, rest, k, Try(p, selected, want, tail, rest, attempts).0.selected);
    } else {
      SelectingShrinks(p, selected, r);
      var grown := selected[r.manifest.id := r];
      var (o, n) := Search(p, grown, Wanted(r.manifest) + rest, attempts);
      if o == Exhausted {
        HopelessWhenExhausted(p, selected, r, rest, attempts);
        var k := TryKeepsFirst(p, selected, want, tail, rest, n);
        i := k + 1;
        FirstAfterHead(p, selected, want, candidates, rest, k, Try(p, selected, want, tail, rest, n).0.selected);
      } else {
        i := 0;
        SearchIsSound(p, grown, Wanted(r.manifest) + rest, attempts);
        FoundAfterChoice(p, selected, r, rest, o.selected);
        FirstAtHead(p, selected, want, candidates, rest, o.selected);
      }
    }
  }

  /* Main results. */

  function Request(id: Id, range: Range): seq<Want> {
    [WantModule(id, range)]
  }

  lemma ResolvingIsCompleting(p: Problem, id: Id, range: Range, s: Selection)
    ensures Resolves(p, id, range, s) <==> Completes(p, map[], Request(id, range), s)
  {
    assert WantModule(id, range) in Request(id, range);
  }

  /** Unless a limit stops it, the search answers exactly whether a selection exists, and
      answers with one. */
  lemma ResolverIsExact(p: Problem, id: Id, range: Range)
    ensures match Search(p, map[], Request(id, range), 0).0
            case Found(s) => Resolves(p, id, range, s) && |s| <= MAX_SELECTED
            case Exhausted => !exists s :: Resolves(p, id, range, s)
            case LimitHit => true
  {
    SearchIsSound(p, map[], Request(id, range), 0);
    match Search(p, map[], Request(id, range), 0).0 {
      case Found(s) => ResolvingIsCompleting(p, id, range, s);
      case Exhausted =>
        forall s ensures !Resolves(p, id, range, s) {
          if Resolves(p, id, range, s) {
            ResolvingIsCompleting(p, id, range, s);
            ExhaustedMeansNone(p, map[], Request(id, range), 0, s);
          }
        }
      case LimitHit =>
    }
  }

  /** A request for a module that is not installed tries its releases, newest first. */
  lemma RequestTries(p: Problem, id: Id, range: Range)
    requires Existing(p.installed, id) == None
    ensures Triable(p, map[], WantModule(id, range), CandidatesOf(p.releases, id)) && Admissible(p, map[])
    ensures Search(p, map[], Request(id, range), 0).0
         == Try(p, map[], WantModule(id, range), CandidatesOf(p.releases, id), [], 1).0
  {
    CandidateMembers(p.releases, id);
    assert Request(id, range)[1..] == [];
  }

  lemma ResolvesFromNothing(p: Problem, id: Id, range: Range, t: Selection, r: Release)
    requires Existing(p.installed, id) == None && r.manifest.id == id
    requires Resolves(p, id, range, t) && Chooses(t, r)
    ensures Completes(p, map[], [], t) && Eligible(p, map[], WantModule(id, range), r)
  {
  }

  /** The first candidate that can be completed is not older than any that can. */
  lemma FirstIsNewest(
      p: Problem, want: Want, candidates: seq<Release>, i: nat, s: Selection, r: Release, t: Selection)
    requires FirstCompletable(p, map[], want, candidates, [], i, s) && NewestFirst(candidates)
    requires r in candidates && Eligible(p, map[], want, r)
    requires Completes(p, map[], [], t) && Chooses(t, r)
    ensures i < |candidates| && candidates[i] in candidates
    ensures Chooses(s, candidates[i]) && !Older(candidates[i].manifest.version, r.manifest.version)
  {
    hide Eligible, Completes, Chooses;
    var k :| 0 <= k < |candidates| && candidates[k] == r;
  }

  /** The release found for a target that is not installed is the newest that any selection
      can have: whatever is newer, in range and admitted belongs to none. */
  lemma TargetIsNewest(p: Problem, id: Id, range: Range, r: Release, t: Selection)
    requires Existing(p.installed, id) == None
    requires Search(p, map[], Request(id, range), 0).0.Found?
    requires r in p.releases && r.manifest.id == id
    requires Resolves(p, id, range, t) && Chooses(t, r)
    ensures var s := Search(p, map[], Request(id, range), 0).0.selected;
      id in s && !Older(s[id].manifest.version, r.manifest.version)
  {
    hide Search, Try, Resolves, Completes, Eligible, FirstCompletable, Triable, Admissible;
    var want, candidates := WantModule(id, range), CandidatesOf(p.releases, id);
    CandidateMembers(p.releases, id);
    RequestTries(p, id, range);
    ResolvesFromNothing(p, id, range, t, r);
    var i := TryKeepsFirst(p, map[], want, candidates, [], 1);
    FirstIsNewest(p, want, candidates, i, Search(p, map[], Request(id, range), 0).0.selected, r, t);
  }
}
