/** When the composition order of some roots is its own order. */
module OrderStability {
  import opened Basics
  import opened Manifests
  import opened Ordering
  import opened OrderingTheorems
  import opened Enablement

  /* The walk only adds, and never what it is on the way to. */

  lemma {:induction false} VisitGrows(g: Composition, visiting: seq<Id>, ordered: seq<Id>, id: Id, consumer: Option<Id>)
    requires VisitFrom(g, visiting, ordered, id, consumer).Ok?
    ensures var o := VisitFrom(g, visiting, ordered, id, consumer).value;
      ordered <= o && id in o && forall x :: x in visiting && x !in ordered ==> x !in o
    decreases g.modules.Keys - Elems(visiting), 0
  {
    if id !in ordered {
      ElemsOfSum(visiting, [id]);
      assert id in g.modules.Keys - Elems(visiting) && id !in g.modules.Keys - Elems(visiting + [id]);
      EdgesGrow(g, visiting + [id], ordered, id, Edges(g.modules[id]));
      assert forall x :: x in visiting ==> x in visiting + [id];
    }
  }

  lemma {:induction false} EdgesGrow(g: Composition, visiting: seq<Id>, ordered: seq<Id>, id: Id, edges: seq<Edge>)
    requires id in g.modules && (forall e :: e in edges ==> e in Edges(g.modules[id]))
    requires VisitEdges(g, visiting, ordered, id, edges).Ok?
    ensures var o := VisitEdges(g, visiting, ordered, id, edges).value;
      ordered <= o && forall x :: x in visiting && x !in ordered ==> x !in o
    decreases g.modules.Keys - Elems(visiting), |edges|
  {
    if edges != [] {
      var step := Follow(g, id, edges[0]).value;
      if step.None? {
        EdgesGrow(g, visiting, ordered, id, edges[1..]);
      } else {
        VisitGrows(g, visiting, ordered, step.value, Some(id));
        EdgesGrow(g, visiting, VisitFrom(g, visiting, ordered, step.value, Some(id)).value, id, edges[1..]);
      }
    }
  }

  lemma {:induction false} RootsGrow(g: Composition, ordered: seq<Id>, roots: seq<Id>)
    requires VisitRoots(g, ordered, roots).Ok?
    ensures ordered <= VisitRoots(g, ordered, roots).value
    decreases |roots|
  {
    if roots != [] {
      VisitGrows(g, [], ordered, roots[0], None);
      RootsGrow(g, VisitFrom(g, [], ordered, roots[0], None).value, roots[1..]);
    }
  }

  /* The walk started from part of its own result. */

  predicate Comparable(a: seq<Id>, b: seq<Id>) {
    a <= b || b <= a
  }

  function Longer(a: seq<Id>, b: seq<Id>): seq<Id> {
    if |a| < |b| then b else a
  }

  lemma LongerIs(a: seq<Id>, b: seq<Id>)
    ensures a <= b ==> Longer(a, b) == b
    ensures b <= a ==> Longer(a, b) == a
  {
    if |a| == |b| && (a <= b || b <= a) {
      assert a == b;
    }
  }

  lemma Split(r: seq<Id>, id: Id, more: seq<Id>)
    requires Comparable(more, r + [id]) && id !in r
    ensures id in more ==> r + [id] <= more
    ensures id !in more ==> more <= r
  {
    if r + [id] <= more {
      assert more[|r|] == id;
    } else if |more| <= |r| {
      assert more <= r;
    }
  }

  /** Begun with more of its result in place, or more than that, a visit ends in the same place. */
  lemma {:induction false} VisitFromMore(
      g: Composition, visiting: seq<Id>, ordered: seq<Id>, id: Id, consumer: Option<Id>, more: seq<Id>)
    requires VisitFrom(g, visiting, ordered, id, consumer).Ok? && ordered <= more
    requires Comparable(more, VisitFrom(g, visiting, ordered, id, consumer).value)
    ensures VisitFrom(g, visiting, more, id, consumer)
         == Ok(Longer(more, VisitFrom(g, visiting, ordered, id, consumer).value))
    decreases g.modules.Keys - Elems(visiting), 0
  {
    LongerIs(more, VisitFrom(g, visiting, ordered, id, consumer).value);
    if id !in ordered {
      ElemsOfSum(visiting, [id]);
      assert id in g.modules.Keys - Elems(visiting) && id !in g.modules.Keys - Elems(visiting + [id]);
      var edges := Edges(g.modules[id]);
      var r := VisitEdges(g, visiting + [id], ordered, id, edges).value;
      EdgesGrow(g, visiting + [id], ordered, id, edges);
      assert id in visiting + [id];
      Split(r, id, more);
      LongerIs(more, r);
      if id !in more {
        EdgesFromMore(g, visiting + [id], ordered, id, edges, more);
      }
    }
  }

  lemma {:induction false} EdgesFromMore(
      g: Composition, visiting: seq<Id>, ordered: seq<Id>, id: Id, edges: seq<Edge>, more: seq<Id>)
    requires id in g.modules && (forall e :: e in edges ==> e in Edges(g.modules[id]))
    requires VisitEdges(g, visiting, ordered, id, edges).Ok? && ordered <= more
    requires Comparable(more, VisitEdges(g, visiting, ordered, id, edges).value)
    ensures VisitEdges(g, visiting, more, id, edges)
         == Ok(Longer(more, VisitEdges(g, visiting, ordered, id, edges).value))
    decreases g.modules.Keys - Elems(visiting), |edges|
  {
    LongerIs(more, ordered);
    if edges != [] {
      var step := Follow(g, id, edges[0]).value;
      if step.None? {
        EdgesFromMore(g, visiting, ordered, id, edges[1..], more);
      } else {
        var o := VisitFrom(g, visiting, ordered, step.value, Some(id)).value;
        EdgesGrow(g, visiting, o, id, edges[1..]);
        BothPrefixes(o, more, VisitEdges(g, visiting, o, id, edges[1..]).value);
        VisitFromMore(g, visiting, ordered, step.value, Some(id), more);
        EdgesFromMore(g, visiting, o, id, edges[1..], Longer(more, o));
        assert VisitEdges(g, visiting, ordered, id, edges) == VisitEdges(g, visiting, o, id, edges[1..]);
        assert VisitEdges(g, visiting, more, id, edges) == VisitEdges(g, visiting, Longer(more, o), id, edges[1..]);
      }
    }
  }

  lemma BothPrefixes(o: seq<Id>, more: seq<Id>, end: seq<Id>)
    requires o <= end && Comparable(more, end)
    ensures Comparable(more, o) && o <= Longer(more, o) && Comparable(Longer(more, o), end)
    ensures Longer(Longer(more, o), end) == Longer(more, end)
  {
    if more <= end {
      if |more| <= |o| { assert more <= o; } else { assert o <= more; }
    }
    LongerIs(more, o);
    LongerIs(Longer(more, o), end);
    LongerIs(more, end);
  }

  lemma {:induction false} RootsFromMore(g: Composition, ordered: seq<Id>, roots: seq<Id>, more: seq<Id>)
    requires VisitRoots(g, ordered, roots).Ok? && ordered <= more <= VisitRoots(g, ordered, roots).value
    ensures VisitRoots(g, more, roots) == VisitRoots(g, ordered, roots)
    decreases |roots|
  {
    var end := VisitRoots(g, ordered, roots).value;
    LongerIs(more, end);
    if roots != [] {
      var o := VisitFrom(g, [], ordered, roots[0], None).value;
      RootsGrow(g, o, roots[1..]);
      BothPrefixes(o, more, end);
      VisitFromMore(g, [], ordered, roots[0], None, more);
      RootsFromMore(g, o, roots[1..], Longer(more, o));
      assert VisitRoots(g, ordered, roots) == VisitRoots(g, o, roots[1..]);
      assert VisitRoots(g, more, roots) == VisitRoots(g, Longer(more, o), roots[1..]);
    }
  }

  lemma {:induction false} RootsOfSum(g: Composition, ordered: seq<Id>, a: seq<Id>, b: seq<Id>)
    requires VisitRoots(g, ordered, a).Ok?
    ensures VisitRoots(g, ordered, a + b) == VisitRoots(g, VisitRoots(g, ordered, a).value, b)
    decreases |a|
  {
    if a == [] {
      assert a + b == b;
    } else {
      assert (a + b)[1..] == a[1..] + b;
      RootsOfSum(g, VisitFrom(g, [], ordered, a[0], None).value, a[1..], b);
    }
  }

  /* Roots added to the roots. */

  function Those(roots: seq<Id>, list: seq<Id>): seq<Id> {
    Filter((x: Id) => x in roots, list)
  }

  /** The id at position k is a root, or placed when its turn comes, or placing it keeps to o. */
  ghost predicate KeepsTo(g: Composition, list: seq<Id>, roots: seq<Id>, k: nat, o: seq<Id>)
    requires k < |list|
  {
    var before, after := VisitRoots(g, [], list[..k]), VisitRoots(g, [], list[..k + 1]);
    list[k] in roots || (before.Ok? && list[k] in before.value) || (after.Ok? && after.value <= o)
  }

  lemma StepKeepsTo(g: Composition, list: seq<Id>, roots: seq<Id>, k: nat, o: seq<Id>)
    requires k < |list| && KeepsTo(g, list, roots, k, o)
    requires VisitRoots(g, [], list[..k]).Ok?
    requires VisitRoots(g, VisitRoots(g, [], list[..k]).value, Those(roots, list[k..])) == Ok(o)
    ensures VisitRoots(g, [], list[..k + 1]).Ok?
    ensures VisitRoots(g, VisitRoots(g, [], list[..k + 1]).value, Those(roots, list[k + 1..])) == Ok(o)
  {
    hide VisitRoots;
    var x, placed := list[k], VisitRoots(g, [], list[..k]).value;
    assert list[..k + 1] == list[..k] + [x];
    RootsOfSum(g, [], list[..k], [x]);
    ThoseFrom(roots, list, k);
    if x in roots {
      PrefixIsOk(g, placed, [x], Those(roots, list[k + 1..]));
      RootsOfSum(g, placed, [x], Those(roots, list[k + 1..]));
    } else if x in placed {
      AlreadyPlaced(g, placed, x);
    } else {
      PlacedKeepsTo(g, placed, x, VisitRoots(g, [], list[..k + 1]).value, Those(roots, list[k + 1..]), o);
    }
  }

  lemma ThoseFrom(roots: seq<Id>, list: seq<Id>, k: nat)
    requires k < |list|
    ensures Those(roots, list[k..])
         == if list[k] in roots then [list[k]] + Those(roots, list[k + 1..]) else Those(roots, list[k + 1..])
  {
    assert list[k..][1..] == list[k + 1..];
  }

  lemma AlreadyPlaced(g: Composition, placed: seq<Id>, x: Id)
    requires x in placed
    ensures VisitRoots(g, placed, [x]) == Ok(placed)
  {
    assert VisitRoots(g, placed, [x][1..]) == Ok(placed);
  }

  lemma PlacedKeepsTo(g: Composition, placed: seq<Id>, x: Id, after: seq<Id>, rest: seq<Id>, o: seq<Id>)
    requires VisitRoots(g, placed, [x]) == Ok(after) && after <= o && VisitRoots(g, placed, rest) == Ok(o)
    ensures VisitRoots(g, after, rest) == Ok(o)
  {
    RootsGrow(g, placed, [x]);
    RootsFromMore(g, placed, rest, after);
  }

  lemma {:induction false} AllKeepTo(g: Composition, list: seq<Id>, roots: seq<Id>, k: nat, o: seq<Id>)
    requires k <= |list| && forall i :: 0 <= i < |list| ==> KeepsTo(g, list, roots, i, o)
    requires VisitRoots(g, [], list[..k]).Ok?
    requires VisitRoots(g, VisitRoots(g, [], list[..k]).value, Those(roots, list[k..])) == Ok(o)
    ensures VisitRoots(g, [], list) == Ok(o)
    decreases |list| - k
  {
    if k == |list| {
      assert list[..k] == list && list[k..] == [];
    } else {
      StepKeepsTo(g, list, roots, k, o);
      AllKeepTo(g, list, roots, k + 1, o);
    }
  }

  lemma AllKeepToEnd(g: Composition, list: seq<Id>, roots: seq<Id>, o: seq<Id>)
    requires forall i :: 0 <= i < |list| ==> KeepsTo(g, list, roots, i, o)
    requires VisitRoots(g, [], Those(roots, list)) == Ok(o)
    ensures VisitRoots(g, [], list) == Ok(o)
  {
    assert list[..0] == [] && list[0..] == list;
    AllKeepTo(g, list, roots, 0, o);
  }

  /** When the walk over the whole list gives o, each step keeps to it. */
  lemma StableKeepsTo(g: Composition, list: seq<Id>, k: nat, o: seq<Id>)
    requires k <= |list| && VisitRoots(g, [], list) == Ok(o)
    ensures VisitRoots(g, [], list[..k]).Ok? && VisitRoots(g, [], list[..k]).value <= o
  {
    assert list == list[..k] + list[k..];
    PrefixIsOk(g, [], list[..k], list[k..]);
    RootsOfSum(g, [], list[..k], list[k..]);
    RootsGrow(g, VisitRoots(g, [], list[..k]).value, list[k..]);
  }

  lemma {:induction false} PrefixIsOk(g: Composition, ordered: seq<Id>, a: seq<Id>, b: seq<Id>)
    requires VisitRoots(g, ordered, a + b).Ok?
    ensures VisitRoots(g, ordered, a).Ok?
    decreases |a|
  {
    if a != [] {
      assert (a + b)[1..] == a[1..] + b;
      PrefixIsOk(g, VisitFrom(g, [], ordered, a[0], None).value, a[1..], b);
    }
  }

  /* Sorted lists. */

  ghost predicate SortedIdList(s: seq<Id>) {
    SortedByKey((id: Id) => id, s) && Distinct(s)
  }

  lemma SortedListIs(ids: seq<Id>)
    ensures SortedIdList(SortedIds(Unique(ids))) && Elems(SortedIds(Unique(ids))) == Elems(ids)
  {
    SortSorts((id: Id) => id, Unique(ids));
    SortKeepsElements((id: Id) => id, Unique(ids));
    SortKeepsDistinct(Unique(ids));
  }

  lemma {:induction false} ThoseAreSorted(roots: seq<Id>, s: seq<Id>)
    requires SortedIdList(s)
    ensures SortedIdList(Those(roots, s))
    decreases |s|
  {
    if s != [] {
      ThoseAreSorted(roots, s[1..]);
      var rest := Those(roots, s[1..]);
      forall j | 0 <= j < |rest| ensures !Before(rest[j], s[0]) && rest[j] != s[0] {
        assert rest[j] in s[1..];
        var k :| 0 <= k < |s[1..]| && s[1..][k] == rest[j];
        assert s[k + 1] == rest[j];
      }
    }
  }

  lemma SortsEarlier(list: seq<Id>, j: nat, k: nat)
    requires SortedIdList(list) && j < |list| && k < |list| && Before(list[j], list[k])
    ensures j < k
  {
    BeforeIrreflexive(list[j]);
  }

  function UpTo(o: seq<Id>, x: Id): seq<Id> {
    Filter((y: Id) => !Before(x, y), o)
  }

  lemma FirstAreUpTo(o: seq<Id>, list: seq<Id>, k: nat, y: Id)
    requires SortedIdList(list) && Elems(list) == Elems(o) && k < |list| && y in list[..k + 1]
    ensures y in UpTo(o, list[k])
  {
    var j :| 0 <= j <= k && list[j] == y;
    assert y in Elems(list);
    assert y in o;
    if j == k {
      BeforeIrreflexive(y);
    }
  }

  lemma UpToAreFirst(o: seq<Id>, list: seq<Id>, k: nat, y: Id)
    requires SortedIdList(list) && Elems(list) == Elems(o) && k < |list| && y in UpTo(o, list[k])
    ensures y in list[..k + 1]
  {
    assert y in Elems(o);
    assert y in Elems(list);
    var j :| 0 <= j < |list| && list[j] == y;
    if j > k {
      BeforeTotal(list[k], y);
    }
    assert list[..k + 1][j] == y;
  }

  /** The ids up to the one at position k of the sorted list are the first k + 1. */
  lemma UpToIsPrefix(o: seq<Id>, k: nat)
    requires k < |SortedIds(Unique(o))|
    ensures SortedIds(Unique(UpTo(o, SortedIds(Unique(o))[k]))) == SortedIds(Unique(o))[..k + 1]
  {
    hide SortedIds, Unique, UpTo;
    var list := SortedIds(Unique(o));
    var x, first := list[k], list[..k + 1];
    SortedListIs(o);
    SortedListIs(UpTo(o, x));
    assert SortedIdList(first);
    hide SortedIdList;
    forall y ensures y in Elems(first) <==> y in Elems(UpTo(o, x)) {
      if y in first {
        FirstAreUpTo(o, list, k, y);
      }
      if y in UpTo(o, x) {
        UpToAreFirst(o, list, k, y);
      }
    }
    SortedSetsAreEqual(SortedIds(Unique(UpTo(o, x))), first);
  }

  /* Main results. */

  /** The order of the ids up to x is how the order begins. */
  ghost predicate BeginsUpTo(modules: map<Id, Manifest>, providers: map<Capability, Id>, o: seq<Id>, x: Id) {
    var first := Order(modules, providers, UpTo(o, x), true);
    first.Ok? && first.value <= o
  }

  /** Something that sorts before x needs it, directly or not. */
  ghost predicate Covered(g: Composition, o: seq<Id>, x: Id) {
    exists y :: y in o && Before(y, x) && Reaches(g, y, x)
  }

  lemma CoveredIsPlaced(g: Composition, o: seq<Id>, list: seq<Id>, k: nat)
    requires list == SortedIds(Unique(o)) && k < |list| && Covered(g, o, list[k])
    requires VisitRoots(g, [], list[..k]).Ok?
    ensures list[k] in VisitRoots(g, [], list[..k]).value
  {
    var y :| y in o && Before(y, list[k]) && Reaches(g, y, list[k]);
    SortedListIs(o);
    assert y in Elems(o);
    assert y in Elems(list);
    var j :| 0 <= j < |list| && list[j] == y;
    SortsEarlier(list, j, k);
    assert list[..k][j] == y && y in Elems(list[..k]);
    RootsWalk(g, [], list[..k]);
    SettledIsClosed(g, VisitRoots(g, [], list[..k]).value, Elems(list[..k]), list[k]);
  }

  lemma BeginsIsVisit(modules: map<Id, Manifest>, providers: map<Capability, Id>, o: seq<Id>, k: nat)
    requires k < |SortedIds(Unique(o))|
    ensures var list := SortedIds(Unique(o));
      Order(modules, providers, UpTo(o, list[k]), true)
      == VisitRoots(Composition(modules, providers, Elems(o), true), [], list[..k + 1])
  {
    var list := SortedIds(Unique(o));
    UpToIsPrefix(o, k);
    RequestedDoesNotMatter(Composition(modules, providers, Elems(UpTo(o, list[k])), true), Elems(o), [], list[..k + 1]);
  }

  /** The sorted roots are the roots of the sorted order. */
  lemma RootsOfList(roots: seq<Id>, o: seq<Id>)
    requires forall x :: x in roots ==> x in o
    ensures Those(roots, SortedIds(Unique(o))) == SortedIds(Unique(roots))
  {
    var list := SortedIds(Unique(o));
    SortedListIs(o);
    SortedListIs(roots);
    ThoseAreSorted(roots, list);
    forall x ensures x in Elems(Those(roots, list)) <==> x in Elems(SortedIds(Unique(roots))) {
      assert x in Elems(list) <==> x in Elems(o);
      assert x in Elems(roots) <==> x in roots;
    }
    SortedSetsAreEqual(Those(roots, list), SortedIds(Unique(roots)));
  }

  /** Where the ids end with one that is no root and that none before it needs, they make up the
      beginning of the order. */
  ghost predicate LateOnesBegin(modules: map<Id, Manifest>, providers: map<Capability, Id>, roots: seq<Id>,
                                o: seq<Id>) {
    var g := Composition(modules, providers, Elems(o), true);
    forall x :: x in o && x !in roots && !Covered(g, o, x) ==> BeginsUpTo(modules, providers, o, x)
  }

  /** An order is closed, so it can be composed again. */
  lemma OrderAgain(modules: map<Id, Manifest>, providers: map<Capability, Id>, roots: seq<Id>)
    requires Order(modules, providers, roots, true).Ok?
    ensures var o := Order(modules, providers, roots, true).value;
      && ClosedSet(Composition(modules, providers, Elems(o), false), Elems(o))
      && Order(modules, providers, o, true).Ok? && Elems(Order(modules, providers, o, true).value) == Elems(o)
  {
    ClosureComposesStrictly(modules, providers, roots);
    ClosedRootsAgree(modules, providers, Order(modules, providers, roots, true).value);
  }

  lemma PlaceInList(o: seq<Id>, x: Id) returns (k: nat)
    requires x in o
    ensures k < |SortedIds(Unique(o))| && SortedIds(Unique(o))[k] == x
  {
    SortedListIs(o);
    assert x in Elems(o);
    assert x in Elems(SortedIds(Unique(o)));
    k :| 0 <= k < |SortedIds(Unique(o))| && SortedIds(Unique(o))[k] == x;
  }

  lemma OrderHoldsRoots(modules: map<Id, Manifest>, providers: map<Capability, Id>, roots: seq<Id>, o: seq<Id>)
    requires Order(modules, providers, roots, true) == Ok(o)
    ensures forall x :: x in roots ==> x in o
  {
    var g := Composition(modules, providers, Elems(roots), true);
    OrderIsExact(modules, providers, roots, true);
    forall x | x in roots ensures x in o {
      ReachesSelf(g, x);
      assert x in Elems(roots);
    }
  }

  lemma PlacedKeeps(g: Composition, list: seq<Id>, roots: seq<Id>, k: nat, o: seq<Id>)
    requires k < |list| && VisitRoots(g, [], list[..k]).Ok? && list[k] in VisitRoots(g, [], list[..k]).value
    ensures KeepsTo(g, list, roots, k, o)
  {
    hide VisitRoots;
  }

  lemma BeginningKeeps(
      modules: map<Id, Manifest>, providers: map<Capability, Id>, roots: seq<Id>, o: seq<Id>, k: nat)
    requires k < |SortedIds(Unique(o))| && BeginsUpTo(modules, providers, o, SortedIds(Unique(o))[k])
    ensures KeepsTo(Composition(modules, providers, Elems(o), true), SortedIds(Unique(o)), roots, k, o)
  {
    BeginsIsVisit(modules, providers, o, k);
    hide VisitRoots, Order, SortedIds, Unique;
  }

  lemma RootKeeps(g: Composition, list: seq<Id>, roots: seq<Id>, k: nat, o: seq<Id>)
    requires k < |list| && list[k] in roots
    ensures KeepsTo(g, list, roots, k, o)
  {
    hide VisitRoots;
  }

  lemma LateKeepsTo(
      modules: map<Id, Manifest>, providers: map<Capability, Id>, roots: seq<Id>, o: seq<Id>, k: nat)
    requires LateOnesBegin(modules, providers, roots, o) && k < |SortedIds(Unique(o))|
    requires VisitRoots(Composition(modules, providers, Elems(o), true), [], SortedIds(Unique(o))[..k]).Ok?
    ensures KeepsTo(Composition(modules, providers, Elems(o), true), SortedIds(Unique(o)), roots, k, o)
  {
    hide VisitRoots, Covered, KeepsTo, BeginsUpTo, SortedIds, Unique;
    var g, list := Composition(modules, providers, Elems(o), true), SortedIds(Unique(o));
    SortedListIs(o);
    assert list[k] in Elems(list);
    assert list[k] in o;
    if Covered(g, o, list[k]) {
      CoveredIsPlaced(g, o, list, k);
      PlacedKeeps(g, list, roots, k, o);
    } else if list[k] in roots {
      RootKeeps(g, list, roots, k, o);
    } else {
      BeginningKeeps(modules, providers, roots, o, k);
    }
  }

  /** Composing an order again gives the same order exactly when, for every id in it that is
      neither a root nor needed by an id that sorts before it, the ids up to it make up, in their
      own order, the beginning of the whole. */
  lemma OrderStaysExactly(modules: map<Id, Manifest>, providers: map<Capability, Id>, roots: seq<Id>, o: seq<Id>)
    requires Order(modules, providers, roots, true) == Ok(o)
    ensures Order(modules, providers, o, true) == Ok(o) <==> LateOnesBegin(modules, providers, roots, o)
  {
    hide VisitRoots, Covered, KeepsTo;
    var g, list := Composition(modules, providers, Elems(o), true), SortedIds(Unique(o));
    OrderHoldsRoots(modules, providers, roots, o);
    RootsOfList(roots, o);
    RequestedDoesNotMatter(Composition(modules, providers, Elems(roots), true), Elems(o), [], SortedIds(Unique(roots)));
    if Order(modules, providers, o, true) == Ok(o) {
      forall x | x in o ensures BeginsUpTo(modules, providers, o, x) {
        var k := PlaceInList(o, x);
        BeginsIsVisit(modules, providers, o, k);
        StableKeepsTo(g, list, k + 1, o);
      }
    } else if LateOnesBegin(modules, providers, roots, o) {
      OrderAgain(modules, providers, roots);
      forall k | 0 <= k < |list| ensures KeepsTo(g, list, roots, k, o) {
        assert list == list[..k] + list[k..];
        PrefixIsOk(g, [], list[..k], list[k..]);
        LateKeepsTo(modules, providers, roots, o, k);
      }
      AllKeepToEnd(g, list, roots, o);
    }
  }

  /** When every id that was pulled in sorts after one that needs it, the order is its own order. */
  lemma CoveredOrderIsStable(modules: map<Id, Manifest>, providers: map<Capability, Id>, roots: seq<Id>, o: seq<Id>)
    requires Order(modules, providers, roots, true) == Ok(o)
    requires forall x :: x in o && x !in roots ==> Covered(Composition(modules, providers, Elems(o), true), o, x)
    ensures Order(modules, providers, o, true) == Ok(o)
  {
    OrderStaysExactly(modules, providers, roots, o);
  }

  /** An order composed again is from then on its own order, whatever the roots were. */
  lemma ComposingTwiceIsStable(modules: map<Id, Manifest>, providers: map<Capability, Id>, roots: seq<Id>)
    requires Order(modules, providers, roots, true).Ok?
    ensures var once := Order(modules, providers, roots, true).value;
      var twice := Order(modules, providers, once, true);
      && twice.Ok? && Elems(twice.value) == Elems(once)
      && Order(modules, providers, twice.value, true) == twice
      && Order(modules, providers, twice.value, false) == twice
  {
    var once := Order(modules, providers, roots, true).value;
    OrderAgain(modules, providers, roots);
    OrderOfClosedRootsIsStable(modules, providers, once);
  }
}
