/** Small shared vocabulary: optional values, outcomes, and facts about sequences
    that several parts of the model need. */
module Basics {

  datatype Option<+T> = None | Some(value: T)

  datatype Result<+T, +E> = Ok(value: T) | Err(error: E)

  /** The set of elements of a sequence. */
  function Elems<T>(s: seq<T>): set<T> {
    set x | x in s
  }

  predicate Distinct<T(==)>(s: seq<T>) {
    forall i, j :: 0 <= i < j < |s| ==> s[i] != s[j]
  }

  /** The first position of x in s. */
  function IndexOf<T(==)>(s: seq<T>, x: T): (i: nat)
    requires x in s
    ensures i < |s| && s[i] == x
    ensures forall j :: 0 <= j < i ==> s[j] != x
  {
    if s[0] == x then 0 else 1 + IndexOf(s[1..], x)
  }

  lemma ElemsOfSum<T>(a: seq<T>, b: seq<T>)
    ensures Elems(a + b) == Elems(a) + Elems(b)
  {
    forall x ensures x in a + b <==> x in a || x in b {}
  }

  function Map<T, U>(f: T -> U, s: seq<T>): (r: seq<U>)
    ensures |r| == |s|
    ensures forall i :: 0 <= i < |s| ==> r[i] == f(s[i])
  {
    if s == [] then [] else [f(s[0])] + Map(f, s[1..])
  }

  function Filter<T(!new)>(keep: T -> bool, s: seq<T>): (r: seq<T>)
    ensures forall x :: x in r <==> x in s && keep(x)
    ensures |r| <= |s|
  {
    if s == [] then []
    else if keep(s[0]) then [s[0]] + Filter(keep, s[1..])
    else Filter(keep, s[1..])
  }

  lemma {:induction false} FilterOfSum<T(!new)>(keep: T -> bool, a: seq<T>, b: seq<T>)
    ensures Filter(keep, a + b) == Filter(keep, a) + Filter(keep, b)
  {
    if a == [] {
      assert a + b == b;
    } else {
      assert (a + b)[1..] == a[1..] + b;
      FilterOfSum(keep, a[1..], b);
    }
  }

  /** A sequence without its repetitions, first occurrences kept. */
  function Unique<T(==)>(s: seq<T>): (r: seq<T>)
    ensures Elems(r) == Elems(s)
    ensures Distinct(r)
  {
    if s == [] then []
    else
      var front, last := s[..|s| - 1], s[|s| - 1];
      assert s == front + [last];
      ElemsOfSum(front, [last]);
      ElemsOfSum(Unique(front), [last]);
      if last in front then
        assert last in Elems(front);
        Unique(front)
      else
        assert last !in Unique(front) by { assert last !in Elems(Unique(front)); }
        Unique(front) + [last]
  }

  /* Code-unit order on strings. */

  predicate Before(a: string, b: string) {
    if b == "" then false
    else if a == "" then true
    else a[0] < b[0] || (a[0] == b[0] && Before(a[1..], b[1..]))
  }

  lemma {:induction false} BeforeTotal(a: string, b: string)
    ensures Before(a, b) || a == b || Before(b, a)
  {
    if a != "" && b != "" && a[0] == b[0] {
      BeforeTotal(a[1..], b[1..]);
      assert a == [a[0]] + a[1..] && b == [b[0]] + b[1..];
    }
  }

  lemma {:induction false} BeforeIrreflexive(a: string)
    ensures !Before(a, a)
  {
    if a != "" {
      BeforeIrreflexive(a[1..]);
    }
  }

  lemma {:induction false} BeforeTransitive(a: string, b: string, c: string)
    requires Before(a, b) && Before(b, c)
    ensures Before(a, c)
  {
    if a != "" && a[0] == b[0] && b[0] == c[0] {
      BeforeTransitive(a[1..], b[1..], c[1..]);
    }
  }

  lemma BeforeAsymmetric(a: string, b: string)
    requires Before(a, b)
    ensures !Before(b, a)
  {
    if Before(b, a) {
      BeforeTransitive(a, b, a);
      BeforeIrreflexive(a);
    }
  }

  /* Stable sorting by a string key. */

  function InsertByKey<T>(key: T -> string, x: T, s: seq<T>): seq<T> {
    if s == [] || !Before(key(s[0]), key(x)) then [x] + s
    else [s[0]] + InsertByKey(key, x, s[1..])
  }

  function SortByKey<T>(key: T -> string, s: seq<T>): seq<T> {
    if s == [] then [] else InsertByKey(key, s[0], SortByKey(key, s[1..]))
  }

  lemma {:induction false} InsertKeepsElements<T>(key: T -> string, x: T, s: seq<T>)
    ensures multiset(InsertByKey(key, x, s)) == multiset{x} + multiset(s)
  {
    if s == [] || !Before(key(s[0]), key(x)) {
    } else {
      InsertKeepsElements(key, x, s[1..]);
      assert s == [s[0]] + s[1..];
    }
  }

  lemma {:induction false} SortKeepsMultiset<T>(key: T -> string, s: seq<T>)
    ensures multiset(SortByKey(key, s)) == multiset(s)
  {
    if s != [] {
      SortKeepsMultiset(key, s[1..]);
      InsertKeepsElements(key, s[0], SortByKey(key, s[1..]));
      assert s == [s[0]] + s[1..];
    }
  }

  lemma SortKeepsElements<T>(key: T -> string, s: seq<T>)
    ensures Elems(SortByKey(key, s)) == Elems(s)
  {
    SortKeepsMultiset(key, s);
    var r := SortByKey(key, s);
    forall x | x in Elems(r) ensures x in Elems(s) {
      assert x in multiset(r);
    }
    forall x | x in Elems(s) ensures x in Elems(r) {
      assert x in multiset(s);
    }
  }

  /** No later element comes strictly before an earlier one. */
  ghost predicate SortedByKey<T>(key: T -> string, s: seq<T>) {
    forall i, j :: 0 <= i < j < |s| ==> !Before(key(s[j]), key(s[i]))
  }

  lemma {:induction false} InsertKeepsSorted<T>(key: T -> string, x: T, s: seq<T>)
    requires SortedByKey(key, s)
    ensures SortedByKey(key, InsertByKey(key, x, s))
  {
    var r := InsertByKey(key, x, s);
    if s == [] {
    } else if !Before(key(s[0]), key(x)) {
      forall j | 0 <= j < |s| ensures !Before(key(s[j]), key(x)) {
        if Before(key(s[j]), key(x)) {
          BeforeTotal(key(s[0]), key(s[j]));
          if Before(key(s[0]), key(s[j])) {
            BeforeTransitive(key(s[0]), key(s[j]), key(x));
          }
        }
      }
    } else {
      InsertKeepsSorted(key, x, s[1..]);
      InsertKeepsElements(key, x, s[1..]);
      var tail := InsertByKey(key, x, s[1..]);
      forall j | 0 <= j < |tail| ensures !Before(key(tail[j]), key(s[0])) {
        assert tail[j] in multiset(tail);
        if tail[j] == x {
          BeforeAsymmetric(key(s[0]), key(x));
        } else {
          assert tail[j] in s[1..];
        }
      }
    }
  }

  lemma {:induction false} SortSorts<T>(key: T -> string, s: seq<T>)
    ensures SortedByKey(key, SortByKey(key, s))
  {
    if s != [] {
      SortSorts(key, s[1..]);
      InsertKeepsSorted(key, s[0], SortByKey(key, s[1..]));
    }
  }
}
