/** Stable `x.y.z` versions and the ranges a module manifest may declare, as parsed values. */
module Versions {

  datatype Version = Version(major: nat, minor: nat, patch: nat)

  /** a is strictly older than b. */
  predicate Older(a: Version, b: Version) {
    if a.major != b.major then a.major < b.major
    else if a.minor != b.minor then a.minor < b.minor
    else a.patch < b.patch
  }

  datatype Operator = Exactly | Caret | Tilde | AtLeast | AtMost | Above | Below

  datatype Comparator = Comparator(op: Operator, bound: Version)

  /** Alternatives joined by `||`; each is a conjunction, and `*` is the empty conjunction. */
  type Range = seq<seq<Comparator>>

  const ANY: Range := [[]]

  function UpperBound(op: Operator, v: Version): Version {
    if op == Tilde then Version(v.major, v.minor + 1, 0)
    else if v.major > 0 then Version(v.major + 1, 0, 0)
    else if v.minor > 0 then Version(v.major, v.minor + 1, 0)
    else Version(v.major, v.minor, v.patch + 1)
  }

  predicate Matches(v: Version, c: Comparator) {
    match c.op
    case Caret => !Older(v, c.bound) && Older(v, UpperBound(Caret, c.bound))
    case Tilde => !Older(v, c.bound) && Older(v, UpperBound(Tilde, c.bound))
    case AtLeast => !Older(v, c.bound)
    case AtMost => !Older(c.bound, v)
    case Above => Older(c.bound, v)
    case Below => Older(v, c.bound)
    case Exactly => v == c.bound
  }

  predicate MatchesAll(v: Version, terms: seq<Comparator>) {
    forall i :: 0 <= i < |terms| ==> Matches(v, terms[i])
  }

  predicate Satisfies(v: Version, range: Range) {
    exists i :: 0 <= i < |range| && MatchesAll(v, range[i])
  }

  function NextPatch(v: Version): Version {
    v.(patch := v.patch + 1)
  }

  /** The versions tried when asking whether a range reaches below a platform line. */
  function LineCandidates(range: Range): set<Version> {
    {Version(0, 0, 0)}
    + (set i, j | 0 <= i < |range| && 0 <= j < |range[i]| :: range[i][j].bound)
    + (set i, j | 0 <= i < |range| && 0 <= j < |range[i]| :: NextPatch(range[i][j].bound))
  }

  /** The range admits one of its candidates from before the line the platform is on. */
  predicate ReachesOlderLine(range: Range, platform: Version) {
    var line := Version(platform.major, platform.minor, 0);
    exists v :: v in LineCandidates(range) && Older(v, line) && Satisfies(v, range)
  }

  function LowerBound(c: Comparator): Version {
    match c.op
    case Caret => c.bound
    case Tilde => c.bound
    case AtLeast => c.bound
    case Exactly => c.bound
    case Above => NextPatch(c.bound)
    case AtMost => Version(0, 0, 0)
    case Below => Version(0, 0, 0)
  }

  function Newest(a: Version, b: Version): Version {
    if Older(a, b) then b else a
  }

  function Least(terms: seq<Comparator>): Version {
    if terms == [] then Version(0, 0, 0) else Newest(LowerBound(terms[0]), Least(terms[1..]))
  }

  lemma {:induction false} LeastBounds(terms: seq<Comparator>, v: Version)
    requires MatchesAll(v, terms)
    ensures !Older(v, Least(terms))
    ensures forall i :: 0 <= i < |terms| ==> !Older(Least(terms), LowerBound(terms[i]))
    ensures Least(terms) == Version(0, 0, 0) || exists i :: 0 <= i < |terms| && Least(terms) == LowerBound(terms[i])
  {
    if terms != [] {
      assert Matches(v, terms[0]);
      assert forall i :: 0 <= i < |terms[1..]| ==> terms[1..][i] == terms[i + 1];
      LeastBounds(terms[1..], v);
      forall i | 0 <= i < |terms| ensures !Older(Least(terms), LowerBound(terms[i])) {
        if i > 0 {
          assert terms[i] == terms[1..][i - 1];
        }
      }
      if Least(terms) == LowerBound(terms[0]) {
      } else if Least(terms[1..]) != Version(0, 0, 0) {
        var i :| 0 <= i < |terms[1..]| && Least(terms[1..]) == LowerBound(terms[1..][i]);
        assert Least(terms) == LowerBound(terms[i + 1]);
      }
    }
  }

  lemma BetweenMatches(c: Comparator, least: Version, v: Version)
    requires Matches(v, c) && !Older(least, LowerBound(c)) && !Older(v, least)
    ensures Matches(least, c)
  {
  }

  /** Trying the named versions, their next patches and 0.0.0 is exact: a range admits
      something older than the platform's line just when it admits one of those. */
  lemma OlderLineIsExact(range: Range, platform: Version)
    ensures ReachesOlderLine(range, platform)
       <==> exists v :: Older(v, Version(platform.major, platform.minor, 0)) && Satisfies(v, range)
  {
    var line := Version(platform.major, platform.minor, 0);
    forall v | Older(v, line) && Satisfies(v, range)
      ensures ReachesOlderLine(range, platform)
    {
      var i :| 0 <= i < |range| && MatchesAll(v, range[i]);
      var least := Least(range[i]);
      LeastBounds(range[i], v);
      forall j | 0 <= j < |range[i]| ensures Matches(least, range[i][j]) {
        BetweenMatches(range[i][j], least, v);
      }
      assert MatchesAll(least, range[i]);
      assert least in LineCandidates(range) by {
        if least != Version(0, 0, 0) {
          var j :| 0 <= j < |range[i]| && least == LowerBound(range[i][j]);
        }
      }
    }
  }
}
