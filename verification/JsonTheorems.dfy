/** Reading what was printed gives the value back without its undefined members. */
module JsonTheorems {
  import opened Basics
  import opened Texts
  import opened Json

  ghost predicate AllWhite(t: Text) {
    forall i :: 0 <= i < |t| ==> White(t[i])
  }

  lemma {:induction false} SkipsWhite(white: Text, t: Text)
    requires AllWhite(white) && (t != [] ==> !White(t[0]))
    ensures Skip(white + t) == t
  {
    if white == [] {
      assert white + t == t;
    } else {
      assert (white + t)[1..] == white[1..] + t;
      SkipsWhite(white[1..], t);
    }
  }

  /* Numbers. */

  lemma {:induction false} DigitRunOf(digits: Text, rest: Text)
    requires forall i :: 0 <= i < |digits| ==> IsDigit(digits[i])
    requires rest != [] ==> !IsDigit(rest[0])
    ensures DigitRun(digits + rest) == |digits|
  {
    if digits == [] {
      assert digits + rest == rest;
    } else {
      assert (digits + rest)[1..] == digits[1..] + rest;
      DigitRunOf(digits[1..], rest);
    }
  }

  lemma {:induction false} DecimalOfDigits(n: nat)
    ensures Decimal(Digits(n)) == n
  {
    var t := Digits(n);
    if n < 10 {
      assert t[..|t| - 1] == [];
      assert Decimal([]) == 0;
    } else {
      DecimalOfDigits(n / 10);
      assert t[..|t| - 1] == Digits(n / 10);
    }
  }

  lemma {:induction false} DigitsBegin(n: nat)
    requires n > 0
    ensures Digits(n)[0] != ZERO
  {
    if n >= 10 {
      DigitsBegin(n / 10);
    }
  }

  lemma {:induction false} DecimalPastZeros(n: nat, digits: Text)
    requires forall i :: 0 <= i < |digits| ==> IsDigit(digits[i])
    ensures Decimal(Zeros(n) + digits) == Decimal(digits)
    decreases |digits|, n
  {
    if digits == [] {
      if n > 0 {
        ZerosAtEnd(n - 1);
        DecimalPastZeros(n - 1, []);
        assert Zeros(n) + [] == (Zeros(n - 1) + []) + [ZERO];
      } else {
        assert Zeros(0) + [] == [];
      }
    } else {
      var front := digits[..|digits| - 1];
      DecimalPastZeros(n, front);
      assert (Zeros(n) + digits)[..n + |digits| - 1] == Zeros(n) + front;
    }
  }

  lemma {:induction false} ZerosAtEnd(n: nat)
    ensures Zeros(n + 1) == Zeros(n) + [ZERO]
  {
    if n > 0 {
      ZerosAtEnd(n - 1);
    }
  }

  lemma ReducedIs(s: nat, scale: int)
    requires s % 10 != 0
    ensures Reduced(s, scale) == (s, scale)
  {
  }

  lemma DecimalOfMore(digits: Text, j: nat)
    requires (forall i :: 0 <= i < |digits| ==> IsDigit(digits[i])) && j > 0
    ensures Decimal(digits + Zeros(j)) == Decimal(digits + Zeros(j - 1)) * 10
  {
    ZerosAtEnd(j - 1);
    assert (digits + Zeros(j))[..|digits| + j - 1] == digits + Zeros(j - 1);
  }

  lemma ReducedOfTen(n: nat, scale: int)
    requires n > 0
    ensures Reduced(n * 10, scale) == Reduced(n, scale + 1)
  {
  }

  /** Zeros after the digits are taken into the scale. */
  lemma {:induction false} ReducedPastZeros(digits: Text, j: nat, s: nat, scale: int)
    requires (forall i :: 0 <= i < |digits| ==> IsDigit(digits[i])) && Decimal(digits) == s && s % 10 != 0
    ensures Decimal(digits + Zeros(j)) > 0
    ensures Reduced(Decimal(digits + Zeros(j)), scale) == (s, scale + j)
    decreases j
  {
    hide Decimal, Reduced;
    if j == 0 {
      assert digits + Zeros(0) == digits;
      ReducedIs(s, scale);
    } else {
      ReducedPastZeros(digits, j - 1, s, scale + 1);
      DecimalOfMore(digits, j);
      ReducedOfTen(Decimal(digits + Zeros(j - 1)), scale);
    }
  }

  ghost predicate AllDigits(t: Text) {
    forall i :: 0 <= i < |t| ==> IsDigit(t[i])
  }

  lemma DigitsAreRead(digits: Text, rest: Text)
    requires AllDigits(digits) && digits != [] && (rest != [] ==> !IsDigit(rest[0]))
    ensures ReadDigits(digits + rest) == Some((digits, rest))
  {
    DigitRunOf(digits, rest);
    assert (digits + rest)[..|digits|] == digits && (digits + rest)[|digits|..] == rest;
  }

  /** Digits without a leading zero, a fraction if there are digits for it, and an exponent. */
  lemma MagnitudeParts(whole: Text, tail: Text, fraction: Text, end: Text, e: int, rest: Text)
    requires AllDigits(whole) && whole != [] && (|whole| > 1 ==> whole[0] != ZERO)
    requires tail != [] ==> !IsDigit(tail[0])
    requires ReadFraction(tail) == Some((fraction, end)) && ReadExponent(end) == Some((e, rest))
    ensures ReadMagnitude(whole + tail) == Some((Reduced(Decimal(whole + fraction), e - |fraction|), rest))
  {
    hide Decimal, Reduced, DigitRun, ReadFraction, ReadExponent, IsDigit;
    DigitRunOf(whole, tail);
    assert (whole + tail)[0] == whole[0];
    assert (whole + tail)[..|whole|] == whole && (whole + tail)[|whole|..] == tail;
  }

  lemma NoFraction(rest: Text)
    requires rest == [] || rest[0] != POINT
    ensures ReadFraction(rest) == Some(([], rest))
  {
  }

  lemma FractionIsRead(digits: Text, rest: Text)
    requires AllDigits(digits) && digits != [] && (rest != [] ==> !IsDigit(rest[0]))
    ensures ReadFraction([POINT] + digits + rest) == Some((digits, rest))
  {
    DigitsAreRead(digits, rest);
    assert ([POINT] + digits + rest)[1..] == digits + rest;
  }

  lemma NoExponent(rest: Text)
    requires !GoesOnAsNumber(rest)
    ensures ReadExponent(rest) == Some((0, rest))
  {
  }

  /** An exponent with its sign. */
  lemma SignedIsRead(t: Text, digits: Text, rest: Text)
    requires |t| > 1 && t[0] == SMALL_E && (t[1] == PLUS || t[1] == MINUS)
    requires ReadDigits(t[2..]) == Some((digits, rest))
    ensures ReadExponent(t) == Some((if t[1] == MINUS then 0 - Decimal(digits) else Decimal(digits), rest))
  {
    hide ReadDigits, Decimal;
  }

  lemma ExponentIsRead(e: int, rest: Text)
    requires !GoesOnAsNumber(rest)
    ensures ReadExponent(Power(e) + rest) == Some((e, rest))
  {
    hide Decimal, Digits, ReadDigits, ReadExponent;
    var digits := Digits(if e < 0 then -e else e);
    var t := Power(e) + rest;
    DigitsAreRead(digits, rest);
    DecimalOfDigits(if e < 0 then -e else e);
    assert t[0] == SMALL_E && t[1] == (if e < 0 then MINUS else PLUS);
    assert t[2..] == digits + rest;
    SignedIsRead(t, digits, rest);
  }

  lemma DigitsOf(s: nat)
    requires s > 0
    ensures AllDigits(Digits(s)) && Decimal(Digits(s)) == s && Digits(s)[0] != ZERO
  {
    DigitsBegin(s);
    DecimalOfDigits(s);
  }

  lemma WholeIsRead(s: nat, scale: nat, rest: Text)
    requires s % 10 != 0 && !GoesOnAsNumber(rest)
    ensures ReadMagnitude(Digits(s) + Zeros(scale) + rest) == Some(((s, scale as int), rest))
  {
    hide ReadMagnitude, ReadFraction, ReadExponent, Decimal, Digits, Reduced;
    DigitsOf(s);
    var whole := Digits(s) + Zeros(scale);
    ReducedPastZeros(Digits(s), scale, s, 0);
    NoFraction(rest);
    NoExponent(rest);
    assert whole + [] == whole;
    MagnitudeParts(whole, rest, [], rest, 0, rest);
  }

  lemma PointInsideIsRead(s: nat, n: nat, rest: Text)
    requires s % 10 != 0 && 0 < n < |Digits(s)| && !GoesOnAsNumber(rest)
    ensures ReadMagnitude(Digits(s)[..n] + [POINT] + Digits(s)[n..] + rest) == Some(((s, n - |Digits(s)|), rest))
  {
    hide ReadMagnitude, ReadFraction, ReadExponent, Decimal, Digits, Reduced;
    DigitsOf(s);
    ReducedIs(s, n - |Digits(s)|);
    var d := Digits(s);
    var tail := [POINT] + d[n..] + rest;
    FractionIsRead(d[n..], rest);
    NoExponent(rest);
    assert d[..n] + d[n..] == d;
    MagnitudeParts(d[..n], tail, d[n..], rest, 0, rest);
    assert d[..n] + [POINT] + d[n..] + rest == d[..n] + tail;
  }

  lemma PointBeforeIsRead(s: nat, zeros: nat, rest: Text)
    requires s % 10 != 0 && !GoesOnAsNumber(rest)
    ensures ReadMagnitude([ZERO, POINT] + Zeros(zeros) + Digits(s) + rest) == Some(((s, 0 - zeros - |Digits(s)|), rest))
  {
    hide ReadMagnitude, ReadFraction, ReadExponent, Decimal, Digits, Reduced;
    DigitsOf(s);
    ReducedIs(s, 0 - zeros - |Digits(s)|);
    var d := Digits(s);
    var fraction := Zeros(zeros) + d;
    var tail := [POINT] + fraction + rest;
    FractionIsRead(fraction, rest);
    NoExponent(rest);
    DecimalPastZeros(zeros + 1, d);
    assert [ZERO] + fraction == Zeros(zeros + 1) + d;
    MagnitudeParts([ZERO], tail, fraction, rest, 0, rest);
    assert [ZERO, POINT] + Zeros(zeros) + d + rest == [ZERO] + tail;
  }

  lemma OneDigitIsRead(s: nat, e: int, rest: Text)
    requires s % 10 != 0 && |Digits(s)| == 1 && !GoesOnAsNumber(rest)
    ensures ReadMagnitude(Digits(s) + Power(e) + rest) == Some(((s, e), rest))
  {
    hide ReadMagnitude, ReadFraction, ReadExponent, Decimal, Digits, Reduced;
    var d, end := Digits(s), Power(e) + rest;
    DigitsOf(s);
    ReducedIs(s, e);
    ExponentIsRead(e, rest);
    NoFraction(end);
    assert d + [] == d && d + Power(e) + rest == d + end;
    MagnitudeParts(d, end, [], end, e, rest);
  }

  lemma MoreDigitsAreRead(s: nat, e: int, rest: Text)
    requires s % 10 != 0 && |Digits(s)| > 1 && !GoesOnAsNumber(rest)
    ensures ReadMagnitude(Digits(s)[..1] + ([POINT] + Digits(s)[1..]) + Power(e) + rest)
         == Some(((s, e - (|Digits(s)| - 1)), rest))
  {
    hide ReadMagnitude, ReadFraction, ReadExponent, Decimal, Digits, Reduced;
    var d, end := Digits(s), Power(e) + rest;
    DigitsOf(s);
    ReducedIs(s, e - (|d| - 1));
    ExponentIsRead(e, rest);
    FractionIsRead(d[1..], end);
    assert d[..1] + d[1..] == d;
    MagnitudeParts(d[..1], [POINT] + d[1..] + end, d[1..], end, e, rest);
    assert d[..1] + ([POINT] + d[1..]) + Power(e) + rest == d[..1] + ([POINT] + d[1..] + end);
  }

  lemma WithExponentIsRead(s: nat, scale: int, rest: Text)
    requires s % 10 != 0 && !GoesOnAsNumber(rest)
    requires var n := |Digits(s)| + scale; n < -5 || n > 21
    ensures ReadMagnitude(Magnitude(s, scale) + rest) == Some(((s, scale), rest))
  {
    hide ReadMagnitude, Digits;
    var d, e := Digits(s), |Digits(s)| + scale - 1;
    if |d| == 1 {
      OneDigitIsRead(s, e, rest);
    } else {
      MoreDigitsAreRead(s, e, rest);
    }
  }

  /** The four forms a number is printed in, told from where its point would stand. */
  lemma MagnitudeIsRead(s: nat, scale: int, rest: Text)
    requires s % 10 != 0 && !GoesOnAsNumber(rest)
    ensures ReadMagnitude(Magnitude(s, scale) + rest) == Some(((s, scale), rest))
  {
    hide ReadMagnitude, Digits;
    var n := |Digits(s)| + scale;
    if n < -5 || n > 21 {
      WithExponentIsRead(s, scale, rest);
    } else if scale >= 0 {
      WholeIsRead(s, scale, rest);
    } else if n > 0 {
      PointInsideIsRead(s, n, rest);
    } else {
      PointBeforeIsRead(s, -n, rest);
    }
  }

  lemma MagnitudeBegins(s: nat, scale: int)
    ensures Magnitude(s, scale) != [] && IsDigit(Magnitude(s, scale)[0])
  {
  }

  /** A number reads back: without its sign if it is zero, and as null if it is not finite. */
  lemma NumberIsRead(x: Number, rest: Text)
    requires !GoesOnAsNumber(rest)
    ensures ReadPrimitive(NumberText(x) + rest) == Some((Kept(Num(x)), rest))
  {
    hide ReadCharacters, ReadMagnitude, Magnitude;
    match x {
      case NotFinite => WordIsRead(NULL_TEXT, Null, rest);
      case Finite(negative, s, scale) =>
        var text := NumberText(x) + rest;
        if s == 0 {
          ZeroIsRead(rest);
        } else {
          MagnitudeIsRead(s, scale, rest);
          MagnitudeBegins(s, scale);
          if negative {
            assert text[1..] == Magnitude(s, scale) + rest;
          }
        }
    }
  }

  lemma ZeroIsRead(rest: Text)
    requires !GoesOnAsNumber(rest)
    ensures ReadMagnitude([ZERO] + rest) == Some(((0, 0), rest))
  {
    NoFraction(rest);
    NoExponent(rest);
    assert Decimal([]) == 0 && [ZERO] + [] == [ZERO] && [ZERO][..0] == [];
    MagnitudeParts([ZERO], rest, [], rest, 0, rest);
  }

  lemma WordIsRead(word: Text, v: Json, rest: Text)
    requires word != []
    ensures ReadWord(word, v, word + rest) == Some((v, rest))
  {
  }

  lemma StringIsRead(s: Text, rest: Text)
    ensures ReadPrimitive(Quoted(s) + rest) == Some((Str(s), rest))
  {
    hide ReadCharacters, Escape, ReadMagnitude, ReadWord;
    QuotingRoundTrip(s, rest);
    assert (Quoted(s) + rest)[1..] == Escape(s) + [QUOTE] + rest;
  }

  lemma WordPrimitiveIsRead(v: Json, rest: Text)
    requires v.Null? || v.Bool?
    ensures ReadPrimitive(Stringify(v) + rest) == Some((v, rest))
  {
    hide ReadCharacters, ReadMagnitude, ReadWord;
    WordIsRead(Stringify(v), v, rest);
  }

  lemma PrimitiveIsRead(v: Json, rest: Text)
    requires Primitive(v) && Defined(v) && !GoesOnAsNumber(rest)
    ensures ReadPrimitive(Stringify(v) + rest) == Some((Kept(v), rest))
  {
    hide ReadPrimitive, Quoted, NumberText;
    match v {
      case Null => WordPrimitiveIsRead(v, rest);
      case Bool(_) => WordPrimitiveIsRead(v, rest);
      case Num(x) => NumberIsRead(x, rest);
      case Str(s) => StringIsRead(s, rest);
    }
  }

  /** What a printed value can begin with. */
  predicate BeginsValue(t: Text) {
    t != [] && !White(t[0]) && t[0] != CLOSE_LIST && t[0] != CLOSE_OBJECT
  }

  lemma PrimitiveBegins(v: Json)
    requires Primitive(v)
    ensures BeginsValue(Stringify(v)) && Stringify(v)[0] != OPEN_LIST && Stringify(v)[0] != OPEN_OBJECT
  {
    if v.Num? && v.x.Finite? {
      MagnitudeBegins(v.x.digits, v.x.scale);
    }
  }

  lemma PrintBegins(v: Json, depth: nat, width: nat)
    ensures BeginsValue(Print(v, depth, width))
  {
    if Primitive(v) {
      PrimitiveBegins(v);
    }
  }

  /* Lists of parts. */

  lemma JoinOfMore(separator: Text, part: Text, parts: seq<Text>)
    requires parts != []
    ensures Join(separator, [part] + parts) == part + separator + Join(separator, parts)
  {
    assert ([part] + parts)[1..] == parts;
  }

  lemma IndentedFirst(indent: Text, part: Text, parts: seq<Text>)
    ensures Indented(indent, [part] + parts) == [indent + part] + Indented(indent, parts)
  {
    assert ([part] + parts)[1..] == parts;
  }

  lemma NotIndented(parts: seq<Text>)
    ensures Indented([], parts) == parts
  {
    forall i | 0 <= i < |parts| ensures Indented([], parts)[i] == parts[i] {
      assert [] + parts[i] == parts[i];
    }
  }

  lemma {:induction false} PrimitivesPrintAlike(items: seq<Json>, depth: nat)
    requires AllPrimitive(items) && DefinedItems(items)
    ensures StringifyAll(items) == PrintItems(items, depth)
  {
    if items != [] {
      assert items[0] in items;
      PrimitivesPrintAlike(items[1..], depth);
    }
  }

  /** Printed parts, one after the other, up to a closing bracket. */
  function Sequence(parts: seq<Text>, lead: Text, gap: Text, tail: Text, close: Unit, rest: Text): Text {
    Join([COMMA] + gap, Indented(lead, parts)) + tail + [close] + rest
  }

  lemma SequenceOfOne(part: Text, lead: Text, gap: Text, tail: Text, close: Unit, rest: Text)
    ensures Sequence([part], lead, gap, tail, close, rest) == lead + part + (tail + [close] + rest)
  {
    IndentedFirst(lead, part, []);
    assert [part] == [part] + [];
  }

  lemma SequenceOfMore(part: Text, parts: seq<Text>, lead: Text, gap: Text, tail: Text, close: Unit, rest: Text)
    requires parts != []
    ensures Sequence([part] + parts, lead, gap, tail, close, rest)
         == lead + part + ([COMMA] + (gap + Sequence(parts, lead, gap, tail, close, rest)))
  {
    IndentedFirst(lead, part, parts);
    JoinOfMore([COMMA] + gap, lead + part, Indented(lead, parts));
  }

  lemma AfterTail(tail: Text, close: Unit, rest: Text)
    requires AllWhite(tail) && (close == CLOSE_LIST || close == CLOSE_OBJECT)
    ensures !GoesOnAsNumber(tail + [close] + rest)
    ensures Skip(tail + [close] + rest) == [close] + rest
  {
    assert tail + [close] + rest == tail + ([close] + rest);
    SkipsWhite(tail, [close] + rest);
    if tail != [] {
      assert White(tail[0]);
    }
  }

  /* Steps of the reader. */

  /** A value behind white space is read as it is without it. */
  lemma ReadBehindWhite(white: Text, t: Text)
    requires AllWhite(white) && t != [] && !White(t[0])
    ensures Read(white + t) == Read(t)
  {
    SkipsWhite(white, t);
    SkipsWhite([], t);
    assert [] + t == t;
  }

  lemma PrimitiveRead(t: Text)
    requires BeginsValue(t) && t[0] != OPEN_LIST && t[0] != OPEN_OBJECT
    ensures Read(t) == ReadPrimitive(t)
  {
    SkipsWhite([], t);
    assert [] + t == t;
  }

  /** A list or object whose first item stands behind white space. */
  lemma Opened(open: Unit, white: Text, u: Text)
    requires AllWhite(white) && BeginsValue(u) && (open == OPEN_LIST || open == OPEN_OBJECT)
    ensures open == OPEN_LIST ==>
      Read([open] + (white + u)) == match ReadItems(white + u) case None => None
        case Some((items, r)) => Some((Arr(items), r))
    ensures open == OPEN_OBJECT ==>
      Read([open] + (white + u)) == match ReadMembers(white + u) case None => None
        case Some((members, r)) => Some((Obj(members), r))
  {
    var t := [open] + (white + u);
    SkipsWhite([], t);
    assert [] + t == t && t[1..] == white + u;
    SkipsWhite(white, u);
  }

  lemma EmptyIsRead(open: Unit, close: Unit, rest: Text)
    requires (open == OPEN_LIST && close == CLOSE_LIST) || (open == OPEN_OBJECT && close == CLOSE_OBJECT)
    ensures Read([open, close] + rest) == Some((if open == OPEN_LIST then Arr([]) else Obj([]), rest))
  {
    var t := [open, close] + rest;
    assert t[1..] == [close] + rest;
    assert ([close] + rest)[1..] == rest;
  }

  lemma LastItem(t: Text, d: Json, after: Text, rest: Text)
    requires Read(t) == Some((d, after)) && Skip(after) == [CLOSE_LIST] + rest
    ensures ReadItems(t) == Some(([d], rest))
  {
  }

  lemma OneMoreItem(t: Text, d: Json, u: Text, ds: seq<Json>, rest: Text)
    requires Read(t) == Some((d, [COMMA] + u)) && ReadItems(u) == Some((ds, rest))
    ensures ReadItems(t) == Some(([d] + ds, rest))
  {
    SkipsWhite([], [COMMA] + u);
    assert [] + ([COMMA] + u) == [COMMA] + u && ([COMMA] + u)[1..] == u;
  }

  lemma LastMember(t: Text, m: Member, after: Text, rest: Text)
    requires ReadMember(t) == Some((m, after)) && Skip(after) == [CLOSE_OBJECT] + rest
    ensures ReadMembers(t) == Some(([m], rest))
  {
  }

  lemma OneMoreMember(t: Text, m: Member, u: Text, ms: seq<Member>, rest: Text)
    requires ReadMember(t) == Some((m, [COMMA] + u)) && ReadMembers(u) == Some((ms, rest))
    ensures ReadMembers(t) == Some(([m] + ms, rest))
  {
    SkipsWhite([], [COMMA] + u);
    assert [] + ([COMMA] + u) == [COMMA] + u && ([COMMA] + u)[1..] == u;
  }

  lemma KeyIsRead(key: Text, printed: Text, after: Text)
    ensures ReadCharacters((Prefix(key) + printed + after)[1..]) == Some((key, [COLON, SPACE] + (printed + after)))
  {
    QuotingRoundTrip(key, [COLON, SPACE] + (printed + after));
    assert (Prefix(key) + printed + after)[1..] == Escape(key) + [QUOTE] + ([COLON, SPACE] + (printed + after));
  }

  /** Behind white space a member is its quoted key, a colon and its value. */
  lemma MemberBehindWhite(white: Text, u: Text, key: Text, w: Text, d: Json, after: Text)
    requires AllWhite(white) && u != [] && u[0] == QUOTE && ReadCharacters(u[1..]) == Some((key, w))
    requires w != [] && w[0] == COLON && Read(w[1..]) == Some((d, after))
    ensures ReadMember(white + u) == Some((Member(key, d), after))
  {
    hide Read, ReadCharacters;
    SkipsWhite(white, u);
    SkipsWhite([], w);
    assert [] + w == w;
  }

  lemma MemberIsRead(key: Text, d: Json, white: Text, printed: Text, after: Text)
    requires AllWhite(white) && BeginsValue(printed) && Read(printed + after) == Some((d, after))
    ensures ReadMember(white + (Prefix(key) + printed) + after) == Some((Member(key, d), after))
  {
    hide Read, Prefix, ReadMember, ReadCharacters;
    var u, w := Prefix(key) + printed + after, [COLON, SPACE] + (printed + after);
    assert white + (Prefix(key) + printed) + after == white + u;
    PrefixBegins(key);
    KeyIsRead(key, printed, after);
    assert w[1..] == [SPACE] + (printed + after);
    ReadBehindWhite([SPACE], printed + after);
    MemberBehindWhite(white, u, key, w, d, after);
  }

  lemma PrefixBegins(key: Text)
    ensures Prefix(key) != [] && Prefix(key)[0] == QUOTE
  {
  }

  /* Lists and objects as printed. */

  lemma InlineIs(items: seq<Json>, depth: nat, rest: Text)
    requires AllPrimitive(items) && DefinedItems(items)
    ensures Inline(items) + rest
         == [OPEN_LIST] + ([] + Sequence(PrintItems(items, depth), [], [SPACE], [], CLOSE_LIST, rest))
  {
    hide AllPrimitive, DefinedItems, StringifyAll, PrintItems, Indented, Join;
    PrimitivesPrintAlike(items, depth);
    NotIndented(StringifyAll(items));
    assert [COMMA] + [SPACE] == [COMMA, SPACE];
    var parts := Join([COMMA, SPACE], StringifyAll(items));
    assert [OPEN_LIST] + parts + [CLOSE_LIST] + rest == [OPEN_LIST] + ([] + (parts + [] + [CLOSE_LIST] + rest));
  }

  lemma BrokenIs(open: Unit, parts: seq<Text>, depth: nat, close: Unit, rest: Text)
    ensures [open] + Broken(parts, depth) + [close] + rest
         == [open] + ([NEWLINE] + Sequence(parts, Tabs(depth + 1), [NEWLINE], [NEWLINE] + Tabs(depth), close, rest))
  {
    assert [COMMA] + [NEWLINE] == [COMMA, NEWLINE];
  }

  /** What a sequence begins with behind its white space: the first part. */
  lemma SequenceBegins(parts: seq<Text>, lead: Text, gap: Text, tail: Text, close: Unit, rest: Text) returns (u: Text)
    requires parts != [] && BeginsValue(parts[0])
    ensures BeginsValue(u) && Sequence(parts, lead, gap, tail, close, rest) == lead + u
  {
    var part, more := parts[0], parts[1..];
    assert parts == [part] + more;
    if more == [] {
      u := part + (tail + [close] + rest);
      SequenceOfOne(part, lead, gap, tail, close, rest);
      assert lead + part + (tail + [close] + rest) == lead + u;
    } else {
      u := part + ([COMMA] + (gap + Sequence(more, lead, gap, tail, close, rest)));
      SequenceOfMore(part, more, lead, gap, tail, close, rest);
    }
  }

  lemma SequenceOpened(open: Unit, first: Text, parts: seq<Text>, lead: Text, gap: Text, tail: Text, close: Unit,
                       rest: Text)
    requires AllWhite(first) && AllWhite(lead) && parts != [] && BeginsValue(parts[0])
    requires open == OPEN_LIST || open == OPEN_OBJECT
    ensures var t := first + Sequence(parts, lead, gap, tail, close, rest);
      && (open == OPEN_LIST ==>
            Read([open] + t) == match ReadItems(t) case None => None case Some((items, r)) => Some((Arr(items), r)))
      && (open == OPEN_OBJECT ==>
            Read([open] + t) == match ReadMembers(t) case None => None
              case Some((members, r)) => Some((Obj(members), r)))
  {
    hide Read, ReadItems, ReadMembers;
    var u := SequenceBegins(parts, lead, gap, tail, close, rest);
    assert first + (lead + u) == (first + lead) + u;
    Opened(open, first + lead, u);
  }

  /** How a list and an object are laid out between their brackets. */
  datatype Layout = Layout(first: Text, lead: Text, gap: Text, tail: Text)

  ghost predicate WhiteLayout(l: Layout) {
    AllWhite(l.first) && AllWhite(l.lead) && AllWhite(l.gap) && AllWhite(l.tail)
  }

  function Inner(parts: seq<Text>, l: Layout, close: Unit, rest: Text): Text {
    l.first + Sequence(parts, l.lead, l.gap, l.tail, close, rest)
  }

  function Later(l: Layout): Layout {
    l.(first := l.gap)
  }

  lemma InnerOfOne(part: Text, l: Layout, close: Unit, rest: Text)
    ensures Inner([part], l, close, rest) == (l.first + l.lead) + part + (l.tail + [close] + rest)
  {
    SequenceOfOne(part, l.lead, l.gap, l.tail, close, rest);
    assert l.first + (l.lead + part + (l.tail + [close] + rest))
        == (l.first + l.lead) + part + (l.tail + [close] + rest);
  }

  lemma InnerOfMore(part: Text, parts: seq<Text>, l: Layout, close: Unit, rest: Text)
    requires parts != []
    ensures Inner([part] + parts, l, close, rest)
         == (l.first + l.lead) + part + ([COMMA] + Inner(parts, Later(l), close, rest))
  {
    SequenceOfMore(part, parts, l.lead, l.gap, l.tail, close, rest);
    var more := [COMMA] + (l.gap + Sequence(parts, l.lead, l.gap, l.tail, close, rest));
    assert l.first + (l.lead + part + more) == (l.first + l.lead) + part + more;
  }

  function BrokenLayout(depth: nat): Layout {
    Layout([NEWLINE], Tabs(depth + 1), [NEWLINE], [NEWLINE] + Tabs(depth))
  }

  const INLINE := Layout([], [], [SPACE], [])

  /* The theorem, by the structure of the value. */

  /** Printing any value, at any depth and behind any prefix, and reading it back gives the
      value without its undefined members, and stops where it ended. */
  lemma {:induction false} PrintIsRead(v: Json, depth: nat, width: nat, rest: Text)
    requires Defined(v) && !GoesOnAsNumber(rest)
    ensures Read(Print(v, depth, width) + rest) == Some((Kept(v), rest))
    decreases v, 0
  {
    hide Read, ReadPrimitive;
    match v {
      case Arr(items) => ListIsRead(items, depth, width, rest);
      case Obj(members) => ObjectIsRead(members, depth, width, rest);
      case Undefined =>
      case _ =>
        PrimitiveIsRead(v, rest);
        PrimitiveBegins(v);
        PrimitiveRead(Stringify(v) + rest);
    }
  }

  lemma {:induction false} ListIsRead(items: seq<Json>, depth: nat, width: nat, rest: Text)
    requires DefinedItems(items) && !GoesOnAsNumber(rest)
    ensures Read(Print(Arr(items), depth, width) + rest) == Some((Arr(KeptItems(items)), rest))
    decreases items, 3
  {
    hide Read, ReadItems, Inline, Broken;
    if items == [] {
      EmptyIsRead(OPEN_LIST, CLOSE_LIST, rest);
    } else if AllPrimitive(items) && depth * TAB_WIDTH + width + |Inline(items)| + 1 <= PRINT_WIDTH {
      InlineIs(items, depth, rest);
      InnerIsRead(items, depth, INLINE, rest);
    } else {
      BrokenIs(OPEN_LIST, PrintItems(items, depth + 1), depth, CLOSE_LIST, rest);
      InnerIsRead(items, depth + 1, BrokenLayout(depth), rest);
    }
  }

  lemma {:induction false} InnerIsRead(items: seq<Json>, depth: nat, l: Layout, rest: Text)
    requires items != [] && DefinedItems(items) && WhiteLayout(l)
    ensures Read([OPEN_LIST] + Inner(PrintItems(items, depth), l, CLOSE_LIST, rest))
        == Some((Arr(KeptItems(items)), rest))
    decreases items, 2
  {
    hide Read, ReadItems, Sequence;
    PrintBegins(items[0], depth, 0);
    SequenceOpened(OPEN_LIST, l.first, PrintItems(items, depth), l.lead, l.gap, l.tail, CLOSE_LIST, rest);
    ItemsAreRead(items, depth, l, rest);
  }

  lemma {:induction false} ItemsAreRead(items: seq<Json>, depth: nat, l: Layout, rest: Text)
    requires items != [] && DefinedItems(items) && WhiteLayout(l)
    ensures ReadItems(Inner(PrintItems(items, depth), l, CLOSE_LIST, rest)) == Some((KeptItems(items), rest))
    decreases items, 1
  {
    hide Read, ReadItems, Inner, Print;
    var v, more := items[0], items[1..];
    var part, parts := Print(v, depth, 0), PrintItems(more, depth);
    var white := l.first + l.lead;
    PrintBegins(v, depth, 0);
    assert PrintItems(items, depth) == [part] + parts;
    assert KeptItems(items) == [Kept(v)] + KeptItems(more);
    if more == [] {
      var after := l.tail + [CLOSE_LIST] + rest;
      AfterTail(l.tail, CLOSE_LIST, rest);
      PrintIsRead(v, depth, 0, after);
      ItemBehind(white, part, after, Kept(v));
      InnerOfOne(part, l, CLOSE_LIST, rest);
      assert [part] + parts == [part] && [Kept(v)] + KeptItems(more) == [Kept(v)];
      LastItem(white + part + after, Kept(v), after, rest);
    } else {
      var u := Inner(parts, Later(l), CLOSE_LIST, rest);
      PrintIsRead(v, depth, 0, [COMMA] + u);
      ItemBehind(white, part, [COMMA] + u, Kept(v));
      InnerOfMore(part, parts, l, CLOSE_LIST, rest);
      ItemsAreRead(more, depth, Later(l), rest);
      OneMoreItem(white + part + ([COMMA] + u), Kept(v), u, KeptItems(more), rest);
    }
  }

  lemma ItemBehind(white: Text, part: Text, after: Text, d: Json)
    requires AllWhite(white) && BeginsValue(part) && Read(part + after) == Some((d, after))
    ensures Read(white + part + after) == Some((d, after))
  {
    assert white + part + after == white + (part + after);
    ReadBehindWhite(white, part + after);
  }

  lemma {:induction false} NothingDefined(members: seq<Member>, depth: nat)
    ensures PrintMembers(members, depth) == [] <==> KeptMembers(members) == []
  {
    if members != [] && members[0].value.Undefined? {
      NothingDefined(members[1..], depth);
    }
  }

  lemma {:induction false} MembersBegin(members: seq<Member>, depth: nat)
    requires PrintMembers(members, depth) != []
    ensures BeginsValue(PrintMembers(members, depth)[0])
  {
    if members[0].value.Undefined? {
      MembersBegin(members[1..], depth);
    } else {
      PrefixBegins(members[0].key);
    }
  }

  lemma {:induction false} ObjectIsRead(members: seq<Member>, depth: nat, width: nat, rest: Text)
    requires DefinedMembers(members) && !GoesOnAsNumber(rest)
    ensures Read(Print(Obj(members), depth, width) + rest) == Some((Obj(KeptMembers(members)), rest))
    decreases members, 3
  {
    hide Read, ReadMembers, Broken, Sequence;
    var parts := PrintMembers(members, depth + 1);
    NothingDefined(members, depth + 1);
    if parts == [] {
      EmptyIsRead(OPEN_OBJECT, CLOSE_OBJECT, rest);
    } else {
      var l := BrokenLayout(depth);
      BrokenIs(OPEN_OBJECT, parts, depth, CLOSE_OBJECT, rest);
      MembersBegin(members, depth + 1);
      SequenceOpened(OPEN_OBJECT, l.first, parts, l.lead, l.gap, l.tail, CLOSE_OBJECT, rest);
      MembersAreRead(members, depth + 1, l, rest);
    }
  }

  lemma {:induction false} MembersAreRead(members: seq<Member>, depth: nat, l: Layout, rest: Text)
    requires PrintMembers(members, depth) != [] && DefinedMembers(members) && WhiteLayout(l)
    ensures ReadMembers(Inner(PrintMembers(members, depth), l, CLOSE_OBJECT, rest))
        == Some((KeptMembers(members), rest))
    decreases members, 1
  {
    hide Read, ReadMembers, ReadMember, Inner, Print, Prefix;
    var more := members[1..];
    if members[0].value.Undefined? {
      MembersAreRead(more, depth, l, rest);
    } else {
      var key, v := members[0].key, members[0].value;
      var printed := Print(v, depth, |Prefix(key)|);
      var part, parts := Prefix(key) + printed, PrintMembers(more, depth);
      var white, m := l.first + l.lead, Member(key, Kept(v));
      PrintBegins(v, depth, |Prefix(key)|);
      assert PrintMembers(members, depth) == [part] + parts;
      assert KeptMembers(members) == [m] + KeptMembers(more);
      NothingDefined(more, depth);
      if parts == [] {
        var after := l.tail + [CLOSE_OBJECT] + rest;
        AfterTail(l.tail, CLOSE_OBJECT, rest);
        PrintIsRead(v, depth, |Prefix(key)|, after);
        MemberIsRead(key, Kept(v), white, printed, after);
        InnerOfOne(part, l, CLOSE_OBJECT, rest);
        assert [part] + parts == [part] && [m] + KeptMembers(more) == [m];
        LastMember(white + part + after, m, after, rest);
      } else {
        var u := Inner(parts, Later(l), CLOSE_OBJECT, rest);
        PrintIsRead(v, depth, |Prefix(key)|, [COMMA] + u);
        MemberIsRead(key, Kept(v), white, printed, [COMMA] + u);
        InnerOfMore(part, parts, l, CLOSE_OBJECT, rest);
        MembersAreRead(more, depth, Later(l), rest);
        OneMoreMember(white + part + ([COMMA] + u), m, u, KeptMembers(more), rest);
      }
    }
  }

  /* What is read holds nothing undefined. */

  lemma {:induction false} ReadIsDefined(t: Text)
    ensures Read(t).Some? ==> Defined(Read(t).value.0)
    decreases |t|, 0
  {
    var u := Skip(t);
    if u != [] && u[0] == OPEN_LIST {
      ReadItemsAreDefined(u[1..]);
    } else if u != [] && u[0] == OPEN_OBJECT {
      ReadMembersAreDefined(u[1..]);
    } else {
      ReadPrimitiveIsDefined(u);
    }
  }

  lemma ReadPrimitiveIsDefined(t: Text)
    ensures ReadPrimitive(t).Some? ==> Defined(ReadPrimitive(t).value.0)
  {
  }

  lemma {:induction false} ReadItemsAreDefined(t: Text)
    ensures ReadItems(t).Some? ==> DefinedItems(ReadItems(t).value.0)
    decreases |t|, 1
  {
    ReadIsDefined(t);
    if Read(t).Some? {
      var u := Skip(Read(t).value.1);
      if u != [] && u[0] == COMMA {
        ReadItemsAreDefined(u[1..]);
      }
    }
  }

  lemma {:induction false} ReadMembersAreDefined(t: Text)
    ensures ReadMembers(t).Some? ==> DefinedMembers(ReadMembers(t).value.0)
    decreases |t|, 2
  {
    ReadMemberIsDefined(t);
    if ReadMember(t).Some? {
      var u := Skip(ReadMember(t).value.1);
      if u != [] && u[0] == COMMA {
        ReadMembersAreDefined(u[1..]);
      }
    }
  }

  lemma {:induction false} ReadMemberIsDefined(t: Text)
    ensures ReadMember(t).Some? ==> Defined(ReadMember(t).value.0.value)
    decreases |t|, 1
  {
    var u := Skip(t);
    if u != [] && u[0] == QUOTE && ReadCharacters(u[1..]).Some? {
      var w := Skip(ReadCharacters(u[1..]).value.1);
      if w != [] && w[0] == COLON {
        ReadIsDefined(w[1..]);
      }
    }
  }

  /** Keeping what is printed keeps an undefined item undefined. */
  lemma {:induction false} KeptIsDefined(v: Json)
    ensures Defined(Kept(v)) <==> Defined(v)
    decreases v, 0
  {
    match v {
      case Arr(items) => KeptItemsAreDefined(items);
      case Obj(members) => KeptMembersAreDefined(members);
      case _ =>
    }
  }

  lemma {:induction false} KeptItemsAreDefined(items: seq<Json>)
    ensures DefinedItems(KeptItems(items)) <==> DefinedItems(items)
    decreases items, 1
  {
    if items != [] {
      KeptIsDefined(items[0]);
      KeptItemsAreDefined(items[1..]);
      assert ([Kept(items[0])] + KeptItems(items[1..]))[1..] == KeptItems(items[1..]);
    }
  }

  lemma {:induction false} KeptMembersAreDefined(members: seq<Member>)
    ensures DefinedMembers(KeptMembers(members)) <==> DefinedMembers(members)
    decreases members, 1
  {
    if members != [] {
      KeptMembersAreDefined(members[1..]);
      if !members[0].value.Undefined? {
        var m := Member(members[0].key, Kept(members[0].value));
        KeptIsDefined(members[0].value);
        assert ([m] + KeptMembers(members[1..]))[1..] == KeptMembers(members[1..]);
      }
    }
  }

  /** A printed file reads back as what was kept of the value, exactly when no list in it has an
      undefined item and it is not undefined itself. */
  lemma FileRoundTrip(v: Json)
    ensures ReadFile(PrintFile(v)) == Some(Kept(v)) <==> Defined(v)
  {
    if Defined(v) {
      PrintIsRead(v, 0, 0, [NEWLINE]);
      SkipsWhite([NEWLINE], []);
      assert [NEWLINE] + [] == [NEWLINE];
    } else {
      ReadIsDefined(PrintFile(v));
      KeptIsDefined(v);
    }
  }

  /** A list of one undefined item is worse than unreadable: it reads back as the empty list. */
  lemma LoneUndefinedReadsEmpty(rest: Text)
    ensures Read(Print(Arr([Undefined]), 0, 0) + rest) == Some((Arr([]), rest))
  {
    var items := [Undefined];
    assert items[1..] == [];
    assert StringifyAll(items) == [[]];
    assert Inline(items) == [OPEN_LIST, CLOSE_LIST];
    EmptyIsRead(OPEN_LIST, CLOSE_LIST, rest);
  }
}
