/** String literals of generated TypeScript and SQL. */
module Literals {
  import opened Basics
  import opened Texts

  /* ECMAScript string literals. */

  /** Replaces every escaped quote by a bare one, left to right. */
  function BareQuotes(t: Text): Text {
    if t == [] then []
    else if |t| >= 2 && t[0] == BACKSLASH && t[1] == QUOTE then [QUOTE] + BareQuotes(t[2..])
    else [t[0]] + BareQuotes(t[1..])
  }

  function EscapeApostrophes(t: Text): Text {
    if t == [] then []
    else (if t[0] == APOSTROPHE then [BACKSLASH, APOSTROPHE] else [t[0]]) + EscapeApostrophes(t[1..])
  }

  /** A literal in single quotes; in double quotes where that saves escaping. */
  function StringLiteral(value: Text): Text {
    var json := Quoted(value);
    if APOSTROPHE in value && QUOTE !in value then json
    else [APOSTROPHE] + EscapeApostrophes(BareQuotes(json[1..|json| - 1])) + [APOSTROPHE]
  }

  function EscapeMeaning(letter: Unit): Option<Unit> {
    if letter == APOSTROPHE || letter == QUOTE || letter == BACKSLASH then Some(letter)
    else if letter == 98 then Some(8)
    else if letter == 102 then Some(12)
    else if letter == 110 then Some(10)
    else if letter == 114 then Some(13)
    else if letter == 116 then Some(9)
    else if letter == 118 then Some(11)
    else None
  }

  /** Reads a string literal up to its closing quote, as ECMAScript does: no line feed or carriage
      return inside, a quote of the same kind ends it. */
  function ReadLiteral(quote: Unit, t: Text): (r: Option<(Text, Text)>) {
    if t == [] then None
    else if t[0] == quote then Some(([], t[1..]))
    else if t[0] == 10 || t[0] == 13 then None
    else if t[0] != BACKSLASH then After(t[0], ReadLiteral(quote, t[1..]))
    else if |t| == 1 then None
    else if t[1] == 117 then
      match ReadHex4(t[2..])
      case None => None
      case Some(u) => After(u, ReadLiteral(quote, t[6..]))
    else
      match EscapeMeaning(t[1])
      case None => None
      case Some(u) => After(u, ReadLiteral(quote, t[2..]))
  }

  /** The token a text starts with, and what follows it. */
  function ReadStringToken(t: Text): Option<(Text, Text)> {
    if t != [] && (t[0] == QUOTE || t[0] == APOSTROPHE) then ReadLiteral(t[0], t[1..]) else None
  }

  /** How a unit stands in a single-quoted literal. */
  function SingleQuotedUnit(u: Unit): Text {
    if u == QUOTE then [QUOTE] else if u == APOSTROPHE then [BACKSLASH, APOSTROPHE] else EscapeUnit(u)
  }

  function SingleQuoted(s: Text): Text {
    if s == [] then []
    else if Paired(s) then s[..2] + SingleQuoted(s[2..])
    else SingleQuotedUnit(s[0]) + SingleQuoted(s[1..])
  }

  lemma {:induction false} EscapedStartsBare(s: Text)
    ensures Escape(s) != [] ==> Escape(s)[0] != QUOTE
  {
  }

  lemma {:induction false} ApostrophesOfSum(a: Text, b: Text)
    ensures EscapeApostrophes(a + b) == EscapeApostrophes(a) + EscapeApostrophes(b)
  {
    if a == [] {
      assert a + b == b;
    } else {
      assert (a + b)[1..] == a[1..] + b;
      ApostrophesOfSum(a[1..], b);
    }
  }

  /** No quote is escaped across the edge of a unit. */
  lemma {:induction false} BareOfPlain(a: Text, b: Text)
    requires QUOTE !in a && (b != [] ==> b[0] != QUOTE)
    ensures BareQuotes(a + b) == a + BareQuotes(b)
  {
    if a == [] {
      assert a + b == b;
    } else {
      assert (a + b)[1..] == a[1..] + b;
      BareOfPlain(a[1..], b);
      assert [a[0]] + (a[1..] + BareQuotes(b)) == a + BareQuotes(b);
    }
  }

  lemma {:induction false} KeptApostrophes(a: Text)
    requires APOSTROPHE !in a
    ensures EscapeApostrophes(a) == a
  {
    if a != [] {
      KeptApostrophes(a[1..]);
    }
  }

  lemma HexIsPlain(u: Unit)
    ensures QUOTE !in Hex4(u) && APOSTROPHE !in Hex4(u)
  {
  }

  lemma EscapedUnitIsPlain(u: Unit)
    requires u != QUOTE
    ensures QUOTE !in EscapeUnit(u) && (u != APOSTROPHE ==> APOSTROPHE !in EscapeUnit(u))
    ensures u == APOSTROPHE ==> EscapeUnit(u) == [u]
  {
    HexIsPlain(u);
  }

  lemma QuoteIsRequoted(more: Text)
    ensures EscapeApostrophes(BareQuotes(EscapeUnit(QUOTE) + more)) == [QUOTE] + EscapeApostrophes(BareQuotes(more))
  {
    assert EscapeUnit(QUOTE) == [BACKSLASH, QUOTE];
    assert ([BACKSLASH, QUOTE] + more)[2..] == more;
    ApostrophesOfSum([QUOTE], BareQuotes(more));
    KeptApostrophes([QUOTE]);
  }

  lemma UnitIsRequoted(u: Unit, more: Text)
    requires more != [] ==> more[0] != QUOTE
    ensures EscapeApostrophes(BareQuotes(EscapeUnit(u) + more))
         == SingleQuotedUnit(u) + EscapeApostrophes(BareQuotes(more))
  {
    hide EscapeUnit, BareQuotes;
    if u == QUOTE {
      QuoteIsRequoted(more);
    } else {
      EscapedUnitIsPlain(u);
      BareOfPlain(EscapeUnit(u), more);
      ApostrophesOfSum(EscapeUnit(u), BareQuotes(more));
      if u == APOSTROPHE {
        assert [u][1..] == [];
      } else {
        KeptApostrophes(EscapeUnit(u));
      }
    }
  }

  /** The two replacements over the whole text do what they should unit by unit. */
  lemma {:induction false} Requoted(s: Text)
    ensures EscapeApostrophes(BareQuotes(Escape(s))) == SingleQuoted(s)
    decreases |s|
  {
    if s == [] {
    } else if Paired(s) {
      Requoted(s[2..]);
      EscapedStartsBare(s[2..]);
      BareOfPlain(s[..2], Escape(s[2..]));
      ApostrophesOfSum(s[..2], BareQuotes(Escape(s[2..])));
      KeptApostrophes(s[..2]);
    } else {
      Requoted(s[1..]);
      EscapedStartsBare(s[1..]);
      UnitIsRequoted(s[0], Escape(s[1..]));
    }
  }

  lemma ReadPlain(quote: Unit, u: Unit, more: Text)
    requires u >= 32 && u != quote && u != BACKSLASH
    ensures ReadLiteral(quote, [u] + more) == After(u, ReadLiteral(quote, more))
  {
    assert ([u] + more)[1..] == more;
  }

  lemma ReadEscaped(quote: Unit, u: Unit, more: Text)
    requires quote == QUOTE || quote == APOSTROPHE
    requires u != quote || u == QUOTE
    ensures ReadLiteral(quote, EscapeUnit(u) + more) == After(u, ReadLiteral(quote, more))
  {
    var t := EscapeUnit(u) + more;
    if ShortEscape(u).Some? {
      assert t[2..] == more;
    } else if u < 32 || LeadSurrogate(u) || TrailSurrogate(u) {
      assert t == [BACKSLASH, 117] + (Hex4(u) + more);
      assert t[2..] == Hex4(u) + more && t[6..] == more;
      HexRoundTrip(u, more);
    } else {
      ReadPlain(quote, u, more);
    }
  }

  lemma ReadClose(quote: Unit, rest: Text)
    ensures ReadLiteral(quote, [] + [quote] + rest) == Some(([], rest))
  {
    assert [] + [quote] + rest == [quote] + rest;
    assert ([quote] + rest)[1..] == rest;
  }

  /** A pair of surrogates, then the rest of a literal. */
  lemma ReadSurrogates(quote: Unit, s: Text, tail: Text, rest: Text)
    requires Paired(s) && (quote == QUOTE || quote == APOSTROPHE)
    requires ReadLiteral(quote, tail + [quote] + rest) == Some((s[2..], rest))
    ensures ReadLiteral(quote, s[..2] + tail + [quote] + rest) == Some((s, rest))
  {
    hide ReadLiteral;
    var more := tail + [quote] + rest;
    assert s[..2] + tail + [quote] + rest == [s[0]] + ([s[1]] + more);
    ReadPlain(quote, s[0], [s[1]] + more);
    ReadPlain(quote, s[1], more);
    assert [s[0]] + ([s[1]] + s[2..]) == s;
  }

  /** One unit as the literal has it, then the rest. */
  lemma ReadUnit(quote: Unit, s: Text, written: Text, tail: Text, rest: Text)
    requires s != [] && ReadLiteral(quote, tail + [quote] + rest) == Some((s[1..], rest))
    requires ReadLiteral(quote, written + (tail + [quote] + rest))
        == After(s[0], ReadLiteral(quote, tail + [quote] + rest))
    ensures ReadLiteral(quote, written + tail + [quote] + rest) == Some((s, rest))
  {
    hide ReadLiteral;
    assert written + tail + [quote] + rest == written + (tail + [quote] + rest);
    assert [s[0]] + s[1..] == s;
  }

  lemma ReadSingleQuotedUnit(u: Unit, more: Text)
    ensures ReadLiteral(APOSTROPHE, SingleQuotedUnit(u) + more) == After(u, ReadLiteral(APOSTROPHE, more))
  {
    if u == QUOTE {
      ReadPlain(APOSTROPHE, QUOTE, more);
    } else if u == APOSTROPHE {
      assert ([BACKSLASH, APOSTROPHE] + more)[2..] == more;
    } else {
      ReadEscaped(APOSTROPHE, u, more);
    }
  }

  lemma {:induction false} SingleQuotedIsRead(s: Text, rest: Text)
    ensures ReadLiteral(APOSTROPHE, SingleQuoted(s) + [APOSTROPHE] + rest) == Some((s, rest))
    decreases |s|
  {
    hide ReadLiteral, SingleQuotedUnit;
    if s == [] {
      ReadClose(APOSTROPHE, rest);
    } else if Paired(s) {
      SingleQuotedIsRead(s[2..], rest);
      ReadSurrogates(APOSTROPHE, s, SingleQuoted(s[2..]), rest);
    } else {
      SingleQuotedIsRead(s[1..], rest);
      ReadSingleQuotedUnit(s[0], SingleQuoted(s[1..]) + [APOSTROPHE] + rest);
      ReadUnit(APOSTROPHE, s, SingleQuotedUnit(s[0]), SingleQuoted(s[1..]), rest);
    }
  }

  lemma {:induction false} DoubleQuotedIsRead(s: Text, rest: Text)
    ensures ReadLiteral(QUOTE, Escape(s) + [QUOTE] + rest) == Some((s, rest))
    decreases |s|
  {
    hide ReadLiteral, EscapeUnit;
    if s == [] {
      ReadClose(QUOTE, rest);
    } else if Paired(s) {
      DoubleQuotedIsRead(s[2..], rest);
      ReadSurrogates(QUOTE, s, Escape(s[2..]), rest);
    } else {
      DoubleQuotedIsRead(s[1..], rest);
      ReadEscaped(QUOTE, s[0], Escape(s[1..]) + [QUOTE] + rest);
      ReadUnit(QUOTE, s, EscapeUnit(s[0]), Escape(s[1..]), rest);
    }
  }

  /** Every literal is one token that means its input, whatever follows it. */
  lemma StringLiteralMeansItsInput(value: Text, rest: Text)
    ensures ReadStringToken(StringLiteral(value) + rest) == Some((value, rest))
  {
    hide ReadLiteral, Escape, SingleQuoted, BareQuotes, EscapeApostrophes;
    var json := Quoted(value);
    if APOSTROPHE in value && QUOTE !in value {
      DoubleQuotedIsRead(value, rest);
      assert (json + rest)[1..] == Escape(value) + [QUOTE] + rest;
    } else {
      assert json[1..|json| - 1] == Escape(value);
      Requoted(value);
      SingleQuotedIsRead(value, rest);
      assert (StringLiteral(value) + rest)[1..] == SingleQuoted(value) + [APOSTROPHE] + rest;
    }
  }

  /* SQL string literals. */

  function DoubleApostrophes(t: Text): Text {
    if t == [] then []
    else (if t[0] == APOSTROPHE then [APOSTROPHE, APOSTROPHE] else [t[0]]) + DoubleApostrophes(t[1..])
  }

  function SqlStringLiteral(value: Text): Text {
    [APOSTROPHE] + DoubleApostrophes(value) + [APOSTROPHE]
  }

  /** Reads a SQL string up to its closing quote; a doubled quote stands for one. */
  function ReadSql(t: Text): Option<(Text, Text)> {
    if t == [] then None
    else if t[0] != APOSTROPHE then After(t[0], ReadSql(t[1..]))
    else if |t| >= 2 && t[1] == APOSTROPHE then After(APOSTROPHE, ReadSql(t[2..]))
    else Some(([], t[1..]))
  }

  function ReadSqlToken(t: Text): Option<(Text, Text)> {
    if t != [] && t[0] == APOSTROPHE then ReadSql(t[1..]) else None
  }

  lemma SqlUnitIsRead(u: Unit, more: Text)
    ensures ReadSql((if u == APOSTROPHE then [APOSTROPHE, APOSTROPHE] else [u]) + more) == After(u, ReadSql(more))
  {
    if u == APOSTROPHE {
      assert ([APOSTROPHE, APOSTROPHE] + more)[2..] == more;
    } else {
      assert ([u] + more)[1..] == more;
    }
  }

  lemma SqlEnd(rest: Text)
    requires rest != [] ==> rest[0] != APOSTROPHE
    ensures ReadSql([] + [APOSTROPHE] + rest) == Some(([], rest))
  {
    assert [] + [APOSTROPHE] + rest == [APOSTROPHE] + rest;
    assert ([APOSTROPHE] + rest)[1..] == rest;
  }

  lemma {:induction false} DoubledIsRead(value: Text, rest: Text)
    requires rest != [] ==> rest[0] != APOSTROPHE
    ensures ReadSql(DoubleApostrophes(value) + [APOSTROPHE] + rest) == Some((value, rest))
  {
    hide ReadSql;
    if value == [] {
      SqlEnd(rest);
    } else {
      var first := if value[0] == APOSTROPHE then [APOSTROPHE, APOSTROPHE] else [value[0]];
      var more := DoubleApostrophes(value[1..]) + [APOSTROPHE] + rest;
      DoubledIsRead(value[1..], rest);
      SqlUnitIsRead(value[0], more);
      assert DoubleApostrophes(value) + [APOSTROPHE] + rest == first + more;
      assert [value[0]] + value[1..] == value;
    }
  }

  /** Every SQL literal is one token that means its input, whatever follows it but a quote. */
  lemma SqlLiteralMeansItsInput(value: Text, rest: Text)
    requires rest != [] ==> rest[0] != APOSTROPHE
    ensures ReadSqlToken(SqlStringLiteral(value) + rest) == Some((value, rest))
  {
    DoubledIsRead(value, rest);
    assert (SqlStringLiteral(value) + rest)[1..] == DoubleApostrophes(value) + [APOSTROPHE] + rest;
  }
}
