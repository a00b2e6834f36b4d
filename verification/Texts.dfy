/** Text as ECMAScript has it, a sequence of UTF-16 code units, and how JSON.stringify quotes it. */
module Texts {
  import opened Basics

  type Unit = n: int | 0 <= n < 0x1_0000

  type Text = seq<Unit>

  const QUOTE: Unit := 34
  const APOSTROPHE: Unit := 39
  const BACKSLASH: Unit := 92

  predicate LeadSurrogate(u: Unit) {
    0xD800 <= u < 0xDC00
  }

  predicate TrailSurrogate(u: Unit) {
    0xDC00 <= u < 0xE000
  }

  /* Four hexadecimal digits. */

  function HexDigit(n: nat): Unit
    requires n < 16
  {
    if n < 10 then 48 + n else 87 + n
  }

  function HexValue(u: Unit): Option<nat> {
    if 48 <= u <= 57 then Some(u - 48)
    else if 97 <= u <= 102 then Some(u - 87)
    else if 65 <= u <= 70 then Some(u - 55)
    else None
  }

  function Hex4(u: Unit): Text {
    [HexDigit(u / 4096), HexDigit(u / 256 % 16), HexDigit(u / 16 % 16), HexDigit(u % 16)]
  }

  function ReadHex4(t: Text): Option<Unit> {
    if |t| < 4 then None
    else
      match (HexValue(t[0]), HexValue(t[1]), HexValue(t[2]), HexValue(t[3]))
      case (Some(a), Some(b), Some(c), Some(d)) =>
        var n := ((a * 16 + b) * 16 + c) * 16 + d;
        if n < 0x1_0000 then Some(n) else None
      case _ => None
  }

  lemma HexDigits(u: Unit)
    ensures u == ((u / 4096 * 16 + u / 256 % 16) * 16 + u / 16 % 16) * 16 + u % 16
    ensures u / 4096 < 16
  {
    assert u / 16 == (u / 256) * 16 + u / 16 % 16 && u / 256 == u / 4096 * 16 + u / 256 % 16;
  }

  lemma HexDigitIsRead(n: nat)
    requires n < 16
    ensures HexValue(HexDigit(n)) == Some(n)
  {
  }

  lemma HexRoundTrip(u: Unit, rest: Text)
    ensures ReadHex4(Hex4(u) + rest) == Some(u)
  {
    hide HexDigit, HexValue;
    HexDigits(u);
    HexDigitIsRead(u / 4096);
    HexDigitIsRead(u / 256 % 16);
    HexDigitIsRead(u / 16 % 16);
    HexDigitIsRead(u % 16);
  }

  /* Quoting. */

  /** The letter of a two-character escape, for the units that have one. */
  function ShortEscape(u: Unit): Option<Unit> {
    if u == QUOTE || u == BACKSLASH then Some(u)
    else if u == 8 then Some(98)
    else if u == 12 then Some(102)
    else if u == 10 then Some(110)
    else if u == 13 then Some(114)
    else if u == 9 then Some(116)
    else None
  }

  /** A unit on its own: escaped if it is a control character or a surrogate without its pair. */
  function EscapeUnit(u: Unit): Text {
    match ShortEscape(u)
    case Some(letter) => [BACKSLASH, letter]
    case None => if u < 32 || LeadSurrogate(u) || TrailSurrogate(u) then [BACKSLASH, 117] + Hex4(u) else [u]
  }

  predicate Paired(s: Text) {
    |s| >= 2 && LeadSurrogate(s[0]) && TrailSurrogate(s[1])
  }

  function Escape(s: Text): Text {
    if s == [] then []
    else if Paired(s) then s[..2] + Escape(s[2..])
    else EscapeUnit(s[0]) + Escape(s[1..])
  }

  /** JSON.stringify of a string. */
  function Quoted(s: Text): Text {
    [QUOTE] + Escape(s) + [QUOTE]
  }

  /** What a two-character escape stands for. */
  function ShortMeaning(letter: Unit): Option<Unit> {
    if letter == QUOTE || letter == BACKSLASH || letter == 47 then Some(letter)
    else if letter == 98 then Some(8)
    else if letter == 102 then Some(12)
    else if letter == 110 then Some(10)
    else if letter == 114 then Some(13)
    else if letter == 116 then Some(9)
    else None
  }

  /** Reads the characters of a JSON string up to its closing quote (section 7 of RFC 8259). */
  function ReadCharacters(t: Text): (r: Option<(Text, Text)>)
    ensures r.Some? ==> |r.value.1| < |t|
  {
    if t == [] then None
    else if t[0] == QUOTE then Some(([], t[1..]))
    else if t[0] < 32 then None
    else if t[0] != BACKSLASH then After(t[0], ReadCharacters(t[1..]))
    else if |t| == 1 then None
    else if t[1] == 117 then
      match ReadHex4(t[2..])
      case None => None
      case Some(u) => After(u, ReadCharacters(t[6..]))
    else
      match ShortMeaning(t[1])
      case None => None
      case Some(u) => After(u, ReadCharacters(t[2..]))
  }

  function After(u: Unit, r: Option<(Text, Text)>): Option<(Text, Text)> {
    match r case None => None case Some((s, rest)) => Some(([u] + s, rest))
  }

  lemma ReadEscapedUnit(u: Unit, more: Text)
    ensures ReadCharacters(EscapeUnit(u) + more) == After(u, ReadCharacters(more))
  {
    var t := EscapeUnit(u) + more;
    if ShortEscape(u).Some? {
      assert t[2..] == more;
    } else if u < 32 || LeadSurrogate(u) || TrailSurrogate(u) {
      assert t == [BACKSLASH, 117] + (Hex4(u) + more);
      assert t[2..] == Hex4(u) + more && t[6..] == more;
      HexRoundTrip(u, more);
    } else {
      assert t[1..] == more;
    }
  }

  lemma ReadPlainUnit(u: Unit, more: Text)
    requires u >= 32 && u != QUOTE && u != BACKSLASH
    ensures ReadCharacters([u] + more) == After(u, ReadCharacters(more))
  {
    assert ([u] + more)[1..] == more;
  }

  lemma ReadEnd(rest: Text)
    ensures ReadCharacters([] + [QUOTE] + rest) == Some(([], rest))
  {
    assert [] + [QUOTE] + rest == [QUOTE] + rest;
    assert ([QUOTE] + rest)[1..] == rest;
  }

  lemma ReadPair(s: Text, tail: Text, rest: Text)
    requires Paired(s) && ReadCharacters(tail + [QUOTE] + rest) == Some((s[2..], rest))
    ensures ReadCharacters(s[..2] + tail + [QUOTE] + rest) == Some((s, rest))
  {
    hide ReadCharacters;
    var more := tail + [QUOTE] + rest;
    assert s[..2] + tail + [QUOTE] + rest == [s[0]] + ([s[1]] + more);
    ReadPlainUnit(s[0], [s[1]] + more);
    ReadPlainUnit(s[1], more);
    assert [s[0]] + ([s[1]] + s[2..]) == s;
  }

  lemma ReadOne(s: Text, tail: Text, rest: Text)
    requires s != [] && ReadCharacters(tail + [QUOTE] + rest) == Some((s[1..], rest))
    ensures ReadCharacters(EscapeUnit(s[0]) + tail + [QUOTE] + rest) == Some((s, rest))
  {
    hide ReadCharacters, EscapeUnit;
    var more := tail + [QUOTE] + rest;
    assert EscapeUnit(s[0]) + tail + [QUOTE] + rest == EscapeUnit(s[0]) + more;
    ReadEscapedUnit(s[0], more);
    assert [s[0]] + s[1..] == s;
  }

  /** Reading what was quoted gives the text back and stops at its closing quote. */
  lemma {:induction false} QuotingRoundTrip(s: Text, rest: Text)
    ensures ReadCharacters(Escape(s) + [QUOTE] + rest) == Some((s, rest))
    decreases |s|
  {
    hide ReadCharacters, EscapeUnit;
    if s == [] {
      ReadEnd(rest);
    } else if Paired(s) {
      QuotingRoundTrip(s[2..], rest);
      ReadPair(s, Escape(s[2..]), rest);
    } else {
      QuotingRoundTrip(s[1..], rest);
      ReadOne(s, Escape(s[1..]), rest);
    }
  }
}
