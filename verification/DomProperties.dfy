/** The scanner that finds host element attributes in the wrong letter case, and the fixer that
    renames them without moving anything. */
module DomProperties {
  import opened Basics
  import opened Artifact

  const DOM_PROPERTY_SPELLINGS: seq<string> := [
    "acceptCharset", "allowFullScreen", "autoCapitalize", "autoComplete", "autoCorrect", "autoFocus", "autoPlay",
    "charSet", "contentEditable", "crossOrigin", "defaultChecked", "defaultValue", "disablePictureInPicture",
    "disableRemotePlayback", "encType", "enterKeyHint", "fetchPriority", "formAction", "formEncType", "formMethod",
    "formNoValidate", "formTarget", "httpEquiv", "imageSizes", "imageSrcSet", "inputMode", "itemID", "itemProp",
    "itemRef", "itemScope", "itemType", "maxLength", "minLength", "noModule", "noValidate", "playsInline", "readOnly",
    "referrerPolicy", "spellCheck", "srcDoc", "srcLang", "srcSet", "tabIndex", "viewBox"]

  predicate IsLetter(c: char) {
    'a' <= c <= 'z' || 'A' <= c <= 'Z'
  }

  /** A character a host tag name goes on with. */
  predicate TagCharacter(c: char) {
    'a' <= c <= 'z' || '0' <= c <= '9' || c == '-'
  }

  predicate AttributeCharacter(c: char) {
    IsLetter(c) || c == '-'
  }

  predicate IsQuote(c: char) {
    c == '"' || c == '\''
  }

  /** White space as ECMAScript's \s has it. */
  predicate IsSpace(c: char) {
    var n := c as int;
    9 <= n <= 13 || n in {0x20, 0xA0, 0x1680, 0x2028, 0x2029, 0x202F, 0x205F, 0x3000, 0xFEFF} || 0x2000 <= n <= 0x200A
  }

  /* The text of a tag. */

  /** Braces open, and the quote that is open. */
  datatype Scan = Scan(depth: nat, quote: Option<char>)

  const OUTSIDE := Scan(0, None)

  predicate Ends(st: Scan, c: char) {
    st == OUTSIDE && c == '>'
  }

  function Step(st: Scan, c: char): Scan {
    if st.quote.Some? then (if c == st.quote.value then st.(quote := None) else st)
    else if st.depth > 0 then
      (if c == '{' then st.(depth := st.depth + 1) else if c == '}' then st.(depth := st.depth - 1) else st)
    else if c == '{' then st.(depth := 1)
    else if IsQuote(c) then st.(quote := Some(c))
    else st
  }

  /** What is kept of a character: blank inside quotes and braces. */
  function Shown(st: Scan, c: char): char {
    if st.quote.Some? then ' '
    else if st.depth > 0 then (if st.depth == 1 && c == '}' then c else ' ')
    else c
  }

  function Text(source: string, i: nat, st: Scan): string
    requires i <= |source|
    decreases |source| - i
  {
    if i == |source| || Ends(st, source[i]) then ""
    else [Shown(st, source[i])] + Text(source, i + 1, Step(st, source[i]))
  }

  lemma TextGoesOn(source: string, i: nat, st: Scan)
    requires i < |source|
    ensures Text(source, i, st)
         == if Ends(st, source[i]) then "" else [Shown(st, source[i])] + Text(source, i + 1, Step(st, source[i]))
  {
  }

  lemma TextEnds(source: string, st: Scan)
    ensures Text(source, |source|, st) == ""
  {
  }

  /** One more character. */
  lemma TextGrows(source: string, whole: string, text: string, i: nat, st: Scan)
    requires i < |source| && whole == text + Text(source, i, st)
    ensures Ends(st, source[i]) ==> whole == text
    ensures !Ends(st, source[i]) ==>
      whole == text + [Shown(st, source[i])] + Text(source, i + 1, Step(st, source[i]))
  {
    hide Ends, Shown, Step, Text;
    TextGoesOn(source, i, st);
  }

  method TagText(source: string, start: nat) returns (text: string)
    requires start <= |source|
    ensures text == Text(source, start, OUTSIDE)
  {
    hide Text;
    text := "";
    TextEnds(source, OUTSIDE);
    var st := OUTSIDE;
    var end := start;
    while end < |source|
      invariant start <= end <= |source|
      invariant Text(source, start, OUTSIDE) == text + Text(source, end, st)
    {
      TextGrows(source, Text(source, start, OUTSIDE), text, end, st);
      var character := source[end];
      if st.quote.Some? {
        if character == st.quote.value {
          st := st.(quote := None);
        }
        text := text + [' '];
        end := end + 1;
        continue;
      }
      if st.depth > 0 {
        if character == '{' {
          st := st.(depth := st.depth + 1);
        } else if character == '}' {
          st := st.(depth := st.depth - 1);
        }
        text := text + [if st.depth == 0 then character else ' '];
        end := end + 1;
        continue;
      }
      if character == '{' {
        st := st.(depth := 1);
        text := text + [character];
        end := end + 1;
        continue;
      }
      if IsQuote(character) {
        st := st.(quote := Some(character));
        text := text + [character];
        end := end + 1;
        continue;
      }
      if character == '>' {
        break;
      }
      text := text + [character];
      end := end + 1;
    }
    if end == |source| {
      TextEnds(source, st);
    }
  }

  /* Tags. */

  /** The first position from i on that is no part of a tag name. */
  function RunEnd(s: string, i: nat): (e: nat)
    requires i <= |s|
    ensures i <= e <= |s|
    ensures forall m :: i <= m < e ==> TagCharacter(s[m])
    ensures e < |s| ==> !TagCharacter(s[e])
    decreases |s| - i
  {
    if i < |s| && TagCharacter(s[i]) then RunEnd(s, i + 1) else i
  }

  predicate TagAt(s: string, i: nat) {
    i + 1 < |s| && s[i] == '<' && 'a' <= s[i + 1] <= 'z'
  }

  ghost predicate Within(starts: seq<nat>, n: nat) {
    forall k :: 0 <= k < |starts| ==> starts[k] <= n
  }

  /** Where the text of each host tag from i on starts. */
  function TagStarts(s: string, i: nat): (starts: seq<nat>)
    requires i <= |s|
    ensures Within(starts, |s|)
    decreases |s| - i
  {
    if i == |s| then []
    else (if TagAt(s, i) then [RunEnd(s, i + 1)] else []) + TagStarts(s, i + 1)
  }

  datatype Tag = Tag(start: nat, text: string)

  function TagsFrom(source: string, starts: seq<nat>): seq<Tag>
    requires Within(starts, |source|)
  {
    if starts == [] then [] else [Tag(starts[0], Text(source, starts[0], OUTSIDE))] + TagsFrom(source, starts[1..])
  }

  function Tags(source: string): seq<Tag> {
    TagsFrom(source, TagStarts(source, 0))
  }

  /** No tag opens inside a run of name characters. */
  lemma {:induction false} NoTagInside(s: string, i: nat, e: nat)
    requires i <= e <= |s| && forall m :: i <= m < e ==> s[m] != '<'
    ensures TagStarts(s, i) == TagStarts(s, e)
    decreases e - i
  {
    if i < e {
      NoTagInside(s, i + 1, e);
    }
  }

  lemma TagsOfFirst(source: string, start: nat, later: seq<nat>)
    requires start <= |source| && Within(later, |source|)
    ensures Within([start] + later, |source|)
    ensures TagsFrom(source, [start] + later) == [Tag(start, Text(source, start, OUTSIDE))] + TagsFrom(source, later)
  {
    assert ([start] + later)[1..] == later;
  }

  lemma TagsGoOn(source: string, i: nat)
    requires i < |source|
    ensures TagAt(source, i) ==>
      var start := RunEnd(source, i + 1);
      TagsFrom(source, TagStarts(source, i))
      == [Tag(start, Text(source, start, OUTSIDE))] + TagsFrom(source, TagStarts(source, start))
    ensures !TagAt(source, i) ==> TagStarts(source, i) == TagStarts(source, i + 1)
  {
    if TagAt(source, i) {
      var start := RunEnd(source, i + 1);
      NoTagInside(source, i + 1, start);
      TagsOfFirst(source, start, TagStarts(source, start));
    }
  }

  /** The text of every host tag. As matches do not overlap, the search goes on after each name. */
  method HostTagAttributes(source: string) returns (tags: seq<Tag>)
    ensures tags == Tags(source)
  {
    hide Text, TagStarts, TagAt;
    tags := [];
    var i := 0;
    while i < |source|
      invariant 0 <= i <= |source|
      invariant Tags(source) == tags + TagsFrom(source, TagStarts(source, i))
    {
      TagsGoOn(source, i);
      if TagAt(source, i) {
        var start := RunEnd(source, i + 1);
        var text := TagText(source, start);
        tags := tags + [Tag(start, text)];
        i := start;
      } else {
        i := i + 1;
      }
    }
    NoMoreTags(source);
  }

  lemma NoMoreTags(source: string)
    ensures TagStarts(source, |source|) == []
  {
  }

  /* Attributes. */

  function AttributeEnd(text: string, k: nat): (e: nat)
    requires k <= |text|
    ensures k <= e <= |text|
    ensures forall m :: k <= m < e ==> AttributeCharacter(text[m])
    ensures e < |text| ==> !AttributeCharacter(text[e])
    decreases |text| - k
  {
    if k < |text| && AttributeCharacter(text[k]) then AttributeEnd(text, k + 1) else k
  }

  predicate AttributeAt(text: string, k: nat) {
    && 1 <= k < |text| && IsSpace(text[k - 1]) && IsLetter(text[k])
    && AttributeEnd(text, k) < |text| && text[AttributeEnd(text, k)] == '='
  }

  /** The spelling that goes by this lower-case name. */
  function Expected(spellings: seq<string>, key: string): (r: Option<string>)
    ensures r.Some? ==> r.value in spellings && Lower(r.value) == key
  {
    if spellings == [] then None
    else
      var n := |spellings| - 1;
      if Lower(spellings[n]) == key then Some(spellings[n]) else Expected(spellings[..n], key)
  }

  datatype Misspelling = Misspelling(name: string, expected: string, line: nat, index: nat)

  function LineBreaks(s: string): nat {
    if s == "" then 0 else LineBreaks(s[..|s| - 1]) + (if s[|s| - 1] == '\n' then 1 else 0)
  }

  /** The misspelling of the attribute at k of a tag, if it is one. */
  function MisspellingAt(spellings: seq<string>, source: string, tag: Tag, k: nat): Option<Misspelling>
    requires tag.start + |tag.text| <= |source|
  {
    if !AttributeAt(tag.text, k) then None
    else
      var name := tag.text[k..AttributeEnd(tag.text, k)];
      match Expected(spellings, Lower(name))
      case None => None
      case Some(expected) =>
        if expected == name then None
        else Some(Misspelling(name, expected, 1 + LineBreaks(source[..tag.start + k]), tag.start + k))
  }

  function InTag(spellings: seq<string>, source: string, tag: Tag, k: nat): seq<Misspelling>
    requires tag.start + |tag.text| <= |source|
    decreases |tag.text| - k
  {
    if k >= |tag.text| then []
    else
      (match MisspellingAt(spellings, source, tag, k) case Some(m) => [m] case None => [])
      + InTag(spellings, source, tag, k + 1)
  }

  ghost predicate TagsFit(source: string, tags: seq<Tag>) {
    forall t :: t in tags ==> t.start + |t.text| <= |source|
  }

  function InTags(spellings: seq<string>, source: string, tags: seq<Tag>): seq<Misspelling>
    requires TagsFit(source, tags)
  {
    if tags == [] then [] else InTag(spellings, source, tags[0], 0) + InTags(spellings, source, tags[1..])
  }

  function InsertByIndex(m: Misspelling, s: seq<Misspelling>): seq<Misspelling> {
    if s == [] || m.index <= s[0].index then [m] + s else [s[0]] + InsertByIndex(m, s[1..])
  }

  function SortByIndex(s: seq<Misspelling>): seq<Misspelling> {
    if s == [] then [] else InsertByIndex(s[0], SortByIndex(s[1..]))
  }

  /* Every text lies in the source. */

  lemma {:induction false} TextFits(source: string, i: nat, st: Scan)
    requires i <= |source|
    ensures i + |Text(source, i, st)| <= |source|
    ensures forall j :: 0 <= j < |Text(source, i, st)| ==>
      Text(source, i, st)[j] == source[i + j] || Text(source, i, st)[j] == ' '
    decreases |source| - i
  {
    if i < |source| && !Ends(st, source[i]) {
      TextFits(source, i + 1, Step(st, source[i]));
      var rest := Text(source, i + 1, Step(st, source[i]));
      var all := [Shown(st, source[i])] + rest;
      forall j | 0 <= j < |all| ensures all[j] == source[i + j] || all[j] == ' ' {
        if j > 0 {
          assert rest[j - 1] == source[i + 1 + (j - 1)] || rest[j - 1] == ' ';
        }
      }
    }
  }

  lemma {:induction false} TagsFromFit(source: string, starts: seq<nat>)
    requires Within(starts, |source|)
    ensures TagsFit(source, TagsFrom(source, starts))
    ensures forall t :: t in TagsFrom(source, starts) <==> t.start in starts && t.text == Text(source, t.start, OUTSIDE)
  {
    if starts != [] {
      TextFits(source, starts[0], OUTSIDE);
      TagsFromFit(source, starts[1..]);
    }
  }

  /** The misspelled attributes of a source, in source order. */
  function Found(spellings: seq<string>, source: string): seq<Misspelling> {
    TagsFromFit(source, TagStarts(source, 0));
    SortByIndex(InTags(spellings, source, Tags(source)))
  }

  /* The scanner as it runs. */

  method LineOf(source: string, index: nat) returns (line: nat)
    requires index <= |source|
    ensures line == 1 + LineBreaks(source[..index])
  {
    line := 1;
    for i := 0 to index
      invariant line == 1 + LineBreaks(source[..i])
    {
      assert source[..i + 1][..i] == source[..i];
      if source[i] == '\n' {
        line := line + 1;
      }
    }
  }

  method CheckAttribute(spellings: seq<string>, source: string, tag: Tag, k: nat) returns (m: Option<Misspelling>)
    requires tag.start + |tag.text| <= |source|
    ensures m == MisspellingAt(spellings, source, tag, k)
  {
    if !AttributeAt(tag.text, k) {
      return None;
    }
    var name := tag.text[k..AttributeEnd(tag.text, k)];
    var expected := Expected(spellings, Lower(name));
    if expected.None? || expected.value == name {
      return None;
    }
    var line := LineOf(source, tag.start + k);
    return Some(Misspelling(name, expected.value, line, tag.start + k));
  }

  method MisspellingsInTag(spellings: seq<string>, source: string, tag: Tag) returns (found: seq<Misspelling>)
    requires tag.start + |tag.text| <= |source|
    ensures found == InTag(spellings, source, tag, 0)
  {
    hide MisspellingAt;
    found := [];
    for k := 0 to |tag.text|
      invariant InTag(spellings, source, tag, 0) == found + InTag(spellings, source, tag, k)
    {
      var m := CheckAttribute(spellings, source, tag, k);
      if m.Some? {
        found := found + [m.value];
      }
    }
  }

  method DomPropertyMisspellings(spellings: seq<string>, source: string) returns (found: seq<Misspelling>)
    ensures found == Found(spellings, source)
  {
    hide InTag, SortByIndex, TagStarts, TagsFrom, Text;
    TagsFromFit(source, TagStarts(source, 0));
    var tags := HostTagAttributes(source);
    found := [];
    assert tags[0..] == tags;
    for i := 0 to |tags|
      invariant InTags(spellings, source, tags) == found + InTags(spellings, source, tags[i..])
    {
      var more := MisspellingsInTag(spellings, source, tags[i]);
      assert tags[i..][0] == tags[i] && tags[i..][1..] == tags[i + 1..];
      found := found + more;
    }
    assert tags[|tags|..] == [] && InTags(spellings, source, tags[|tags|..]) == [];
    assert found == InTags(spellings, source, tags);
    found := SortByIndex(found);
  }

  /* The fixer. */

  ghost predicate Placed(s: string, m: Misspelling) {
    m.index + |m.name| <= |s| && |m.expected| == |m.name|
  }

  function Rename(s: string, m: Misspelling): (r: string)
    requires Placed(s, m)
    ensures |r| == |s|
    ensures forall i :: 0 <= i < |s| ==>
      r[i] == if m.index <= i < m.index + |m.name| then m.expected[i - m.index] else s[i]
  {
    s[..m.index] + m.expected + s[m.index + |m.name|..]
  }

  lemma OthersStayPlaced(s: string, found: seq<Misspelling>, m: Misspelling)
    requires Placed(s, m) && forall x :: x in found ==> Placed(s, x)
    ensures forall x :: x in found ==> Placed(Rename(s, m), x)
  {
    forall x | x in found ensures Placed(Rename(s, m), x) {
      assert Placed(s, x);
    }
  }

  /** Renames from the last to the first. */
  function RenameAll(s: string, found: seq<Misspelling>): (r: string)
    requires forall m :: m in found ==> Placed(s, m)
    ensures |r| == |s|
    decreases |found|
  {
    if found == [] then s
    else
      var n := |found| - 1;
      assert found[n] in found && forall m :: m in found[..n] ==> m in found;
      OthersStayPlaced(s, found[..n], found[n]);
      RenameAll(Rename(s, found[n]), found[..n])
  }
}
