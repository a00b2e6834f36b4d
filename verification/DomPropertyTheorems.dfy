/** What fixing guarantees: the same length, other letter case at most inside attribute names,
    and nothing left to fix. */
module DomPropertyTheorems {
  import opened Basics
  import opened Artifact
  import opened DomProperties

  /* Sources that differ in letter case only. */

  predicate Alike(a: char, b: char) {
    a == b || (IsLetter(a) && IsLetter(b) && LowerChar(a) == LowerChar(b))
  }

  ghost predicate SameShape(a: string, b: string) {
    |a| == |b| && forall i :: 0 <= i < |a| ==> Alike(a[i], b[i])
  }

  /** A quote that is open was opened by a quote. */
  predicate Sensible(st: Scan) {
    st.quote.Some? ==> IsQuote(st.quote.value)
  }

  /** Letter case steers neither braces nor quotes nor the end of a tag. */
  lemma {:induction false} TextKeepsShape(s: string, t: string, i: nat, st: Scan)
    requires SameShape(s, t) && i <= |s| && Sensible(st)
    ensures SameShape(Text(s, i, st), Text(t, i, st))
    decreases |s| - i
  {
    if i < |s| {
      assert Alike(s[i], t[i]);
      assert Ends(st, s[i]) == Ends(st, t[i]) && Step(st, s[i]) == Step(st, t[i]);
      if !Ends(st, s[i]) {
        TextKeepsShape(s, t, i + 1, Step(st, s[i]));
      }
    }
  }

  lemma {:induction false} AttributeEndKeepsShape(a: string, b: string, k: nat)
    requires SameShape(a, b) && k <= |a|
    ensures AttributeEnd(a, k) == AttributeEnd(b, k)
    decreases |a| - k
  {
    if k < |a| {
      assert Alike(a[k], b[k]);
      if AttributeCharacter(a[k]) {
        AttributeEndKeepsShape(a, b, k + 1);
      }
    }
  }

  lemma AttributeKeepsShape(a: string, b: string, k: nat)
    requires SameShape(a, b)
    ensures AttributeAt(a, k) == AttributeAt(b, k)
    ensures AttributeAt(a, k) ==> AttributeEnd(a, k) == AttributeEnd(b, k)
    ensures AttributeAt(a, k) ==>
      Lower(a[k..AttributeEnd(a, k)]) == Lower(b[k..AttributeEnd(b, k)])
  {
    if 1 <= k < |a| {
      AttributeEndKeepsShape(a, b, k);
      var e := AttributeEnd(a, k);
      assert Alike(a[k - 1], b[k - 1]) && Alike(a[k], b[k]) && (e < |a| ==> Alike(a[e], b[e]));
      forall j | 0 <= j < e - k ensures LowerChar(a[k..e][j]) == LowerChar(b[k..e][j]) {
        assert Alike(a[k + j], b[k + j]);
      }
    }
  }

  /* Attribute names are islands in the source. */

  predicate Gap(c: char) {
    !TagCharacter(c) && !AttributeCharacter(c) && c != '<'
  }

  /** A run of attribute characters with a gap before it and an equals sign after it. */
  ghost predicate Island(s: string, p: nat, e: nat) {
    && 0 < p < e < |s| && Gap(s[p - 1]) && s[e] == '='
    && forall i :: p <= i < e ==> AttributeCharacter(s[i])
  }

  lemma IslandsMeet(s: string, p: nat, e: nat, q: nat, f: nat, i: nat)
    requires Island(s, p, e) && Island(s, q, f)
    ensures p <= i < e && q <= i < f ==> p == q && e == f
  {
  }

  /** What stands before a letter that is shown, where a blank is shown before it: a blank, or
      the quote that closed. */
  lemma {:induction false} BlankComesFromGap(s: string, i: nat, st: Scan, k: nat)
    requires i <= |s| && 1 <= k < |Text(s, i, st)|
    requires Sensible(st)
    requires IsSpace(Text(s, i, st)[k - 1]) && IsLetter(Text(s, i, st)[k])
    ensures i + k < |s| && Gap(s[i + k - 1])
    decreases |s| - i
  {
    TextFits(s, i, st);
    var next := Step(st, s[i]);
    var rest := Text(s, i + 1, next);
    assert Text(s, i, st) == [Shown(st, s[i])] + rest;
    if k > 1 {
      assert rest[k - 2] == Text(s, i, st)[k - 1] && rest[k - 1] == Text(s, i, st)[k];
      BlankComesFromGap(s, i + 1, next, k - 1);
    } else {
      assert rest[0] == Text(s, i, st)[1] == Shown(next, s[i + 1]);
    }
  }

  lemma AttributeIsIsland(s: string, start: nat, k: nat)
    requires start <= |s| && AttributeAt(Text(s, start, OUTSIDE), k)
    ensures var text := Text(s, start, OUTSIDE);
      var e := AttributeEnd(text, k);
      && start + |text| <= |s| && Island(s, start + k, start + e) && text[k..e] == s[start + k..start + e]
  {
    var text := Text(s, start, OUTSIDE);
    var e := AttributeEnd(text, k);
    TextFits(s, start, OUTSIDE);
    BlankComesFromGap(s, start, OUTSIDE, k);
    forall i | k <= i < e ensures text[i] == s[start + i] && AttributeCharacter(s[start + i]) {
      assert AttributeCharacter(text[i]);
    }
    assert text[e] == s[start + e];
    assert AttributeCharacter(text[k]);
    forall i | start + k <= i < start + e ensures AttributeCharacter(s[i]) {
      assert text[i - start] == s[start + (i - start)];
    }
  }

  /* Sources that differ only inside islands have the same tags. */

  ghost predicate OnIsland(s: string, i: nat) {
    exists p: nat, e: nat :: Island(s, p, e) && p <= i < e
  }

  ghost predicate Recased(s: string, t: string) {
    SameShape(s, t) && forall i :: 0 <= i < |s| && s[i] != t[i] ==> OnIsland(s, i)
  }

  /** An island cannot reach into a tag: nothing from the opening bracket to the end of the
      name is on one. */
  lemma NoIslandInName(s: string, i: nat, j: nat)
    requires i < j < |s| && s[i] == '<' && forall m :: i < m < j ==> TagCharacter(s[m])
    ensures !OnIsland(s, i) && !OnIsland(s, j)
  {
  }

  lemma {:induction false} NameEndKept(s: string, t: string, i: nat, j: nat)
    requires Recased(s, t) && i < j <= |s| && s[i] == '<' && forall m :: i < m < j ==> TagCharacter(s[m])
    ensures RunEnd(s, j) == RunEnd(t, j)
    decreases |s| - j
  {
    if j < |s| {
      NoIslandInName(s, i, j);
      assert s[j] == t[j];
      if TagCharacter(s[j]) {
        NameEndKept(s, t, i, j + 1);
      }
    }
  }

  lemma {:induction false} TagStartsKept(s: string, t: string, i: nat)
    requires Recased(s, t) && i <= |s|
    ensures TagStarts(s, i) == TagStarts(t, i)
    decreases |s| - i
  {
    if i < |s| {
      TagStartsKept(s, t, i + 1);
      assert Alike(s[i], t[i]);
      assert s[i] == '<' <==> t[i] == '<';
      if s[i] == '<' && i + 1 < |s| {
        NoIslandInName(s, i, i + 1);
        NameEndKept(s, t, i, i + 1);
      }
    }
  }

  /* What is found. */

  ghost predicate IsFound(spellings: seq<string>, source: string, start: nat, k: nat, m: Misspelling)
  {
    && start <= |source| && start + |Text(source, start, OUTSIDE)| <= |source|
    && MisspellingAt(spellings, source, Tag(start, Text(source, start, OUTSIDE)), k) == Some(m)
  }

  lemma {:induction false} InsertedMembers(m: Misspelling, s: seq<Misspelling>)
    ensures forall x :: x in InsertByIndex(m, s) <==> x == m || x in s
  {
    if s != [] && m.index > s[0].index {
      InsertedMembers(m, s[1..]);
      assert s == [s[0]] + s[1..];
    }
  }

  lemma {:induction false} SortedMembers(s: seq<Misspelling>)
    ensures forall x :: x in SortByIndex(s) <==> x in s
  {
    if s != [] {
      SortedMembers(s[1..]);
      InsertedMembers(s[0], SortByIndex(s[1..]));
      assert s == [s[0]] + s[1..];
    }
  }

  lemma NothingBeyond(spellings: seq<string>, source: string, tag: Tag, k: nat)
    requires tag.start + |tag.text| <= |source| && k >= |tag.text|
    ensures MisspellingAt(spellings, source, tag, k) == None
  {
  }

  lemma {:induction false} InTagMembers(spellings: seq<string>, source: string, tag: Tag, k: nat, m: Misspelling)
    requires tag.start + |tag.text| <= |source|
    ensures m in InTag(spellings, source, tag, k)
        <==> exists j :: k <= j && MisspellingAt(spellings, source, tag, j) == Some(m)
    decreases |tag.text| - k
  {
    hide MisspellingAt;
    if k >= |tag.text| {
      forall j | k <= j ensures MisspellingAt(spellings, source, tag, j) == None {
        NothingBeyond(spellings, source, tag, j);
      }
    } else {
      InTagMembers(spellings, source, tag, k + 1, m);
      if MisspellingAt(spellings, source, tag, k) == Some(m) {
        assert m in InTag(spellings, source, tag, k);
      } else if m in InTag(spellings, source, tag, k) {
        assert m in InTag(spellings, source, tag, k + 1);
      }
    }
  }

  lemma {:induction false} InTagsMembers(spellings: seq<string>, source: string, tags: seq<Tag>, m: Misspelling)
    requires TagsFit(source, tags)
    ensures m in InTags(spellings, source, tags) <==> exists tag :: tag in tags && m in InTag(spellings, source, tag, 0)
  {
    hide InTag;
    if tags != [] {
      InTagsMembers(spellings, source, tags[1..], m);
      if m in InTag(spellings, source, tags[0], 0) {
        assert tags[0] in tags;
      }
      forall tag | tag in tags ensures tag == tags[0] || tag in tags[1..] {}
    }
  }

  /** Found are exactly the misspelled attributes of the host tags. */
  lemma FoundExactly(spellings: seq<string>, source: string, m: Misspelling)
    ensures m in Found(spellings, source)
       <==> exists start, k :: start in TagStarts(source, 0) && IsFound(spellings, source, start, k, m)
  {
    var starts := TagStarts(source, 0);
    TagsFromFit(source, starts);
    SortedMembers(InTags(spellings, source, Tags(source)));
    InTagsMembers(spellings, source, Tags(source), m);
    if m in Found(spellings, source) {
      var tag :| tag in Tags(source) && m in InTag(spellings, source, tag, 0);
      InTagMembers(spellings, source, tag, 0, m);
      var k :| 0 <= k && MisspellingAt(spellings, source, tag, k) == Some(m);
      assert IsFound(spellings, source, tag.start, k, m);
    }
    if start, k :| start in starts && IsFound(spellings, source, start, k, m) {
      var tag := Tag(start, Text(source, start, OUTSIDE));
      assert tag in TagsFrom(source, starts);
      InTagMembers(spellings, source, tag, 0, m);
      assert MisspellingAt(spellings, source, tag, k) == Some(m);
    }
  }

  lemma {:induction false} SortSorts(s: seq<Misspelling>)
    ensures forall i, j :: 0 <= i < j < |SortByIndex(s)| ==> SortByIndex(s)[i].index <= SortByIndex(s)[j].index
  {
    if s != [] {
      SortSorts(s[1..]);
      InsertKeepsSorted(s[0], SortByIndex(s[1..]));
    }
  }

  lemma {:induction false} InsertKeepsSorted(m: Misspelling, s: seq<Misspelling>)
    requires forall i, j :: 0 <= i < j < |s| ==> s[i].index <= s[j].index
    ensures forall i, j :: 0 <= i < j < |InsertByIndex(m, s)| ==>
              InsertByIndex(m, s)[i].index <= InsertByIndex(m, s)[j].index
  {
    if s != [] && m.index > s[0].index {
      InsertKeepsSorted(m, s[1..]);
      InsertedMembers(m, s[1..]);
      var rest := InsertByIndex(m, s[1..]);
      forall j | 0 <= j < |rest| ensures s[0].index <= rest[j].index {
        assert rest[j] in rest;
      }
    }
  }

  /** Everything found is an island of the source, told apart by its index. */
  lemma FoundIsIsland(spellings: seq<string>, source: string, m: Misspelling)
    requires m in Found(spellings, source)
    ensures Placed(source, m) && Island(source, m.index, m.index + |m.name|)
    ensures m.name == source[m.index..m.index + |m.name|]
    ensures Expected(spellings, Lower(m.name)) == Some(m.expected) && m.expected != m.name
  {
    hide Found, Island, LineBreaks, Text, TagStarts;
    FoundExactly(spellings, source, m);
    var start, k :| start in TagStarts(source, 0) && IsFound(spellings, source, start, k, m);
    AttributeIsIsland(source, start, k);
    assert |Lower(m.expected)| == |m.expected|;
  }

  lemma FoundArePlaced(spellings: seq<string>, source: string)
    ensures forall m :: m in Found(spellings, source) ==> Placed(source, m)
  {
    forall m | m in Found(spellings, source) ensures Placed(source, m) {
      FoundIsIsland(spellings, source, m);
    }
  }

  /** The source with every misspelled attribute renamed. */
  function Fixed(spellings: seq<string>, source: string): (r: string)
    ensures |r| == |source|
  {
    FoundArePlaced(spellings, source);
    RenameAll(source, Found(spellings, source))
  }

  predicate Covers(m: Misspelling, i: nat) {
    m.index <= i < m.index + |m.name|
  }

  lemma RenamedHere(s: string, m: Misspelling, i: nat)
    requires Placed(s, m) && i < |s|
    ensures Rename(s, m)[i] == if Covers(m, i) then m.expected[i - m.index] else s[i]
  {
  }

  /** Renaming writes each expected spelling over its name and nothing else. */
  lemma {:induction false} RenameAllAt(s: string, found: seq<Misspelling>, i: nat)
    requires forall m :: m in found ==> Placed(s, m)
    requires forall m, n :: m in found && n in found && Covers(m, i) && Covers(n, i) ==>
      m.index == n.index && m.expected == n.expected
    requires i < |s|
    ensures forall m :: m in found && Covers(m, i) ==> RenameAll(s, found)[i] == m.expected[i - m.index]
    ensures (forall m :: m in found ==> !Covers(m, i)) ==> RenameAll(s, found)[i] == s[i]
    decreases |found|
  {
    if found != [] {
      var n := |found| - 1;
      var last := found[n];
      assert last in found && forall m :: m in found[..n] ==> m in found;
      assert found == found[..n] + [last];
      OthersStayPlaced(s, found[..n], last);
      RenameAllAt(Rename(s, last), found[..n], i);
      RenamedHere(s, last, i);
      hide Rename, Placed, Covers;
      forall m | m in found ensures m == last || m in found[..n] {}
    }
  }

  lemma FixedAt(spellings: seq<string>, source: string, i: nat)
    requires i < |source|
    ensures forall m :: m in Found(spellings, source) && Covers(m, i) ==>
      Placed(source, m) && Fixed(spellings, source)[i] == m.expected[i - m.index]
    ensures (forall m :: m in Found(spellings, source) ==> !Covers(m, i)) ==> Fixed(spellings, source)[i] == source[i]
  {
    hide Found, Island, Lower, Expected;
    var found := Found(spellings, source);
    FoundArePlaced(spellings, source);
    forall m, n | m in found && n in found && Covers(m, i) && Covers(n, i)
      ensures m.index == n.index && m.expected == n.expected
    {
      FoundIsIsland(spellings, source, m);
      FoundIsIsland(spellings, source, n);
      IslandsMeet(source, m.index, m.index + |m.name|, n.index, n.index + |n.name|, i);
    }
    RenameAllAt(source, found, i);
  }

  lemma ExpectedIsAlike(name: string, expected: string, j: nat)
    requires Lower(name) == Lower(expected) && j < |name| && AttributeCharacter(name[j])
    ensures |expected| == |name| && Alike(name[j], expected[j])
  {
    assert |Lower(name)| == |name| && |Lower(expected)| == |expected|;
    assert Lower(name)[j] == LowerChar(name[j]) && Lower(expected)[j] == LowerChar(expected[j]);
  }

  lemma FixedCharacter(spellings: seq<string>, source: string, i: nat)
    requires i < |source|
    ensures Alike(source[i], Fixed(spellings, source)[i])
    ensures source[i] != Fixed(spellings, source)[i] ==> OnIsland(source, i)
  {
    hide Found, Fixed, Island, AttributeCharacter, IsLetter, LowerChar, Lower;
    FixedAt(spellings, source, i);
    if m :| m in Found(spellings, source) && Covers(m, i) {
      FoundIsIsland(spellings, source, m);
      IslandCharacter(source, m.index, m.index + |m.name|, i);
      ExpectedIsAlike(m.name, m.expected, i - m.index);
    }
  }

  lemma IslandCharacter(s: string, p: nat, e: nat, i: nat)
    requires Island(s, p, e) && p <= i < e
    ensures AttributeCharacter(s[i]) && OnIsland(s, i)
  {
  }

  lemma RenamedIfWrong(spellings: seq<string>, source: string, m: Misspelling)
    requires m in Found(spellings, source)
    ensures Placed(source, m) && Fixed(spellings, source)[m.index..m.index + |m.name|] == m.expected
  {
    hide Found, Fixed, Island, Lower;
    FoundIsIsland(spellings, source, m);
    var t := Fixed(spellings, source);
    forall j | 0 <= j < |m.name| ensures t[m.index..m.index + |m.name|][j] == m.expected[j] {
      FixedAt(spellings, source, m.index + j);
      assert Covers(m, m.index + j);
    }
  }

  /** Fixing writes the expected spelling over every misspelled attribute it found and changes
      nothing else, so letter case at most, inside attribute names. */
  lemma FixOnlyRecases(spellings: seq<string>, source: string)
    ensures Recased(source, Fixed(spellings, source))
    ensures forall m :: m in Found(spellings, source) ==>
      Placed(source, m) && Fixed(spellings, source)[m.index..m.index + |m.name|] == m.expected
    ensures forall i :: 0 <= i < |source| && (forall m :: m in Found(spellings, source) ==> !Covers(m, i)) ==>
      Fixed(spellings, source)[i] == source[i]
  {
    hide Found, Fixed, OnIsland, Alike, Covers;
    forall i | 0 <= i < |source|
      ensures Alike(source[i], Fixed(spellings, source)[i])
      ensures source[i] != Fixed(spellings, source)[i] ==> OnIsland(source, i)
      ensures (forall m :: m in Found(spellings, source) ==> !Covers(m, i)) ==> Fixed(spellings, source)[i] == source[i]
    {
      FixedCharacter(spellings, source, i);
      FixedAt(spellings, source, i);
    }
    forall m | m in Found(spellings, source)
      ensures Placed(source, m) && Fixed(spellings, source)[m.index..m.index + |m.name|] == m.expected
    {
      RenamedIfWrong(spellings, source, m);
    }
  }

  /** At a place where the source has no misspelling the fixed text is the source's. */
  lemma KeptIfRight(spellings: seq<string>, source: string, p: nat, e: nat)
    requires Island(source, p, e)
    requires forall m :: m in Found(spellings, source) ==> m.index != p
    ensures Fixed(spellings, source)[p..e] == source[p..e]
  {
    hide Found, Fixed, AttributeCharacter, Gap, Lower, Expected;
    var t := Fixed(spellings, source);
    forall i | p <= i < e ensures t[i] == source[i] {
      FixedAt(spellings, source, i);
      forall m | m in Found(spellings, source) ensures !Covers(m, i) {
        FoundIsIsland(spellings, source, m);
        IslandsMeet(source, m.index, m.index + |m.name|, p, e, i);
      }
    }
  }

  /** An attribute of the fixed source is spelled as expected. */
  lemma FixedAttributeIsRight(spellings: seq<string>, source: string, start: nat, k: nat, m: Misspelling)
    requires start in TagStarts(source, 0)
    ensures !IsFound(spellings, Fixed(spellings, source), start, k, m)
  {
    hide Fixed, Text, AttributeEnd, LineBreaks, Lower, Found, Expected, TagStarts;
    var t := Fixed(spellings, source);
    if IsFound(spellings, t, start, k, m) {
      FixOnlyRecases(spellings, source);
      TextKeepsShape(source, t, start, OUTSIDE);
      var text, now := Text(source, start, OUTSIDE), Text(t, start, OUTSIDE);
      AttributeKeepsShape(text, now, k);
      AttributeIsIsland(source, start, k);
      AttributeIsIsland(t, start, k);
      var e := AttributeEnd(text, k);
      var name := text[k..e];
      assert m.name == t[start + k..start + e] && Expected(spellings, Lower(name)) == Some(m.expected);
      RightAfterFix(spellings, source, start, k, name, m.expected);
    }
  }

  lemma RightAfterFix(spellings: seq<string>, source: string, start: nat, k: nat, name: string, expected: string)
    requires start in TagStarts(source, 0) && start <= |source|
    requires AttributeAt(Text(source, start, OUTSIDE), k)
    requires name == Text(source, start, OUTSIDE)[k..AttributeEnd(Text(source, start, OUTSIDE), k)]
    requires Expected(spellings, Lower(name)) == Some(expected)
    ensures start + k + |name| <= |source|
    ensures Fixed(spellings, source)[start + k..start + k + |name|] == expected
  {
    hide Found, Fixed, Text, AttributeEnd, LineBreaks;
    AttributeIsIsland(source, start, k);
    var p, e := start + k, start + k + |name|;
    if expected != name {
      var m := Misspelling(name, expected, 1 + LineBreaks(source[..p]), p);
      assert IsFound(spellings, source, start, k, m);
      FoundExactly(spellings, source, m);
      RenamedIfWrong(spellings, source, m);
    } else {
      RightIsKept(spellings, source, p, e);
    }
  }

  lemma RightIsKept(spellings: seq<string>, source: string, p: nat, e: nat)
    requires Island(source, p, e) && Expected(spellings, Lower(source[p..e])) == Some(source[p..e])
    ensures Fixed(spellings, source)[p..e] == source[p..e]
  {
    hide Found, Fixed;
    forall m | m in Found(spellings, source) ensures m.index != p {
      FoundIsIsland(spellings, source, m);
      IslandsMeet(source, m.index, m.index + |m.name|, p, e, p);
    }
    KeptIfRight(spellings, source, p, e);
  }

  /** Nothing is left to fix. */
  lemma FixedIsClean(spellings: seq<string>, source: string)
    ensures Found(spellings, Fixed(spellings, source)) == []
  {
    var t := Fixed(spellings, source);
    FixOnlyRecases(spellings, source);
    TagStartsKept(source, t, 0);
    if Found(spellings, t) != [] {
      var m := Found(spellings, t)[0];
      FoundExactly(spellings, t, m);
      var start, k :| start in TagStarts(t, 0) && IsFound(spellings, t, start, k, m);
      FixedAttributeIsRight(spellings, source, start, k, m);
    }
  }

  /** Fixing twice is fixing once. */
  lemma FixIsIdempotent(spellings: seq<string>, source: string)
    ensures Fixed(spellings, Fixed(spellings, source)) == Fixed(spellings, source)
  {
    FixedIsClean(spellings, source);
  }

  /** The source with every misspelled host attribute renamed: as long as before, different at
      most in the letter case of attribute names, with nothing left to rename. */
  method FixDomPropertyMisspellings(source: string) returns (fixed: string)
    ensures fixed == Fixed(DOM_PROPERTY_SPELLINGS, source)
    ensures Recased(source, fixed) && Found(DOM_PROPERTY_SPELLINGS, fixed) == []
  {
    hide Found, RenameAll;
    fixed := FixWith(DOM_PROPERTY_SPELLINGS, source);
    FixOnlyRecases(DOM_PROPERTY_SPELLINGS, source);
    FixedIsClean(DOM_PROPERTY_SPELLINGS, source);
  }

  lemma RenameLast(s: string, found: seq<Misspelling>)
    requires found != [] && forall m :: m in found ==> Placed(s, m)
    ensures var n := |found| - 1;
      && Placed(s, found[n]) && (forall m :: m in found[..n] ==> Placed(Rename(s, found[n]), m))
      && RenameAll(s, found) == RenameAll(Rename(s, found[n]), found[..n])
  {
    var n := |found| - 1;
    assert found[n] in found;
    forall m | m in found[..n] ensures Placed(Rename(s, found[n]), m) {
      assert m in found && Placed(s, m);
    }
  }

  method FixWith(spellings: seq<string>, source: string) returns (fixed: string)
    ensures fixed == Fixed(spellings, source)
  {
    hide Found, InTags;
    var found := DomPropertyMisspellings(spellings, source);
    FoundArePlaced(spellings, source);
    fixed := source;
    var n := |found|;
    assert found[..n] == found;
    while n > 0
      invariant 0 <= n <= |found| && |fixed| == |source|
      invariant forall m :: m in found[..n] ==> Placed(fixed, m)
      invariant RenameAll(source, found) == RenameAll(fixed, found[..n])
    {
      var m := found[n - 1];
      RenameLast(fixed, found[..n]);
      assert found[..n][..n - 1] == found[..n - 1];
      fixed := fixed[..m.index] + m.expected + fixed[m.index + |m.name|..];
      n := n - 1;
    }
  }
}
