/** A module directory as a tree of named entries, how files are written into it one
    by one, and what walking it lists. */
module FileTree {
  import opened Basics

  newtype byte = x: int | 0 <= x < 256
  type Bytes = seq<byte>

  /** A digest that is equal only for equal contents. */
  datatype Digest = Sha256(content: Bytes)

  datatype Node = File(content: Bytes) | Dir(entries: seq<Entry>)
  datatype Entry = Entry(name: string, node: Node)

  /** A file and its path from the module root. */
  datatype Listed = Listed(path: string, content: Bytes)

  /* Paths. */

  function Split(path: string): (parts: seq<string>)
    ensures parts != []
  {
    if path == "" then [""]
    else if path[0] == '/' then [""] + Split(path[1..])
    else var tail := Split(path[1..]); [[path[0]] + tail[0]] + tail[1..]
  }

  function Join(parts: seq<string>): string
    requires parts != []
  {
    if |parts| == 1 then parts[0] else parts[0] + "/" + Join(parts[1..])
  }

  lemma JoinCons(head: string, tail: seq<string>)
    requires tail != []
    ensures Join([head] + tail) == head + "/" + Join(tail)
  {
    assert ([head] + tail)[1..] == tail;
  }

  lemma JoinGrowsHead(c: char, parts: seq<string>)
    requires parts != []
    ensures Join([[c] + parts[0]] + parts[1..]) == [c] + Join(parts)
  {
    if |parts| > 1 {
      JoinCons([c] + parts[0], parts[1..]);
    }
  }

  lemma {:induction false} JoinSplit(path: string)
    ensures Join(Split(path)) == path
  {
    if path != "" {
      var tail := Split(path[1..]);
      JoinSplit(path[1..]);
      JoinCons("", tail);
      JoinGrowsHead(path[0], tail);
      assert path == [path[0]] + path[1..];
    }
  }

  /** Every ancestor directory of a path. */
  function Parents(parts: seq<string>): set<string> {
    set i | 0 < i < |parts| :: Join(parts[..i])
  }

  /** The second path lies inside the first, were the first a directory. */
  predicate Inside(directory: string, path: string) {
    directory + "/" <= path
  }

  lemma {:induction false} InsideIsParent(directory: string, path: string)
    requires Inside(directory, path)
    ensures directory in Parents(Split(path))
  {
    var parts := Split(path);
    if directory == "" {
      assert path[0] == '/';
      assert parts[..1] == [""];
      assert Join(parts[..1]) == "";
    } else {
      assert directory == [path[0]] + directory[1..];
      InsideIsParent(directory[1..], path[1..]);
      var tail := Split(path[1..]);
      var i :| 0 < i < |tail| && Join(tail[..i]) == directory[1..];
      ParentGrows(path, i, directory);
    }
  }

  lemma ParentGrows(path: string, i: nat, directory: string)
    requires path != "" && 0 < i < |Split(path[1..])|
    requires directory == [path[0]] + Join(Split(path[1..])[..i])
    ensures directory in Parents(Split(path))
  {
    var tail := Split(path[1..]);
    if path[0] == '/' {
      ParentBehindSlash(tail, i);
    } else {
      ParentWithHead(path[0], tail, i);
    }
  }

  lemma ParentBehindSlash(tail: seq<string>, i: nat)
    requires 0 < i < |tail|
    ensures ['/'] + Join(tail[..i]) in Parents([""] + tail)
  {
    var parts := [""] + tail;
    assert parts[..i + 1] == [""] + tail[..i];
    JoinCons("", tail[..i]);
    assert Join(parts[..i + 1]) == ['/'] + Join(tail[..i]);
  }

  lemma ParentWithHead(c: char, tail: seq<string>, i: nat)
    requires 0 < i < |tail|
    ensures [c] + Join(tail[..i]) in Parents([[c] + tail[0]] + tail[1..])
  {
    var parts := [[c] + tail[0]] + tail[1..];
    assert parts[..i] == [[c] + tail[..i][0]] + tail[..i][1..];
    JoinGrowsHead(c, tail[..i]);
    assert Join(parts[..i]) == [c] + Join(tail[..i]);
  }

  /* Writing. */

  function Find(entries: seq<Entry>, name: string): Option<nat> {
    FindFrom(entries, name, 0)
  }

  function FindFrom(entries: seq<Entry>, name: string, at: nat): (r: Option<nat>)
    requires at <= |entries|
    ensures match r
            case Some(i) => at <= i < |entries| && entries[i].name == name
            case None => forall k :: at <= k < |entries| ==> entries[k].name != name
    decreases |entries| - at
  {
    if at == |entries| then None
    else if entries[at].name == name then Some(at)
    else FindFrom(entries, name, at + 1)
  }

  /** Creates the missing directories of a path and then the file, which must not exist. */
  function Write(entries: seq<Entry>, parts: seq<string>, content: Bytes): Option<seq<Entry>>
    requires parts != []
    decreases |parts|
  {
    match Find(entries, parts[0])
    case None =>
      if |parts| == 1 then Some(entries + [Entry(parts[0], File(content))])
      else (match Write([], parts[1..], content)
            case Some(inner) => Some(entries + [Entry(parts[0], Dir(inner))])
            case None => None)
    case Some(i) =>
      if |parts| == 1 || entries[i].node.File? then None
      else (match Write(entries[i].node.entries, parts[1..], content)
            case Some(inner) => Some(entries[i := Entry(parts[0], Dir(inner))])
            case None => None)
  }

  /* Walking. */

  /** All files of a directory in the order a walk meets them. */
  function Listing(entries: seq<Entry>, prefix: string): seq<Listed> {
    if entries == [] then []
    else
      (match entries[0].node
       case File(c) => [Listed(prefix + entries[0].name, c)]
       case Dir(inner) => Listing(inner, prefix + entries[0].name + "/"))
      + Listing(entries[1..], prefix)
  }

  function Under(e: Entry, prefix: string): seq<Listed> {
    match e.node
    case File(c) => [Listed(prefix + e.name, c)]
    case Dir(inner) => Listing(inner, prefix + e.name + "/")
  }

  lemma {:induction false} ListingOfSum(a: seq<Entry>, b: seq<Entry>, prefix: string)
    ensures Listing(a + b, prefix) == Listing(a, prefix) + Listing(b, prefix)
  {
    if a == [] {
      assert a + b == b;
    } else {
      assert (a + b)[1..] == a[1..] + b;
      ListingOfSum(a[1..], b, prefix);
    }
  }

  lemma ListingOfOne(e: Entry, prefix: string)
    ensures Listing([e], prefix) == Under(e, prefix)
  {
    assert [e][1..] == [];
  }

  lemma ListingAround(entries: seq<Entry>, i: nat, e: Entry, prefix: string)
    requires i < |entries|
    ensures Listing(entries[i := e], prefix)
         == Listing(entries[..i], prefix) + Under(e, prefix) + Listing(entries[i + 1..], prefix)
  {
    assert entries[i := e] == entries[..i] + [e] + entries[i + 1..];
    ListingOfSum(entries[..i] + [e], entries[i + 1..], prefix);
    ListingOfSum(entries[..i], [e], prefix);
    ListingOfOne(e, prefix);
  }

  lemma PathDeeper(prefix: string, parts: seq<string>)
    requires |parts| > 1
    ensures prefix + parts[0] + "/" + Join(parts[1..]) == prefix + Join(parts)
  {
    JoinCons(parts[0], parts[1..]);
    assert parts == [parts[0]] + parts[1..];
  }

  /** Writing adds one file to the listing and changes nothing else. */
  lemma {:induction false} WriteAddsOne(entries: seq<Entry>, parts: seq<string>, content: Bytes, prefix: string)
    requires parts != [] && Write(entries, parts, content).Some?
    ensures multiset(Listing(Write(entries, parts, content).value, prefix))
         == multiset(Listing(entries, prefix)) + multiset{Listed(prefix + Join(parts), content)}
    decreases |parts|
  {
    match Find(entries, parts[0]) {
      case None => WriteAddsNewEntry(entries, parts, content, prefix);
      case Some(i) => WriteAddsInside(entries, parts, content, prefix, i);
    }
  }

  lemma {:induction false} WriteAddsNewEntry(entries: seq<Entry>, parts: seq<string>, content: Bytes, prefix: string)
    requires parts != [] && Write(entries, parts, content).Some? && Find(entries, parts[0]) == None
    ensures multiset(Listing(Write(entries, parts, content).value, prefix))
         == multiset(Listing(entries, prefix)) + multiset{Listed(prefix + Join(parts), content)}
    decreases |parts|, 0
  {
    var name := parts[0];
    var e := if |parts| == 1 then Entry(name, File(content))
             else Entry(name, Dir(Write([], parts[1..], content).value));
    if |parts| > 1 {
      WriteAddsOne([], parts[1..], content, prefix + name + "/");
      PathDeeper(prefix, parts);
      assert Listing([], prefix + name + "/") == [];
    }
    assert multiset(Under(e, prefix)) == multiset{Listed(prefix + Join(parts), content)};
    ListingOfSum(entries, [e], prefix);
    ListingOfOne(e, prefix);
  }

  lemma {:induction false} WriteAddsInside(
      entries: seq<Entry>, parts: seq<string>, content: Bytes, prefix: string, i: nat)
    requires parts != [] && Write(entries, parts, content).Some? && Find(entries, parts[0]) == Some(i)
    ensures multiset(Listing(Write(entries, parts, content).value, prefix))
         == multiset(Listing(entries, prefix)) + multiset{Listed(prefix + Join(parts), content)}
    decreases |parts|, 0
  {
    var name := parts[0];
    var before := entries[i].node.entries;
    var e := Entry(name, Dir(Write(before, parts[1..], content).value));
    WriteAddsOne(before, parts[1..], content, prefix + name + "/");
    PathDeeper(prefix, parts);
    assert multiset(Under(e, prefix))
        == multiset(Under(entries[i], prefix)) + multiset{Listed(prefix + Join(parts), content)};
    ListingAround(entries, i, e, prefix);
    ListingAround(entries, i, entries[i], prefix);
    assert entries[i := entries[i]] == entries;
  }

  /** Every directory of the tree holds something. */
  ghost predicate NoEmptyDirectories(entries: seq<Entry>) {
    forall e :: e in entries ==> e.node.Dir? ==> e.node.entries != [] && NoEmptyDirectories(e.node.entries)
  }

  lemma {:induction false} SomethingListed(entries: seq<Entry>, prefix: string) returns (f: Listed)
    requires entries != [] && NoEmptyDirectories(entries)
    ensures f in Listing(entries, prefix) && prefix <= f.path
    decreases entries
  {
    var e := entries[0];
    assert e in entries;
    match e.node {
      case File(c) => f := Listed(prefix + e.name, c);
      case Dir(inner) =>
        f := SomethingListed(inner, prefix + e.name + "/");
        assert prefix <= prefix + e.name + "/";
    }
  }

  lemma {:induction false} WriteKeepsNoEmpty(entries: seq<Entry>, parts: seq<string>, content: Bytes)
    requires NoEmptyDirectories(entries) && parts != [] && Write(entries, parts, content).Some?
    ensures NoEmptyDirectories(Write(entries, parts, content).value) && Write(entries, parts, content).value != []
    decreases |parts|
  {
    match Find(entries, parts[0]) {
      case None =>
        if |parts| > 1 {
          WriteKeepsNoEmpty([], parts[1..], content);
        }
      case Some(i) =>
        assert entries[i] in entries;
        WriteKeepsNoEmpty(entries[i].node.entries, parts[1..], content);
    }
  }

  /** Two paths that cannot both name files of one tree. */
  predicate Clash(a: string, b: string) {
    a == b || Inside(a, b) || Inside(b, a)
  }

  /** A write is refused only when the path clashes with a file already there. */
  lemma {:induction false} RefusedWriteClashes(entries: seq<Entry>, parts: seq<string>, content: Bytes, prefix: string)
      returns (f: Listed)
    requires NoEmptyDirectories(entries) && parts != [] && Write(entries, parts, content).None?
    ensures f in Listing(entries, prefix) && Clash(f.path, prefix + Join(parts))
    decreases |parts|
  {
    var name := parts[0];
    match Find(entries, name) {
      case None =>
        f := RefusedWriteClashes([], parts[1..], content, prefix + name + "/");
      case Some(i) =>
        var e := entries[i];
        assert e in entries;
        ListingAround(entries, i, e, prefix);
        assert entries[i := e] == entries;
        if e.node.File? {
          f := Listed(prefix + name, e.node.content);
          if |parts| > 1 {
            PathDeeper(prefix, parts);
          }
        } else if |parts| == 1 {
          f := SomethingListed(e.node.entries, prefix + name + "/");
        } else {
          f := RefusedWriteClashes(e.node.entries, parts[1..], content, prefix + name + "/");
          PathDeeper(prefix, parts);
        }
        assert f in Under(e, prefix);
    }
  }
}
