/** Module artifacts: which file lists are accepted, how a list is staged as a tree,
    and what the two walkers read back from one. */
module Artifact {
  import opened Basics
  import opened FileTree

  const MAX_SOURCE_BYTES := 32 * 1024 * 1024
  const MAX_FILES := 4096

  /** The top-level directories and files a module source may have. */
  datatype Layout = Layout(roots: set<string>, rootFiles: set<string>)

  const LAYOUT := Layout(
    {"src", "tests", "migrations", "translations", "spec"},
    {"module.json", "package.json", "README.md", "CHANGELOG.md", "LICENSE", "tsconfig.json", "vitest.config.ts"})

  datatype SourceFile = SourceFile(path: string, content: Bytes, sha256: Digest)

  predicate PathCharacter(c: char) {
    || 'a' <= c <= 'z' || 'A' <= c <= 'Z' || '0' <= c <= '9'
    || c in "_./@+ -"
  }

  /** A path segment that no walker skips or refuses. */
  predicate PlainName(name: string) {
    name != "" && name[0] != '.' && name != "node_modules" && name != "dist"
  }

  predicate SafeSourcePath(l: Layout, path: string) {
    var parts := Split(path);
    && 0 < |path| < 240
    && (forall i :: 0 <= i < |path| ==> PathCharacter(path[i]))
    && (forall i :: 0 <= i < |parts| ==> PlainName(parts[i]))
    && (if |parts| == 1 then path in l.rootFiles else parts[0] in l.roots)
  }

  function LowerChar(c: char): char {
    if 'A' <= c <= 'Z' then (c as int + 32) as char else c
  }

  function Lower(s: string): (r: string)
    ensures |r| == |s| && forall i :: 0 <= i < |s| ==> r[i] == LowerChar(s[i])
  {
    if s == "" then "" else [LowerChar(s[0])] + Lower(s[1..])
  }

  function TotalSize(files: seq<SourceFile>): nat {
    if files == [] then 0 else TotalSize(files[..|files| - 1]) + |files[|files| - 1].content|
  }

  /* The checks on an artifact's file list. */

  datatype ArtifactError = TooManyFiles | BadPath(path: string) | Collision(path: string) | BadDigest(path: string)

  ghost predicate AcceptableFiles(l: Layout, files: seq<SourceFile>) {
    && FilesSound(l, files)
    && (forall f, g :: f in files && g in files ==> Lower(f.path) !in Parents(Split(Lower(g.path))))
  }

  lemma {:induction false} SizeGrows(files: seq<SourceFile>, n: nat)
    requires n <= |files|
    ensures TotalSize(files[..n]) <= TotalSize(files)
    decreases |files|
  {
    if n < |files| {
      SizeGrows(files[..|files| - 1], n);
      assert files[..|files| - 1][..n] == files[..n];
    } else {
      assert files[..n] == files;
    }
  }

  /** What holds of the files checked so far and the keys collected from them. */
  ghost predicate Checked(l: Layout, files: seq<SourceFile>, n: nat, paths: set<string>, size: nat) {
    && n <= |files|
    && (forall i :: 0 <= i < n ==> SafeSourcePath(l, files[i].path) && files[i].sha256 == Sha256(files[i].content))
    && (forall i :: 0 <= i < n ==> Lower(files[i].path) in paths)
    && (forall p :: p in paths ==> exists i :: 0 <= i < n && Lower(files[i].path) == p)
    && (forall i, j :: 0 <= i < j < n ==> Lower(files[i].path) != Lower(files[j].path))
    && size == TotalSize(files[..n]) && size <= MAX_SOURCE_BYTES
  }

  lemma CheckedStep(l: Layout, files: seq<SourceFile>, n: nat, paths: set<string>, size: nat)
    requires Checked(l, files, n, paths, size) && n < |files|
    requires SafeSourcePath(l, files[n].path) && files[n].sha256 == Sha256(files[n].content)
    requires Lower(files[n].path) !in paths && size + |files[n].content| <= MAX_SOURCE_BYTES
    ensures Checked(l, files, n + 1, paths + {Lower(files[n].path)}, size + |files[n].content|)
  {
    hide SafeSourcePath;
    assert files[..n + 1][..n] == files[..n];
  }

  lemma RepeatedKeyIsRefused(l: Layout, files: seq<SourceFile>, n: nat, paths: set<string>, size: nat)
    requires Checked(l, files, n, paths, size) && n < |files| && Lower(files[n].path) in paths
    ensures !FilesSound(l, files)
  {
    var i :| 0 <= i < n && Lower(files[i].path) == Lower(files[n].path);
  }

  lemma BadFileIsRefused(l: Layout, files: seq<SourceFile>, n: nat)
    requires n < |files|
    requires !SafeSourcePath(l, files[n].path) || files[n].sha256 != Sha256(files[n].content)
    ensures !FilesSound(l, files)
  {
    assert files[n] in files;
  }

  lemma OversizeIsRefused(l: Layout, files: seq<SourceFile>, n: nat)
    requires n < |files| && TotalSize(files[..n]) + |files[n].content| > MAX_SOURCE_BYTES
    ensures !FilesSound(l, files)
  {
    assert files[..n + 1][..n] == files[..n];
    SizeGrows(files, n + 1);
  }

  lemma CheckedAll(l: Layout, files: seq<SourceFile>, paths: set<string>, size: nat)
    requires |files| <= MAX_FILES && Checked(l, files, |files|, paths, size)
    ensures FilesSound(l, files) && KeysOf(files, paths)
  {
    assert files[..|files|] == files;
  }

  ghost predicate KeysOf(files: seq<SourceFile>, paths: set<string>) {
    && (forall f :: f in files ==> Lower(f.path) in paths)
    && (forall p :: p in paths ==> exists i :: 0 <= i < |files| && Lower(files[i].path) == p)
  }

  /** Accepts exactly the acceptable lists. */
  method ValidateFiles(l: Layout, files: seq<SourceFile>) returns (failure: Option<ArtifactError>)
    ensures failure == None <==> AcceptableFiles(l, files)
  {
    if |files| > MAX_FILES {
      return Some(TooManyFiles);
    }
    var paths: set<string> := {};
    var size: nat := 0;
    for i := 0 to |files|
      invariant Checked(l, files, i, paths, size)
    {
      var file := files[i];
      if !SafeSourcePath(l, file.path) {
        BadFileIsRefused(l, files, i);
        return Some(BadPath(file.path));
      }
      var key := Lower(file.path);
      if key in paths {
        RepeatedKeyIsRefused(l, files, i, paths, size);
        return Some(Collision(file.path));
      }
      if Sha256(file.content) != file.sha256 || size + |file.content| > MAX_SOURCE_BYTES {
        if Sha256(file.content) != file.sha256 {
          BadFileIsRefused(l, files, i);
        } else {
          OversizeIsRefused(l, files, i);
        }
        return Some(BadDigest(file.path));
      }
      CheckedStep(l, files, i, paths, size);
      paths := paths + {key};
      size := size + |file.content|;
    }
    CheckedAll(l, files, paths, size);
    failure := CheckParents(l, files, paths);
  }

  ghost predicate FilesSound(l: Layout, files: seq<SourceFile>) {
    && |files| <= MAX_FILES
    && (forall f :: f in files ==> SafeSourcePath(l, f.path) && f.sha256 == Sha256(f.content))
    && (forall i, j :: 0 <= i < j < |files| ==> Lower(files[i].path) != Lower(files[j].path))
    && TotalSize(files) <= MAX_SOURCE_BYTES
  }

  /** No key is a parent directory of p. */
  ghost predicate NoParentIn(paths: set<string>, p: string) {
    forall q :: q in paths ==> q !in Parents(Split(p))
  }

  method CheckParents(l: Layout, ghost files: seq<SourceFile>, paths: set<string>)
    returns (failure: Option<ArtifactError>)
    requires FilesSound(l, files) && KeysOf(files, paths)
    ensures failure == None <==> AcceptableFiles(l, files)
  {
    var left := paths;
    while left != {}
      invariant left <= paths
      invariant forall p :: p in paths && p !in left ==> NoParentIn(paths, p)
      decreases left
    {
      var p :| p in left;
      var parents := Parents(Split(p));
      if exists q :: q in parents && q in paths {
        assert !NoParentIn(paths, p);
        CollisionIsRefused(l, files, paths, p);
        return Some(Collision(p));
      }
      left := left - {p};
    }
    NoCollisionIsAccepted(l, files, paths);
    return None;
  }

  lemma CollisionIsRefused(l: Layout, files: seq<SourceFile>, paths: set<string>, p: string)
    requires KeysOf(files, paths) && p in paths && !NoParentIn(paths, p)
    ensures !AcceptableFiles(l, files)
  {
    var q :| q in paths && q in Parents(Split(p));
    var i :| 0 <= i < |files| && Lower(files[i].path) == p;
    var j :| 0 <= j < |files| && Lower(files[j].path) == q;
    assert files[i] in files && files[j] in files;
  }

  lemma NoCollisionIsAccepted(l: Layout, files: seq<SourceFile>, paths: set<string>)
    requires FilesSound(l, files) && KeysOf(files, paths) && forall p :: p in paths ==> NoParentIn(paths, p)
    ensures AcceptableFiles(l, files)
  {
  }

  /* Staging. */

  /** The tree made by writing the files in turn, each into a fresh place. */
  function Stage(files: seq<SourceFile>): Option<seq<Entry>> {
    if files == [] then Some([])
    else
      var last := files[|files| - 1];
      match Stage(files[..|files| - 1])
      case None => None
      case Some(entries) => Write(entries, Split(last.path), last.content)
  }

  method StageFiles(l: Layout, files: seq<SourceFile>) returns (r: Option<seq<Entry>>)
    ensures r == Stage(files)
    ensures AcceptableFiles(l, files) ==>
      && r.Some?
      && DirectoryHashes(r.value) == Recorded(files)
      && ReadModuleSource(l, r.value) == Ok(SortFiles(files))
  {
    var entries: seq<Entry> := [];
    for i := 0 to |files|
      invariant Stage(files[..i]) == Some(entries)
    {
      assert files[..i + 1][..i] == files[..i];
      var next := Write(entries, Split(files[i].path), files[i].content);
      if next == None {
        StageFails(files, i + 1);
        assert files[..|files|] == files;
        if AcceptableFiles(l, files) {
          AcceptedFilesStage(l, files);
        }
        return None;
      }
      entries := next.value;
    }
    assert files[..|files|] == files;
    if AcceptableFiles(l, files) {
      RoundTrip(l, files);
    }
    return Some(entries);
  }

  lemma {:induction false} StageFails(files: seq<SourceFile>, n: nat)
    requires n <= |files| && Stage(files[..n]) == None
    ensures Stage(files) == None
    decreases |files|
  {
    if n < |files| {
      assert files[..|files| - 1][..n] == files[..n];
      StageFails(files[..|files| - 1], n);
    } else {
      assert files[..n] == files;
    }
  }

  function AsListed(files: seq<SourceFile>): (r: seq<Listed>)
    ensures |r| == |files| && forall i :: 0 <= i < |files| ==> r[i] == Listed(files[i].path, files[i].content)
  {
    Map((f: SourceFile) => Listed(f.path, f.content), files)
  }

  lemma LowerPrefix(a: string, b: string)
    requires a <= b
    ensures Lower(a) <= Lower(b)
  {
  }

  lemma LowerDirectory(a: string)
    ensures Lower(a + "/") == Lower(a) + "/"
  {
  }

  lemma ClashIsRefused(l: Layout, files: seq<SourceFile>, i: nat, j: nat)
    requires AcceptableFiles(l, files) && i < j < |files|
    ensures !Clash(files[i].path, files[j].path)
  {
    var a, b := files[i].path, files[j].path;
    assert files[i] in files && files[j] in files;
    assert Lower(a) != Lower(b);
    if Inside(a, b) {
      LowerPrefix(a + "/", b);
      LowerDirectory(a);
      InsideIsParent(Lower(a), Lower(b));
    }
    if Inside(b, a) {
      LowerPrefix(b + "/", a);
      LowerDirectory(b);
      InsideIsParent(Lower(b), Lower(a));
    }
  }

  lemma AcceptablePrefix(l: Layout, files: seq<SourceFile>, n: nat)
    requires AcceptableFiles(l, files) && n <= |files|
    ensures AcceptableFiles(l, files[..n])
  {
    SizeGrows(files, n);
  }

  /** A tree whose names no walker skips or refuses. */
  ghost predicate PlainTree(entries: seq<Entry>) {
    forall e :: e in entries ==> PlainName(e.name) && (e.node.Dir? ==> PlainTree(e.node.entries))
  }

  ghost predicate PlainRoot(l: Layout, entries: seq<Entry>) {
    forall e :: e in entries ==> e.name in l.roots || e.name in l.rootFiles
  }

  lemma {:induction false} WriteKeepsPlain(entries: seq<Entry>, parts: seq<string>, content: Bytes)
    requires PlainTree(entries) && parts != [] && Write(entries, parts, content).Some?
    requires forall i :: 0 <= i < |parts| ==> PlainName(parts[i])
    ensures PlainTree(Write(entries, parts, content).value)
    decreases |parts|
  {
    match Find(entries, parts[0]) {
      case None =>
        if |parts| > 1 {
          WriteKeepsPlain([], parts[1..], content);
        }
      case Some(i) =>
        assert entries[i] in entries;
        WriteKeepsPlain(entries[i].node.entries, parts[1..], content);
    }
  }

  lemma WriteKeepsRoot(l: Layout, entries: seq<Entry>, parts: seq<string>, content: Bytes)
    requires PlainRoot(l, entries) && parts != [] && Write(entries, parts, content).Some?
    requires parts[0] in l.roots || parts[0] in l.rootFiles
    ensures PlainRoot(l, Write(entries, parts, content).value)
  {
  }

  lemma SingletonSplit(path: string)
    requires |Split(path)| == 1
    ensures Split(path)[0] == path
  {
    JoinSplit(path);
  }

  lemma {:induction false} AsListedStep(files: seq<SourceFile>)
    requires files != []
    ensures var n := |files| - 1;
      multiset(AsListed(files)) == multiset(AsListed(files[..n])) + multiset{Listed(files[n].path, files[n].content)}
  {
    var n := |files| - 1;
    assert AsListed(files) == AsListed(files[..n]) + [Listed(files[n].path, files[n].content)];
  }

  lemma WriteIsNotRefused(l: Layout, files: seq<SourceFile>, entries: seq<Entry>)
    requires AcceptableFiles(l, files) && files != [] && NoEmptyDirectories(entries)
    requires multiset(Listing(entries, "")) == multiset(AsListed(files[..|files| - 1]))
    ensures var last := files[|files| - 1]; Write(entries, Split(last.path), last.content).Some?
  {
    hide SafeSourcePath, Write, Join, Split, Listing, NoEmptyDirectories;
    var n := |files| - 1;
    var last := files[n];
    if Write(entries, Split(last.path), last.content) == None {
      JoinSplit(last.path);
      var f := RefusedWriteClashes(entries, Split(last.path), last.content, "");
      assert f in multiset(Listing(entries, ""));
      assert f in AsListed(files[..n]);
      var i :| 0 <= i < n && AsListed(files[..n])[i] == f;
      assert "" + Join(Split(last.path)) == last.path;
      ClashIsRefused(l, files, i, n);
    }
  }

  /** The tree lists exactly these files, in places no walker skips or refuses. */
  ghost predicate Holds(l: Layout, files: seq<SourceFile>, t: seq<Entry>) {
    && multiset(Listing(t, "")) == multiset(AsListed(files))
    && NoEmptyDirectories(t) && PlainTree(t) && PlainRoot(l, t)
  }

  lemma OneMoreFile(l: Layout, files: seq<SourceFile>, entries: seq<Entry>)
    requires AcceptableFiles(l, files) && files != [] && Holds(l, files[..|files| - 1], entries)
    ensures var last := files[|files| - 1];
      var next := Write(entries, Split(last.path), last.content);
      next.Some? && Holds(l, files, next.value)
  {
    hide Write, Join, Split, Listing, PlainTree, PlainRoot, NoEmptyDirectories;
    var last := files[|files| - 1];
    var parts := Split(last.path);
    assert last in files;
    JoinSplit(last.path);
    AsListedStep(files);
    WriteIsNotRefused(l, files, entries);
    if |parts| == 1 {
      SingletonSplit(last.path);
    }
    WriteAddsOne(entries, parts, last.content, "");
    WriteKeepsNoEmpty(entries, parts, last.content);
    WriteKeepsPlain(entries, parts, last.content);
    WriteKeepsRoot(l, entries, parts, last.content);
    assert "" + Join(parts) == last.path;
  }

  lemma NothingHolds(l: Layout)
    ensures Holds(l, [], [])
  {
  }

  /** An acceptable list is staged completely: the tree lists exactly its files. */
  lemma AcceptedFilesStage(l: Layout, files: seq<SourceFile>)
    requires AcceptableFiles(l, files)
    ensures Stage(files).Some?
    ensures multiset(Listing(Stage(files).value, "")) == multiset(AsListed(files))
    ensures var t := Stage(files).value; NoEmptyDirectories(t) && PlainTree(t) && PlainRoot(l, t)
  {
    StageHolds(l, files);
  }

  lemma {:induction false} StageHolds(l: Layout, files: seq<SourceFile>)
    requires AcceptableFiles(l, files)
    ensures Stage(files).Some? && Holds(l, files, Stage(files).value)
    decreases |files|
  {
    hide AcceptableFiles, Holds;
    if files == [] {
      NothingHolds(l);
    } else {
      var n := |files| - 1;
      AcceptablePrefix(l, files, n);
      StageHolds(l, files[..n]);
      OneMoreFile(l, files, Stage(files[..n]).value);
    }
  }

  /* Reading back. */

  predicate SkippedByHashes(name: string) {
    name == "node_modules" || name == "dist" || name == ".git"
  }

  /** The hash of every file under a directory, by path; some directories are not entered. */
  function Hashes(entries: seq<Entry>, prefix: string): map<string, Digest> {
    if entries == [] then map[]
    else
      var e := entries[0];
      (if SkippedByHashes(e.name) then map[]
       else match e.node
         case File(c) => map[prefix + e.name := Sha256(c)]
         case Dir(inner) => Hashes(inner, prefix + e.name + "/"))
      + Hashes(entries[1..], prefix)
  }

  function DirectoryHashes(entries: seq<Entry>): map<string, Digest> {
    Hashes(entries, "")
  }

  datatype SourceError = UnexpectedPath(path: string) | SourceLimit

  /** The source files under a directory, added to those read so far. */
  function ReadFrom(l: Layout, entries: seq<Entry>, prefix: string, files: seq<SourceFile>, size: nat)
    : Result<(seq<SourceFile>, nat), SourceError>
  {
    if entries == [] then Ok((files, size))
    else
      var e := entries[0];
      var path := prefix + e.name;
      if prefix == "" && path !in l.rootFiles && path !in l.roots then ReadFrom(l, entries[1..], prefix, files, size)
      else
        match e.node
        case Dir(inner) =>
          if !PlainName(e.name) then Err(UnexpectedPath(path))
          else
            (match ReadFrom(l, inner, path + "/", files, size)
             case Ok((more, total)) => ReadFrom(l, entries[1..], prefix, more, total)
             case Err(error) => Err(error))
        case File(c) =>
          if !SafeSourcePath(l, path) then Err(UnexpectedPath(path))
          else if size + |c| > MAX_SOURCE_BYTES || |files| >= MAX_FILES then Err(SourceLimit)
          else ReadFrom(l, entries[1..], prefix, files + [SourceFile(path, c, Sha256(c))], size + |c|)
  }

  function SortFiles(files: seq<SourceFile>): seq<SourceFile> {
    SortByKey((f: SourceFile) => f.path, files)
  }

  function ReadModuleSource(l: Layout, entries: seq<Entry>): Result<seq<SourceFile>, SourceError> {
    match ReadFrom(l, entries, "", [], 0)
    case Ok((files, _)) => Ok(SortFiles(files))
    case Err(error) => Err(error)
  }

  /** The hashes an install records for a file list. */
  function Recorded(files: seq<SourceFile>): map<string, Digest> {
    if files == [] then map[]
    else Recorded(files[..|files| - 1])[files[|files| - 1].path := files[|files| - 1].sha256]
  }

  /** A digest of a file list that is equal only for equal paths and hashes. */
  datatype ListDigest = ListDigest(entries: seq<(string, Digest)>)

  function SourceDigest(files: seq<SourceFile>): ListDigest {
    ListDigest(Map((f: SourceFile) => (f.path, f.sha256), SortFiles(files)))
  }

  /* Round trip. */

  function AsSource(list: seq<Listed>): seq<SourceFile> {
    if list == [] then []
    else [SourceOf(list[0])] + AsSource(list[1..])
  }

  function SizeOf(list: seq<Listed>): nat {
    if list == [] then 0 else |list[0].content| + SizeOf(list[1..])
  }

  lemma {:induction false} SumOfLists(a: seq<Listed>, b: seq<Listed>)
    ensures AsSource(a + b) == AsSource(a) + AsSource(b)
    ensures SizeOf(a + b) == SizeOf(a) + SizeOf(b)
  {
    if a == [] {
      assert a + b == b;
    } else {
      assert (a + b)[1..] == a[1..] + b;
      SumOfLists(a[1..], b);
    }
  }

  function SourceOf(x: Listed): SourceFile {
    SourceFile(x.path, x.content, Sha256(x.content))
  }

  function WithoutAt(list: seq<Listed>, i: nat): seq<Listed>
    requires i < |list|
  {
    list[..i] + list[i + 1..]
  }

  lemma TakeOutCounts(list: seq<Listed>, i: nat)
    requires i < |list|
    ensures multiset(WithoutAt(list, i)) == multiset(list) - multiset{list[i]}
  {
    assert list == list[..i] + [list[i]] + list[i + 1..];
  }

  lemma TakeOutFiles(list: seq<Listed>, i: nat)
    requires i < |list|
    ensures multiset(AsSource(list)) == multiset{SourceOf(list[i])} + multiset(AsSource(WithoutAt(list, i)))
    ensures SizeOf(list) == |list[i].content| + SizeOf(WithoutAt(list, i))
  {
    var x, front, back := list[i], list[..i], list[i + 1..];
    assert list == front + ([x] + back);
    SumOfLists(front, [x] + back);
    SumOfLists([x], back);
    SumOfLists(front, back);
    assert [x][1..] == [];
    assert AsSource([x]) == [SourceOf(x)];
  }

  /** Reordering a list changes neither its files nor its size. */
  lemma {:induction false} SameFiles(a: seq<Listed>, b: seq<Listed>)
    requires multiset(a) == multiset(b)
    ensures multiset(AsSource(a)) == multiset(AsSource(b)) && SizeOf(a) == SizeOf(b) && |a| == |b|
    decreases |a|
  {
    assert |multiset(a)| == |multiset(b)|;
    if a != [] {
      assert a[0] in multiset(b);
      var i :| 0 <= i < |b| && b[i] == a[0];
      TakeOutCounts(a, 0);
      TakeOutCounts(b, i);
      SameFiles(WithoutAt(a, 0), WithoutAt(b, i));
      TakeOutFiles(a, 0);
      TakeOutFiles(b, i);
    }
  }

  lemma NothingListed(files: seq<SourceFile>)
    requires files == []
    ensures AsSource(AsListed(files)) == files && SizeOf(AsListed(files)) == TotalSize(files)
  {
  }

  lemma LastListed(files: seq<SourceFile>)
    requires files != [] && files[|files| - 1].sha256 == Sha256(files[|files| - 1].content)
    ensures var n := |files| - 1;
      var last := Listed(files[n].path, files[n].content);
      && AsListed(files) == AsListed(files[..n]) + [last]
      && AsSource([last]) == [files[n]] && SizeOf([last]) == |files[n].content|
      && TotalSize(files) == TotalSize(files[..n]) + |files[n].content|
  {
    var n := |files| - 1;
    var last := Listed(files[n].path, files[n].content);
    assert [last][1..] == [];
    assert AsSource([last]) == [SourceOf(last)];
  }

  lemma {:induction false} SourceOfListed(files: seq<SourceFile>)
    requires forall f :: f in files ==> f.sha256 == Sha256(f.content)
    ensures AsSource(AsListed(files)) == files && SizeOf(AsListed(files)) == TotalSize(files)
    decreases |files|
  {
    hide AsSource, SizeOf, AsListed, TotalSize;
    if files == [] {
      NothingListed(files);
    } else {
      var n := |files| - 1;
      assert files[n] in files;
      SourceOfListed(files[..n]);
      LastListed(files);
      SumOfLists(AsListed(files[..n]), [Listed(files[n].path, files[n].content)]);
      assert files == files[..n] + [files[n]];
    }
  }

  lemma UnderIsListed(entries: seq<Entry>, prefix: string)
    requires entries != []
    ensures Listing(entries, prefix) == Under(entries[0], prefix) + Listing(entries[1..], prefix)
  {
  }

  ghost predicate Readable(l: Layout, entries: seq<Entry>, prefix: string, files: seq<SourceFile>, size: nat) {
    && PlainTree(entries) && (prefix == "" ==> PlainRoot(l, entries))
    && (forall f :: f in Listing(entries, prefix) ==> SafeSourcePath(l, f.path))
    && |files| + |Listing(entries, prefix)| <= MAX_FILES
    && size + SizeOf(Listing(entries, prefix)) <= MAX_SOURCE_BYTES
  }

  lemma ReadableParts(l: Layout, entries: seq<Entry>, prefix: string, files: seq<SourceFile>, size: nat)
    requires entries != [] && Readable(l, entries, prefix, files, size)
    ensures var here := Under(entries[0], prefix);
      && Listing(entries, prefix) == here + Listing(entries[1..], prefix)
      && |AsSource(here)| == |here|
      && Readable(l, entries[1..], prefix, files + AsSource(here), size + SizeOf(here))
      && (entries[0].node.Dir? ==> Readable(l, entries[0].node.entries, prefix + entries[0].name + "/", files, size))
  {
    var here := Under(entries[0], prefix);
    UnderIsListed(entries, prefix);
    SumOfLists(here, Listing(entries[1..], prefix));
    SourceLength(here);
    assert entries[0] in entries;
    forall f | f in here ensures f in Listing(entries, prefix) {}
    forall f | f in Listing(entries[1..], prefix) ensures f in Listing(entries, prefix) {}
  }

  lemma ReadableFirst(l: Layout, entries: seq<Entry>, prefix: string, files: seq<SourceFile>, size: nat)
    requires entries != [] && Readable(l, entries, prefix, files, size)
    ensures var e := entries[0];
      && (prefix != "" || e.name in l.roots || e.name in l.rootFiles)
      && PlainName(e.name)
      && (e.node.File? ==>
            && SafeSourcePath(l, prefix + e.name)
            && size + |e.node.content| <= MAX_SOURCE_BYTES && |files| < MAX_FILES
            && AsSource(Under(e, prefix)) == [SourceFile(prefix + e.name, e.node.content, Sha256(e.node.content))]
            && SizeOf(Under(e, prefix)) == |e.node.content|)
  {
    var e := entries[0];
    assert e in entries;
    if e.node.File? {
      var here := Under(e, prefix);
      UnderIsListed(entries, prefix);
      SumOfLists(here, Listing(entries[1..], prefix));
      assert here == [Listed(prefix + e.name, e.node.content)] && here[1..] == [];
      assert here[0] in Listing(entries, prefix);
      assert AsSource(here) == [SourceOf(here[0])];
    }
  }

  lemma ReadFile(l: Layout, entries: seq<Entry>, prefix: string, files: seq<SourceFile>, size: nat)
    requires entries != [] && entries[0].node.File?
    requires prefix != "" || entries[0].name in l.roots || entries[0].name in l.rootFiles
    requires SafeSourcePath(l, prefix + entries[0].name)
    requires size + |entries[0].node.content| <= MAX_SOURCE_BYTES && |files| < MAX_FILES
    ensures var c := entries[0].node.content;
      ReadFrom(l, entries, prefix, files, size)
      == ReadFrom(l, entries[1..], prefix, files + [SourceFile(prefix + entries[0].name, c, Sha256(c))], size + |c|)
  {
    assert prefix == "" ==> prefix + entries[0].name == entries[0].name;
  }

  lemma ReadDirectory(
      l: Layout, entries: seq<Entry>, prefix: string, files: seq<SourceFile>, size: nat, more: seq<SourceFile>,
      total: nat)
    requires entries != [] && entries[0].node.Dir? && PlainName(entries[0].name)
    requires prefix != "" || entries[0].name in l.roots || entries[0].name in l.rootFiles
    requires ReadFrom(l, entries[0].node.entries, prefix + entries[0].name + "/", files, size) == Ok((more, total))
    ensures ReadFrom(l, entries, prefix, files, size) == ReadFrom(l, entries[1..], prefix, more, total)
  {
    assert prefix == "" ==> prefix + entries[0].name == entries[0].name;
  }

  lemma ReadTogether(
      l: Layout, entries: seq<Entry>, prefix: string, files: seq<SourceFile>, size: nat,
      more: seq<SourceFile>, total: nat)
    requires entries != []
    requires more == files + AsSource(Under(entries[0], prefix)) && total == size + SizeOf(Under(entries[0], prefix))
    requires ReadFrom(l, entries, prefix, files, size) == ReadFrom(l, entries[1..], prefix, more, total)
    requires ReadsAll(l, entries[1..], prefix, more, total)
    ensures ReadsAll(l, entries, prefix, files, size)
  {
    hide ReadFrom;
    var here, later := Under(entries[0], prefix), Listing(entries[1..], prefix);
    UnderIsListed(entries, prefix);
    SumOfLists(here, later);
    assert more + AsSource(later) == files + (AsSource(here) + AsSource(later));
  }

  /** The walk adds exactly the files listed. */
  ghost predicate ReadsAll(l: Layout, entries: seq<Entry>, prefix: string, files: seq<SourceFile>, size: nat) {
    ReadFrom(l, entries, prefix, files, size)
    == Ok((files + AsSource(Listing(entries, prefix)), size + SizeOf(Listing(entries, prefix))))
  }

  lemma {:induction false} PlainTreeIsRead(
      l: Layout, entries: seq<Entry>, prefix: string, files: seq<SourceFile>, size: nat)
    requires Readable(l, entries, prefix, files, size)
    ensures ReadsAll(l, entries, prefix, files, size)
    decreases entries, 1
  {
    hide SafeSourcePath, PlainTree, PlainRoot;
    if entries == [] {
      assert files + [] == files;
    } else {
      var tail := entries[1..];
      var here := Under(entries[0], prefix);
      FirstIsRead(l, entries, prefix, files, size);
      ReadableParts(l, entries, prefix, files, size);
      PlainTreeIsRead(l, tail, prefix, files + AsSource(here), size + SizeOf(here));
      ReadTogether(l, entries, prefix, files, size, files + AsSource(here), size + SizeOf(here));
    }
  }

  lemma {:induction false} FirstIsRead(
      l: Layout, entries: seq<Entry>, prefix: string, files: seq<SourceFile>, size: nat)
    requires entries != [] && Readable(l, entries, prefix, files, size)
    ensures ReadFrom(l, entries, prefix, files, size)
         == ReadFrom(l, entries[1..], prefix, files + AsSource(Under(entries[0], prefix)),
                     size + SizeOf(Under(entries[0], prefix)))
    decreases entries, 0
  {
    hide SafeSourcePath, PlainTree, PlainRoot, ReadFrom, Listing, AsSource, SizeOf;
    var e := entries[0];
    ReadableFirst(l, entries, prefix, files, size);
    if e.node.Dir? {
      var here := Under(e, prefix);
      ReadableParts(l, entries, prefix, files, size);
      PlainTreeIsRead(l, e.node.entries, prefix + e.name + "/", files, size);
      ReadDirectory(l, entries, prefix, files, size, files + AsSource(here), size + SizeOf(here));
    } else {
      ReadFile(l, entries, prefix, files, size);
    }
  }

  lemma {:induction false} SourceLength(list: seq<Listed>)
    ensures |AsSource(list)| == |list|
  {
    if list != [] {
      SourceLength(list[1..]);
    }
  }

  function HashMap(list: seq<Listed>): map<string, Digest> {
    if list == [] then map[] else map[list[0].path := Sha256(list[0].content)] + HashMap(list[1..])
  }

  lemma MapSumAssociates(a: map<string, Digest>, b: map<string, Digest>, c: map<string, Digest>)
    ensures a + (b + c) == (a + b) + c
  {
  }

  lemma {:induction false} HashMapOfSum(a: seq<Listed>, b: seq<Listed>)
    ensures HashMap(a + b) == HashMap(a) + HashMap(b)
  {
    if a == [] {
      assert a + b == b;
    } else {
      assert (a + b)[1..] == a[1..] + b && (a + b)[0] == a[0];
      HashMapOfSum(a[1..], b);
      MapSumAssociates(map[a[0].path := Sha256(a[0].content)], HashMap(a[1..]), HashMap(b));
    }
  }

  lemma {:induction false} PlainTreeIsHashed(entries: seq<Entry>, prefix: string)
    requires PlainTree(entries)
    ensures Hashes(entries, prefix) == HashMap(Listing(entries, prefix))
  {
    if entries != [] {
      var e := entries[0];
      assert e in entries;
      UnderIsListed(entries, prefix);
      HashMapOfSum(Under(e, prefix), Listing(entries[1..], prefix));
      PlainTreeIsHashed(entries[1..], prefix);
      match e.node {
        case File(c) => assert Under(e, prefix)[1..] == [];
        case Dir(inner) => PlainTreeIsHashed(inner, prefix + e.name + "/");
      }
    }
  }

  /** One content per path. */
  ghost predicate Functional(list: seq<Listed>) {
    forall x, y :: x in list && y in list && x.path == y.path ==> x == y
  }

  lemma HashMapStep(list: seq<Listed>)
    requires list != [] && Functional(list)
    ensures var more := HashMap(list[1..]);
      && (forall p :: p in HashMap(list) <==> p == list[0].path || p in more)
      && HashMap(list)[list[0].path] == (if list[0].path in more then more[list[0].path] else Sha256(list[0].content))
      && (forall p :: p in more ==> HashMap(list)[p] == more[p])
  {
  }

  lemma {:induction false} HashMapMembers(list: seq<Listed>)
    requires Functional(list)
    ensures forall x :: x in list ==> x.path in HashMap(list) && HashMap(list)[x.path] == Sha256(x.content)
    ensures forall p :: p in HashMap(list) ==> exists x :: x in list && x.path == p
  {
    if list != [] {
      HashMapMembers(list[1..]);
      HashMapStep(list);
      hide HashMap;
      assert list == [list[0]] + list[1..] && list[0] in list;
      forall p | p in HashMap(list) ensures exists x :: x in list && x.path == p {
        if p != list[0].path {
          var x :| x in list[1..] && x.path == p;
          assert x in list;
        }
      }
    }
  }

  lemma {:induction false} RecordedMembers(files: seq<SourceFile>)
    requires forall i, j :: 0 <= i < j < |files| ==> files[i].path != files[j].path
    ensures forall f :: f in files ==> f.path in Recorded(files) && Recorded(files)[f.path] == f.sha256
    ensures forall p :: p in Recorded(files) ==> exists f :: f in files && f.path == p
    decreases |files|
  {
    if files != [] {
      var n := |files| - 1;
      RecordedMembers(files[..n]);
      assert files == files[..n] + [files[n]];
      forall p | p in Recorded(files) ensures exists f :: f in files && f.path == p {
        if p == files[n].path {
          assert files[n] in files;
        } else {
          assert p in Recorded(files[..n]);
          var f :| f in files[..n] && f.path == p;
          assert f in files;
        }
      }
    }
  }

  lemma AcceptablePathsDiffer(l: Layout, files: seq<SourceFile>)
    requires AcceptableFiles(l, files)
    ensures forall i, j :: 0 <= i < j < |files| ==> files[i].path != files[j].path
  {
    forall i, j | 0 <= i < j < |files| ensures files[i].path != files[j].path {
      assert Lower(files[i].path) != Lower(files[j].path);
    }
  }

  lemma ListedMembers(files: seq<SourceFile>)
    ensures forall x :: x in AsListed(files) <==> exists f :: f in files && x == Listed(f.path, f.content)
  {
    var list := AsListed(files);
    forall x ensures x in list <==> exists f :: f in files && x == Listed(f.path, f.content) {
      if x in list {
        var i :| 0 <= i < |list| && list[i] == x;
        assert files[i] in files;
      }
      if exists f :: f in files && x == Listed(f.path, f.content) {
        var f :| f in files && x == Listed(f.path, f.content);
        var i :| 0 <= i < |files| && files[i] == f;
        assert list[i] == x;
      }
    }
  }

  lemma FirstOfSorted(a: seq<SourceFile>, b: seq<SourceFile>)
    requires SortedByKey((f: SourceFile) => f.path, a) && SortedByKey((f: SourceFile) => f.path, b)
    requires multiset(a) == multiset(b) && a != [] && b != []
    ensures a[0].path == b[0].path && b[0] in a
  {
    assert b[0] in multiset(a) && a[0] in multiset(b);
    var i :| 0 <= i < |b| && b[i] == a[0];
    var j :| 0 <= j < |a| && a[j] == b[0];
    BeforeTotal(a[0].path, b[0].path);
  }

  /** Sorting by a key that tells elements apart gives one result for one collection. */
  lemma WithoutFirst(a: seq<SourceFile>)
    requires a != []
    ensures multiset(a[1..]) == multiset(a) - multiset{a[0]}
  {
    assert a == [a[0]] + a[1..];
  }

  lemma SortedTail(a: seq<SourceFile>)
    requires a != [] && SortedByKey((f: SourceFile) => f.path, a)
    ensures SortedByKey((f: SourceFile) => f.path, a[1..])
  {
  }

  lemma {:induction false} SortedFilesAreEqual(a: seq<SourceFile>, b: seq<SourceFile>)
    requires SortedByKey((f: SourceFile) => f.path, a) && SortedByKey((f: SourceFile) => f.path, b)
    requires multiset(a) == multiset(b)
    requires forall f, g :: f in a && g in a && f.path == g.path ==> f == g
    ensures a == b
    decreases |a|
  {
    hide SortedByKey;
    assert |multiset(a)| == |multiset(b)|;
    if a != [] {
      FirstOfSorted(a, b);
      var x := a[0];
      assert x == b[0];
      assert a == [x] + a[1..] && b == [x] + b[1..];
      WithoutFirst(a);
      WithoutFirst(b);
      SortedTail(a);
      SortedTail(b);
      SortedFilesAreEqual(a[1..], b[1..]);
    }
  }

  lemma SortIsCanonical(a: seq<SourceFile>, b: seq<SourceFile>)
    requires multiset(a) == multiset(b)
    requires forall i, j :: 0 <= i < j < |b| ==> b[i].path != b[j].path
    ensures SortFiles(a) == SortFiles(b)
  {
    var key := (f: SourceFile) => f.path;
    SortSorts(key, a);
    SortSorts(key, b);
    SortKeepsMultiset(key, a);
    SortKeepsMultiset(key, b);
    forall f, g | f in SortFiles(a) && g in SortFiles(a) && f.path == g.path ensures f == g {
      assert f in multiset(SortFiles(a)) && g in multiset(SortFiles(a));
      assert f in multiset(b) && g in multiset(b);
    }
    SortedFilesAreEqual(SortFiles(a), SortFiles(b));
  }

  /** The digest of a list does not depend on its order. */
  lemma DigestIgnoresOrder(a: seq<SourceFile>, b: seq<SourceFile>)
    requires multiset(a) == multiset(b)
    requires forall i, j :: 0 <= i < j < |b| ==> b[i].path != b[j].path
    ensures SourceDigest(a) == SourceDigest(b)
  {
    SortIsCanonical(a, b);
  }

  lemma HashMapIsRecorded(list: seq<Listed>, files: seq<SourceFile>)
    requires forall i, j :: 0 <= i < j < |files| ==> files[i].path != files[j].path
    requires forall f :: f in files ==> f.sha256 == Sha256(f.content)
    requires forall x :: x in list <==> exists f :: f in files && x == Listed(f.path, f.content)
    ensures HashMap(list) == Recorded(files)
  {
    hide HashMap, Recorded;
    assert Functional(list);
    HashMapMembers(list);
    RecordedMembers(files);
    forall p | p in HashMap(list) ensures p in Recorded(files) && Recorded(files)[p] == HashMap(list)[p] {
      var x :| x in list && x.path == p;
      var f :| f in files && x == Listed(f.path, f.content);
    }
    forall p | p in Recorded(files) ensures p in HashMap(list) {
      var f :| f in files && f.path == p;
      assert Listed(f.path, f.content) in list;
    }
  }

  lemma StagedIsHashedAsRecorded(l: Layout, files: seq<SourceFile>, entries: seq<Entry>)
    requires AcceptableFiles(l, files) && PlainTree(entries)
    requires multiset(Listing(entries, "")) == multiset(AsListed(files))
    ensures DirectoryHashes(entries) == Recorded(files)
  {
    PlainTreeIsHashed(entries, "");
    AcceptablePathsDiffer(l, files);
    ListedMembers(files);
    SameMembers(Listing(entries, ""), AsListed(files));
    HashMapIsRecorded(Listing(entries, ""), files);
  }

  lemma SameMembers(a: seq<Listed>, b: seq<Listed>)
    requires multiset(a) == multiset(b)
    ensures forall x :: x in a <==> x in b
  {
    forall x ensures x in a <==> x in b {
      assert x in a <==> x in multiset(a);
      assert x in b <==> x in multiset(b);
    }
  }

  lemma ListedAreSafe(l: Layout, files: seq<SourceFile>, list: seq<Listed>)
    requires AcceptableFiles(l, files) && multiset(list) == multiset(AsListed(files))
    ensures forall x :: x in list ==> SafeSourcePath(l, x.path)
  {
    hide SafeSourcePath;
    ListedMembers(files);
    SameMembers(list, AsListed(files));
    forall x | x in list ensures SafeSourcePath(l, x.path) {
      var f :| f in files && x == Listed(f.path, f.content);
    }
  }

  lemma StagedIsReadBack(l: Layout, files: seq<SourceFile>, entries: seq<Entry>)
    requires AcceptableFiles(l, files) && PlainTree(entries) && PlainRoot(l, entries)
    requires multiset(Listing(entries, "")) == multiset(AsListed(files))
    ensures ReadModuleSource(l, entries) == Ok(SortFiles(files))
  {
    hide SafeSourcePath, PlainTree, PlainRoot, Listing, Lower;
    var list := Listing(entries, "");
    SameFiles(list, AsListed(files));
    SourceOfListed(files);
    ListedAreSafe(l, files, list);
    PlainTreeIsRead(l, entries, "", [], 0);
    AcceptablePathsDiffer(l, files);
    assert [] + AsSource(list) == AsSource(list);
    SortIsCanonical(AsSource(list), files);
  }

  /** An acceptable list, staged and read back: the directory hashes are the recorded ones,
      and the source read is the list itself, sorted by path. */
  lemma RoundTrip(l: Layout, files: seq<SourceFile>)
    requires AcceptableFiles(l, files)
    ensures Stage(files).Some?
    ensures DirectoryHashes(Stage(files).value) == Recorded(files)
    ensures ReadModuleSource(l, Stage(files).value) == Ok(SortFiles(files))
    ensures SourceDigest(SortFiles(files)) == SourceDigest(files)
  {
    AcceptedFilesStage(l, files);
    StagedIsHashedAsRecorded(l, files, Stage(files).value);
    StagedIsReadBack(l, files, Stage(files).value);
    SortKeepsMultiset((f: SourceFile) => f.path, files);
    AcceptablePathsDiffer(l, files);
    DigestIgnoresOrder(SortFiles(files), files);
  }
}
