/** Writing a module skeleton with an undo log: a failure midway leaves the module directory as
    it was found. */
module Scaffold {
  import opened Basics

  /** A path in the module directory, segment by segment; the directory itself is the empty path. */
  type Path = seq<string>

  /** What a file holds: a JSON object, key by key, or anything else. */
  datatype Content = Bundle(entries: seq<(string, string)>) | Other(text: string)

  /** The files and directories of a module directory. */
  datatype Contents = Contents(files: map<Path, Content>, dirs: set<Path>)

  predicate Above(d: Path, p: Path) {
    d <= p
  }

  /** Files and directories are apart, and everything lies in directories that are there. */
  ghost predicate WellFormed(c: Contents) {
    && (forall p :: p in c.files ==> p != [] && p !in c.dirs && p[..|p| - 1] in c.dirs)
    && (forall d :: d in c.dirs && d != [] ==> d[..|d| - 1] in c.dirs)
  }

  lemma {:induction false} DirectoriesAbove(c: Contents, d: Path, a: Path)
    requires WellFormed(c) && d in c.dirs && Above(a, d)
    ensures a in c.dirs
    decreases |d|
  {
    if a != d {
      assert Above(a, d[..|d| - 1]);
      DirectoriesAbove(c, d[..|d| - 1], a);
    }
  }

  lemma DirectoriesAboveFile(c: Contents, p: Path, a: Path)
    requires WellFormed(c) && p in c.files && Above(a, p) && a != p
    ensures a in c.dirs
  {
    assert Above(a, p[..|p| - 1]);
    DirectoriesAbove(c, p[..|p| - 1], a);
  }

  /** Every directory from the module directory down to d. */
  function Chain(d: Path): set<Path> {
    set k | 0 <= k <= |d| :: d[..k]
  }

  /** The first directory of the chain that is missing. */
  function FirstMissing(dirs: set<Path>, d: Path, k: nat): (r: Option<Path>)
    requires k <= |d|
    ensures r.Some? ==> r.value !in dirs && Above(r.value, d)
    ensures r.None? ==> forall i :: k <= i <= |d| ==> d[..i] in dirs
    ensures r.Some? ==> forall i :: k <= i < |r.value| ==> d[..i] in dirs
    decreases |d| - k
  {
    if d[..k] !in dirs then Some(d[..k]) else if k == |d| then None else FirstMissing(dirs, d, k + 1)
  }

  /* Undoing. */

  predicate UnderAny(created: seq<Path>, p: Path) {
    exists i :: 0 <= i < |created| && Above(created[i], p)
  }

  function WithoutUnder(c: Contents, d: Path): Contents {
    Contents(map p | p in c.files && !Above(d, p) :: c.files[p], set e | e in c.dirs && !Above(d, e))
  }

  /** A change to undo: the file replaced, with what it held. */
  datatype Replaced = Replaced(path: Path, content: Content)

  /** What the logs say about how `now` came from `before`. */
  ghost predicate Logged(before: Contents, now: Contents, replaced: seq<Replaced>, written: seq<Path>,
                         created: seq<Path>) {
    && WellFormed(now)
    && (forall i :: 0 <= i < |replaced| ==>
          replaced[i].path in before.files && replaced[i].content == before.files[replaced[i].path])
    && (forall p :: p in before.files ==> p in now.files)
    && (forall p :: p in before.files && now.files[p] != before.files[p] ==> exists r :: r in replaced && r.path == p)
    && (forall p :: p in now.files && p !in before.files ==> p in written)
    && (forall p :: p in written ==> p !in before.files)
    && before.dirs <= now.dirs
    && (forall d :: d in now.dirs && d !in before.dirs ==> UnderAny(created, d))
    && (forall c :: c in created ==> c !in before.dirs && c !in before.files)
  }

  /** Nothing that was there lies under a directory that was created. */
  lemma OldIsNotUnderNew(before: Contents, created: seq<Path>, p: Path)
    requires WellFormed(before) && (p in before.files || p in before.dirs)
    requires forall c :: c in created ==> c !in before.dirs && c !in before.files
    ensures !UnderAny(created, p)
  {
    forall i | 0 <= i < |created| ensures !Above(created[i], p) {
      assert created[i] in created;
      if Above(created[i], p) {
        if p in before.dirs {
          DirectoriesAbove(before, p, created[i]);
        } else if created[i] != p {
          DirectoriesAboveFile(before, p, created[i]);
        }
      }
    }
  }

  /* What writing means. */

  /** The directory after one file of the skeleton. */
  function Placed(c: Contents, p: Path, content: Content, present: set<Path>, merged: set<Path>): Contents
    requires p != []
  {
    if p in merged then c.(files := c.files[p := content])
    else if p in present then c
    else Contents(c.files[p := content], c.dirs + Chain(p[..|p| - 1]))
  }

  /** Nothing stands in the way of that file. */
  predicate CanPlace(c: Contents, p: Path, present: set<Path>, merged: set<Path>)
    requires p != []
  {
    if p in merged then p in c.files
    else p in present || (p !in c.files && p !in c.dirs && p !in Chain(p[..|p| - 1])
                          && forall d :: d in Chain(p[..|p| - 1]) ==> d !in c.files)
  }

  datatype PlannedFile = PlannedFile(path: Path, content: Content)

  ghost predicate PlannedWell(planned: seq<PlannedFile>) {
    && (forall f :: f in planned ==> f.path != [])
    && (forall i, j :: 0 <= i < j < |planned| ==> planned[i].path != planned[j].path)
  }

  function PlacedAll(c: Contents, planned: seq<PlannedFile>, present: set<Path>, merged: set<Path>): Contents
    requires forall f :: f in planned ==> f.path != []
  {
    if planned == [] then c
    else
      var n := |planned| - 1;
      assert planned[n] in planned && forall f :: f in planned[..n] ==> f in planned;
      Placed(PlacedAll(c, planned[..n], present, merged), planned[n].path, planned[n].content, present, merged)
  }

  /** Nothing stands in the way of any file, each in its turn. */
  ghost predicate AllPlaceable(c: Contents, planned: seq<PlannedFile>, present: set<Path>, merged: set<Path>)
    requires forall f :: f in planned ==> f.path != []
  {
    forall i | 0 <= i < |planned| ::
      (forall f :: f in planned[..i] ==> f in planned)
      && CanPlace(PlacedAll(c, planned[..i], present, merged), planned[i].path, present, merged)
  }

  /* Keeping the logs. */

  lemma ChainIsClosed(d: Path)
    ensures forall e :: e in Chain(d) && e != [] ==> e[..|e| - 1] in Chain(d)
    ensures d in Chain(d) && [] in Chain(d)
  {
    assert d == d[..|d|] && [] == d[..0];
    forall e | e in Chain(d) && e != [] ensures e[..|e| - 1] in Chain(d) {
      assert e[..|e| - 1] == d[..|e| - 1];
    }
  }

  lemma ReplacedIsLogged(
      before: Contents, now: Contents, replaced: seq<Replaced>, written: seq<Path>, created: seq<Path>,
      p: Path, content: Content)
    requires WellFormed(before) && Logged(before, now, replaced, written, created)
    requires p in now.files && p !in written && forall r :: r in replaced ==> r.path != p
    ensures Logged(before, now.(files := now.files[p := content]), replaced + [Replaced(p, now.files[p])], written,
        created)
  {
    hide UnderAny, Above;
    var after, more := now.(files := now.files[p := content]), replaced + [Replaced(p, now.files[p])];
    assert p in before.files && now.files[p] == before.files[p];
    forall q | q in before.files && after.files[q] != before.files[q] ensures exists r :: r in more && r.path == q {
      if q == p {
        assert more[|replaced|] == Replaced(p, now.files[p]);
        assert more[|replaced|] in more;
      } else {
        var r :| r in replaced && r.path == q;
        assert r in more;
      }
    }
  }

  /** Every new directory of a chain lies under the first that was missing. */
  lemma NewUnderFirst(c: Contents, d: Path, e: Path)
    requires WellFormed(c) && e in Chain(d) && e !in c.dirs
    ensures FirstMissing(c.dirs, d, 0).Some? && Above(FirstMissing(c.dirs, d, 0).value, e)
  {
    var k :| 0 <= k <= |d| && e == d[..k];
  }

  lemma FirstIsInChain(c: Contents, d: Path)
    requires FirstMissing(c.dirs, d, 0).Some?
    ensures FirstMissing(c.dirs, d, 0).value in Chain(d)
  {
    var first := FirstMissing(c.dirs, d, 0).value;
    assert first == d[..|first|];
  }

  lemma MadeIsUnder(before: Contents, now: Contents, created: seq<Path>, more: seq<Path>, d: Path, e: Path)
    requires WellFormed(now) && e in now.dirs + Chain(d) && e !in before.dirs
    requires e in now.dirs ==> UnderAny(created, e)
    requires more == if FirstMissing(now.dirs, d, 0).Some? then created + [FirstMissing(now.dirs, d, 0).value]
        else created
    ensures UnderAny(more, e)
  {
    if e in now.dirs {
      var i :| 0 <= i < |created| && Above(created[i], e);
      assert more[i] == created[i];
    } else {
      NewUnderFirst(now, d, e);
      assert more[|created|] == FirstMissing(now.dirs, d, 0).value;
    }
  }

  lemma ChainKeepsForm(c: Contents, d: Path)
    requires WellFormed(c) && forall e :: e in Chain(d) ==> e !in c.files
    ensures WellFormed(c.(dirs := c.dirs + Chain(d)))
  {
    ChainIsClosed(d);
  }

  lemma MadeIsLogged(
      before: Contents, now: Contents, replaced: seq<Replaced>, written: seq<Path>, created: seq<Path>, d: Path)
    requires WellFormed(before) && Logged(before, now, replaced, written, created)
    requires forall e :: e in Chain(d) ==> e !in now.files
    ensures var first := FirstMissing(now.dirs, d, 0);
      Logged(before, now.(dirs := now.dirs + Chain(d)), replaced, written,
             if first.Some? then created + [first.value] else created)
  {
    hide WellFormed, UnderAny, Chain, FirstMissing;
    var first := FirstMissing(now.dirs, d, 0);
    var after := now.(dirs := now.dirs + Chain(d));
    var more := if first.Some? then created + [first.value] else created;
    ChainKeepsForm(now, d);
    forall e | e in after.dirs && e !in before.dirs ensures UnderAny(more, e) {
      MadeIsUnder(before, now, created, more, d, e);
    }
    if first.Some? {
      FirstIsInChain(now, d);
    }
  }

  lemma WrittenIsLogged(
      before: Contents, now: Contents, replaced: seq<Replaced>, written: seq<Path>, created: seq<Path>,
      p: Path, content: Content)
    requires WellFormed(before) && Logged(before, now, replaced, written, created)
    requires p != [] && p !in now.files && p !in now.dirs && p[..|p| - 1] in now.dirs
    ensures Logged(before, now.(files := now.files[p := content]), replaced, written + [p], created)
  {
  }

  /* Undoing from the logs. */

  /** After the replaced files are back and the written ones gone, the files are as before. */
  lemma FilesAreBack(before: Contents, now: Contents, files: map<Path, Content>,
                     replaced: seq<Replaced>, written: seq<Path>, created: seq<Path>)
    requires Logged(before, now, replaced, written, created)
    requires forall p :: p in files <==> p in now.files && p !in written
    requires forall p :: p in files ==>
      files[p] == if exists r :: r in replaced && r.path == p then before.files[p] else now.files[p]
    ensures files == before.files
  {
  }

  /** Removing what was created leaves what was there. */
  lemma DirectoriesAreBack(before: Contents, now: Contents, after: Contents,
                           replaced: seq<Replaced>, written: seq<Path>, created: seq<Path>)
    requires WellFormed(before) && Logged(before, now, replaced, written, created)
    requires forall d :: d in after.dirs <==> d in now.dirs && !UnderAny(created, d)
    requires forall p :: p in after.files <==> p in before.files && !UnderAny(created, p)
    requires forall p :: p in after.files ==> after.files[p] == before.files[p]
    ensures after == before
  {
    forall p | p in before.files || p in before.dirs ensures !UnderAny(created, p) {
      OldIsNotUnderNew(before, created, p);
    }
    assert after.files == before.files;
    assert after.dirs == before.dirs;
  }

  /** The module directory while a scaffold is written. */
  class Directory {
    var now: Contents
    /** Whether each of the next changes fails; past the end none does. */
    var failures: seq<bool>

    constructor (now: Contents, failures: seq<bool>)
      ensures this.now == now && this.failures == failures
    {
      this.now, this.failures := now, failures;
    }

    method Fails() returns (fails: bool)
      modifies this`failures
      ensures fails == (old(failures) != [] && old(failures)[0])
      ensures failures == if old(failures) == [] then [] else old(failures)[1..]
    {
      fails := false;
      if failures != [] {
        fails, failures := failures[0], failures[1..];
      }
    }

    /** mkdir with its parents: the first directory it made, if any. It fails without effect
        where a file is in the way. */
    method MakeDirectories(d: Path) returns (ok: bool, first: Option<Path>)
      requires WellFormed(now)
      modifies this
      ensures WellFormed(now) && now.files == old(now.files)
      ensures !ok ==> now == old(now)
      ensures ok ==>
        && now.dirs == old(now.dirs) + Chain(d)
        && first == FirstMissing(old(now.dirs), d, 0)
        && forall p :: p in Chain(d) ==> p !in now.files
      ensures old(failures) == [] ==> failures == []
      ensures old(failures) == [] ==> (ok <==> forall p :: p in Chain(d) ==> p !in now.files)
    {
      var fails := Fails();
      if fails || exists p :: p in Chain(d) && p in now.files {
        return false, None;
      }
      first := FirstMissing(now.dirs, d, 0);
      ChainIsClosed(d);
      now := now.(dirs := now.dirs + Chain(d));
      ok := true;
    }

    /** Writes a file that must not be there. */
    method WriteNew(p: Path, content: Content) returns (ok: bool)
      requires WellFormed(now) && p != []
      modifies this
      ensures WellFormed(now) && now.dirs == old(now.dirs)
      ensures !ok ==> now == old(now)
      ensures ok ==> p !in old(now.files) && now.files == old(now.files)[p := content]
      ensures old(failures) == [] ==> failures == []
      ensures old(failures) == [] && p !in old(now.files) && p !in now.dirs && p[..|p| - 1] in now.dirs ==> ok
    {
      var fails := Fails();
      if fails || p in now.files || p in now.dirs || p[..|p| - 1] !in now.dirs {
        return false;
      }
      now := now.(files := now.files[p := content]);
      ok := true;
    }

    /** Reads a file and writes over it: what it held, or none if that failed. */
    method Replace(p: Path, content: Content) returns (held: Option<Content>)
      requires WellFormed(now)
      modifies this
      ensures WellFormed(now) && now.dirs == old(now.dirs)
      ensures held.None? ==> now == old(now)
      ensures held.Some? ==>
        p in old(now.files) && held.value == old(now.files)[p] && now.files == old(now.files)[p := content]
      ensures old(failures) == [] ==> failures == []
      ensures old(failures) == [] && p in old(now.files) ==> held.Some?
    {
      var fails := Fails();
      if fails || p !in now.files {
        return None;
      }
      held := Some(now.files[p]);
      now := now.(files := now.files[p := content]);
    }

    /** Writes a file of the skeleton: over the author's where the two were merged, not at all
        where the author's stays, else anew. */
    method Place(
        p: Path, content: Content, present: set<Path>, merged: set<Path>, ghost before: Contents,
        replaced: seq<Replaced>, written: seq<Path>, created: seq<Path>)
      returns (ok: bool, replaced': seq<Replaced>, written': seq<Path>, created': seq<Path>)
      requires WellFormed(before) && WellFormed(now) && Logged(before, now, replaced, written, created) && p != []
      requires p !in written && forall r :: r in replaced ==> r.path != p
      modifies this
      ensures WellFormed(now) && Logged(before, now, replaced', written', created')
      ensures forall q :: q in written' ==> q in written || q == p
      ensures forall r :: r in replaced' ==> r in replaced || r.path == p
      ensures ok ==> now == Placed(old(now), p, content, present, merged)
      ensures old(failures) == [] ==> failures == []
      ensures old(failures) == [] && CanPlace(old(now), p, present, merged) ==> ok
    {
      hide Logged;
      replaced', written', created' := replaced, written, created;
      if p in merged {
        var held := Replace(p, content);
        ok := held.Some?;
        if ok {
          ReplacedIsLogged(before, old(now), replaced, written, created, p, content);
          replaced' := replaced + [Replaced(p, held.value)];
        }
        return;
      }
      if p in present {
        return true, replaced', written', created';
      }
      ok, written', created' := PlaceNew(p, content, before, replaced, written, created);
    }

    method PlaceNew(
        p: Path, content: Content, ghost before: Contents,
        ghost replaced: seq<Replaced>, written: seq<Path>, created: seq<Path>)
      returns (ok: bool, written': seq<Path>, created': seq<Path>)
      requires WellFormed(before) && WellFormed(now) && Logged(before, now, replaced, written, created) && p != []
      modifies this
      ensures WellFormed(now) && Logged(before, now, replaced, written', created')
      ensures written' == if ok then written + [p] else written
      ensures ok ==> now == Contents(old(now.files)[p := content], old(now.dirs) + Chain(p[..|p| - 1]))
      ensures old(failures) == [] ==> failures == []
      ensures old(failures) == [] && CanPlace(old(now), p, {}, {}) ==> ok
    {
      hide Logged;
      written', created' := written, created;
      var parent := p[..|p| - 1];
      var first;
      ok, first := MakeDirectories(parent);
      if !ok {
        return;
      }
      MadeIsLogged(before, old(now), replaced, written, created, parent);
      ChainIsClosed(parent);
      if first.Some? {
        created' := created + [first.value];
      }
      ghost var made := now;
      ok := WriteNew(p, content);
      if ok {
        WrittenIsLogged(before, made, replaced, written, created', p, content);
        written' := written + [p];
      }
    }

    /* Undoing. */

    method RestoreReplaced(replaced: seq<Replaced>)
      requires forall r :: r in replaced ==> r.path in now.files
      modifies this`now
      ensures now.dirs == old(now.dirs) && now.files.Keys == old(now.files).Keys
      ensures forall p :: p in now.files ==>
        if exists r :: r in replaced && r.path == p then
          exists r :: r in replaced && r.path == p && now.files[p] == r.content
        else now.files[p] == old(now.files)[p]
    {
      for i := 0 to |replaced|
        invariant now.dirs == old(now.dirs) && now.files.Keys == old(now.files).Keys
        invariant forall p :: p in now.files ==>
          if exists r :: r in replaced[..i] && r.path == p
          then exists r :: r in replaced[..i] && r.path == p && now.files[p] == r.content
          else now.files[p] == old(now.files)[p]
      {
        assert replaced[..i + 1] == replaced[..i] + [replaced[i]];
        assert replaced[i] in replaced;
        now := now.(files := now.files[replaced[i].path := replaced[i].content]);
      }
      assert replaced[..|replaced|] == replaced;
    }

    method RemoveWritten(written: seq<Path>)
      modifies this`now
      ensures now.dirs == old(now.dirs)
      ensures forall p :: p in now.files <==> p in old(now.files) && p !in written
      ensures forall p :: p in now.files ==> now.files[p] == old(now.files)[p]
    {
      for i := 0 to |written|
        invariant now.dirs == old(now.dirs)
        invariant forall p :: p in now.files <==> p in old(now.files) && p !in written[..i]
        invariant forall p :: p in now.files ==> now.files[p] == old(now.files)[p]
      {
        assert written[..i + 1] == written[..i] + [written[i]];
        now := now.(files := now.files - {written[i]});
      }
      assert written[..|written|] == written;
    }

    /** Removes the created directories, last first, with all that is in them. */
    method RemoveCreated(created: seq<Path>)
      modifies this`now
      ensures forall d :: d in now.dirs <==> d in old(now.dirs) && !UnderAny(created, d)
      ensures forall p :: p in now.files <==> p in old(now.files) && !UnderAny(created, p)
      ensures forall p :: p in now.files ==> now.files[p] == old(now.files)[p]
    {
      var n := |created|;
      assert created[n..] == [];
      while n > 0
        invariant 0 <= n <= |created|
        invariant forall d :: d in now.dirs <==> d in old(now.dirs) && !UnderAny(created[n..], d)
        invariant forall p :: p in now.files <==> p in old(now.files) && !UnderAny(created[n..], p)
        invariant forall p :: p in now.files ==> now.files[p] == old(now.files)[p]
      {
        n := n - 1;
        UnderOneMore(created, n);
        now := WithoutUnder(now, created[n]);
      }
      assert created[0..] == created;
    }

    method Undo(replaced: seq<Replaced>, written: seq<Path>, created: seq<Path>, ghost before: Contents)
      requires WellFormed(before) && Logged(before, now, replaced, written, created)
      modifies this`now
      ensures now == before
    {
      ghost var left := now;
      RestoreReplaced(replaced);
      RemoveWritten(written);
      assert forall r :: r in replaced ==> r.path in before.files && r.content == before.files[r.path];
      FilesAreBack(before, left, now.files, replaced, written, created);
      RemoveCreated(created);
      DirectoriesAreBack(before, left, now, replaced, written, created);
    }

    /** Writes the planned files in turn. A failure midway is undone: the directory is exactly as
        it was found, whatever was replaced, skipped or written before. */
    method WriteScaffold(planned: seq<PlannedFile>, existed: bool, present: set<Path>, merged: set<Path>)
      returns (ok: bool)
      requires WellFormed(now) && PlannedWell(planned)
      requires existed == ([] in now.dirs) && (!existed ==> now == Contents(map[], {}))
      modifies this
      ensures !ok ==> now == old(now)
      ensures ok ==> now == PlacedAll(old(now), planned, present, merged)
      ensures old(failures) == [] && AllPlaceable(old(now), planned, present, merged) ==> ok
    {
      hide Logged, Placed, CanPlace, WellFormed;
      ghost var before := now;
      var replaced: seq<Replaced> := [];
      var written: seq<Path> := [];
      var created: seq<Path> := [];
      NothingLogged(before);
      for i := 0 to |planned|
        invariant WellFormed(now) && Logged(before, now, replaced, written, created)
        invariant old(failures) == [] ==> failures == []
        invariant forall f :: f in planned[..i] ==> f.path != []
        invariant now == PlacedAll(before, planned[..i], present, merged)
        invariant forall p :: p in written ==> Handled(planned, i, p)
        invariant forall r :: r in replaced ==> Handled(planned, i, r.path)
      {
        var f := planned[i];
        assert f in planned && !Handled(planned, i, f.path);
        assert planned[..i + 1] == planned[..i] + [f] && planned[..i + 1][..i] == planned[..i];
        ok, replaced, written, created := Place(f.path, f.content, present, merged, before, replaced, written, created);
        if !ok {
          if !existed {
            now := Contents(map[], {});
          } else {
            Undo(replaced, written, created, before);
          }
          return;
        }
      }
      assert planned[..|planned|] == planned;
      return true;
    }
  }

  /** This planned file is written: it is merged, or not there yet. */
  predicate Writes(f: PlannedFile, present: set<Path>, merged: set<Path>) {
    f.path in merged || f.path !in present
  }

  lemma PlacedAllStep(c: Contents, planned: seq<PlannedFile>, present: set<Path>, merged: set<Path>)
    requires PlannedWell(planned) && planned != []
    ensures var n := |planned| - 1;
      && PlannedWell(planned[..n]) && planned[n].path != []
      && (forall f :: f in planned[..n] ==> f in planned && f.path != planned[n].path)
      && PlacedAll(c, planned, present, merged).files
         == if Writes(planned[n], present, merged)
            then PlacedAll(c, planned[..n], present, merged).files[planned[n].path := planned[n].content]
            else PlacedAll(c, planned[..n], present, merged).files
  {
    var n := |planned| - 1;
    assert planned[n] in planned && forall f :: f in planned[..n] ==> f in planned;
  }

  /** A finished scaffold holds each planned file as planned, unless the author's stays. */
  lemma {:induction false} WrittenAsPlanned(
      c: Contents, planned: seq<PlannedFile>, present: set<Path>, merged: set<Path>, f: PlannedFile)
    requires PlannedWell(planned) && f in planned && Writes(f, present, merged)
    ensures var after := PlacedAll(c, planned, present, merged).files;
      f.path in after && after[f.path] == f.content
    decreases |planned|
  {
    hide PlacedAll;
    var n := |planned| - 1;
    PlacedAllStep(c, planned, present, merged);
    if f != planned[n] {
      assert planned == planned[..n] + [planned[n]];
      WrittenAsPlanned(c, planned[..n], present, merged, f);
    }
  }

  /** Every other file is as it was. */
  lemma {:induction false} OthersAreKept(
      c: Contents, planned: seq<PlannedFile>, present: set<Path>, merged: set<Path>, p: Path)
    requires PlannedWell(planned) && forall f :: f in planned && f.path == p ==> !Writes(f, present, merged)
    ensures var after := PlacedAll(c, planned, present, merged).files;
      (p in after <==> p in c.files) && (p in after ==> after[p] == c.files[p])
    decreases |planned|
  {
    if planned != [] {
      hide PlacedAll;
      PlacedAllStep(c, planned, present, merged);
      assert planned[|planned| - 1] in planned;
      OthersAreKept(c, planned[..|planned| - 1], present, merged, p);
    }
  }

  /* Merging with the author's translations. */

  /** Sets a key: in its place if it is there, else at the end. */
  function SetKey(entries: seq<(string, string)>, key: string, value: string): seq<(string, string)> {
    if entries == [] then [(key, value)]
    else if entries[0].0 == key then [(key, value)] + entries[1..]
    else [entries[0]] + SetKey(entries[1..], key, value)
  }

  /** An object with the keys of two, the second's values winning. */
  function Spread(first: seq<(string, string)>, second: seq<(string, string)>): seq<(string, string)> {
    if second == [] then first
    else SetKey(Spread(first, second[..|second| - 1]), second[|second| - 1].0, second[|second| - 1].1)
  }

  function ValueOf(entries: seq<(string, string)>, key: string): Option<string> {
    if entries == [] then None
    else if entries[0].0 == key then Some(entries[0].1)
    else ValueOf(entries[1..], key)
  }

  ghost predicate DistinctKeys(entries: seq<(string, string)>) {
    forall i, j :: 0 <= i < j < |entries| ==> entries[i].0 != entries[j].0
  }

  lemma {:induction false} SetKeyThere(entries: seq<(string, string)>, key: string, value: string, k: string)
    ensures ValueOf(SetKey(entries, key, value), k) == if k == key then Some(value) else ValueOf(entries, k)
  {
    if entries != [] {
      if entries[0].0 == key {
        assert ([(key, value)] + entries[1..])[1..] == entries[1..];
      } else {
        SetKeyThere(entries[1..], key, value, k);
        assert ([entries[0]] + SetKey(entries[1..], key, value))[1..] == SetKey(entries[1..], key, value);
      }
    } else {
      assert [(key, value)][1..] == [];
    }
  }

  lemma {:induction false} ValueOfLast(entries: seq<(string, string)>, k: string)
    requires entries != [] && DistinctKeys(entries)
    ensures var n := |entries| - 1;
      ValueOf(entries, k) == if entries[n].0 == k then Some(entries[n].1) else ValueOf(entries[..n], k)
  {
    var n := |entries| - 1;
    if n > 0 {
      assert entries[1..][..n - 1] == entries[..n][1..];
      ValueOfLast(entries[1..], k);
    }
  }

  /** The author keeps every key with its wording and gains the skeleton's other keys. */
  lemma {:induction false} AuthorWins(generated: seq<(string, string)>, authored: seq<(string, string)>, k: string)
    requires DistinctKeys(authored)
    ensures ValueOf(Spread(generated, authored), k)
         == if ValueOf(authored, k).Some? then ValueOf(authored, k) else ValueOf(generated, k)
    decreases |authored|
  {
    if authored != [] {
      var n := |authored| - 1;
      AuthorWins(generated, authored[..n], k);
      SetKeyThere(Spread(generated, authored[..n]), authored[n].0, authored[n].1, k);
      ValueOfLast(authored, k);
    }
  }

  predicate TranslationPath(p: Path) {
    |p| == 2 && p[0] == "translations" && |p[1]| > 5 && p[1][|p[1]| - 5..] == ".json"
  }

  /** The author's bundle at a planned path with the skeleton's keys added, if both are objects. */
  function MergedFile(files: map<Path, Content>, f: PlannedFile, present: set<Path>): Option<PlannedFile> {
    if f.path in present && TranslationPath(f.path) && f.path in files && files[f.path].Bundle? && f.content.Bundle?
    then Some(PlannedFile(f.path, Bundle(Spread(f.content.entries, files[f.path].entries))))
    else None
  }

  /** Every author's bundle the skeleton adds keys to. */
  method MergeAuthorBundles(files: map<Path, Content>, planned: seq<PlannedFile>, present: set<Path>)
    returns (merged: seq<PlannedFile>)
    ensures forall m :: m in merged <==> exists f :: f in planned && MergedFile(files, f, present) == Some(m)
    ensures forall m :: m in merged ==> m.path in present && m.path in files
  {
    merged := [];
    for i := 0 to |planned|
      invariant forall m :: m in merged <==> exists f :: f in planned[..i] && MergedFile(files, f, present) == Some(m)
      invariant forall m :: m in merged ==> m.path in present && m.path in files
    {
      assert planned[..i + 1] == planned[..i] + [planned[i]];
      var m := MergedFile(files, planned[i], present);
      if m.Some? {
        merged := merged + [m.value];
      }
    }
    assert planned[..|planned|] == planned;
  }

  ghost predicate Handled(planned: seq<PlannedFile>, n: nat, p: Path)
    requires n <= |planned|
  {
    exists i :: 0 <= i < n && planned[i].path == p
  }

  lemma NothingLogged(c: Contents)
    requires WellFormed(c)
    ensures Logged(c, c, [], [], [])
  {
  }

  lemma UnderOneMore(created: seq<Path>, n: nat)
    requires n < |created|
    ensures forall p :: UnderAny(created[n..], p) <==> Above(created[n], p) || UnderAny(created[n + 1..], p)
  {
    var longer, shorter := created[n..], created[n + 1..];
    forall p ensures UnderAny(longer, p) <==> Above(created[n], p) || UnderAny(shorter, p) {
      if UnderAny(longer, p) {
        var i :| 0 <= i < |longer| && Above(longer[i], p);
        if i > 0 {
          assert shorter[i - 1] == longer[i];
        }
      }
      if UnderAny(shorter, p) {
        var i :| 0 <= i < |shorter| && Above(shorter[i], p);
        assert longer[i + 1] == shorter[i];
      }
      if Above(created[n], p) {
        assert longer[0] == created[n];
      }
    }
  }
}
