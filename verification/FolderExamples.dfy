/**
 Concrete tables on which the unescaped path patterns go wrong: a rename that corrupts another folder,
 one that leaves a child behind, one that fails without need, and two filters that find too much.
 */
module FolderExamples {
  import opened Wrappers
  import opened FolderForest
  import opened FolderRewrite
  import opened FolderFilter
  import opened FoldersRepository
  import opened FoldersService
  import Like

  function Root(owner: OwnerId, name: string): Folder {
    Folder(owner, None, name, "/" + name + "/", 0)
  }

  lemma SanitizeKeeps(name: string)
    requires '/' !in name
    ensures Sanitize(name) == name
  {
  }

  lemma RootRenamed(owner: OwnerId, name: string, newName: string)
    requires '/' !in newName
    ensures RenamedRow(Root(owner, name), newName) == Root(owner, newName)
  {
    SanitizeKeeps(newName);
    assert CutEnd("/" + name + "/", |name|) == "/";
  }

  /** Two roots, of one owner or of two. */
  function TwoRoots(a: Folder, b: Folder, docs: Placements): Store {
    Store(map[0 := a, 1 := b], docs)
  }

  lemma TwoRootsSound(owner: OwnerId, name: string, owner': OwnerId, name': string, docs: Placements)
    requires name != "" && name' != "" && '/' !in name && '/' !in name'
    requires owner != owner' || name != name'
    requires forall d | d in docs :: docs[d] in {0, 1}
    ensures Sound(TwoRoots(Root(owner, name), Root(owner', name'), docs))
  {
    var fs := TwoRoots(Root(owner, name), Root(owner', name'), docs).folders;
    SanitizeKeeps(name);
    SanitizeKeeps(name');
    assert RowOk(fs, 0) && RowOk(fs, 1);
    assert fs[0].path[1..|fs[0].path| - 1] == name && fs[1].path[1..|fs[1].path| - 1] == name';
  }

  /** What the two statements make of the second folder when the first one, a root, is renamed. */
  function Second(fs: Table, newPath: string): Folder
    requires fs.Keys == {0, 1}
  {
    if Like.Matches(Like.Same, fs[0].path + "%", fs[1].path)
    then fs[1].(path := Rebase(newPath, |fs[0].path|, fs[1].path))
    else fs[1]
  }

  lemma FirstRenamed(fs: Table, owner: OwnerId, name: string, newName: string)
    requires fs.Keys == {0, 1} && fs[0] == Root(owner, name) && fs[1].owner == owner
    requires Forest(fs) && ValidName(newName) && fs[1].path != Root(owner, newName).path
    ensures var row := Root(owner, newName);
            && RenamedRow(fs[0], newName) == row && Placeable(fs, 0, row)
            && Rewritten(fs, 0, row) == map[0 := row, 1 := Second(fs, row.path)]
  {
    RootRenamed(owner, name, newName);
    RenamedRowPlaceable(fs, 0, newName);
  }

  /** The pattern selects the second folder exactly if it is not below the first: a failed fit. */
  lemma Misfit(fs: Table, newPath: string)
    requires fs.Keys == {0, 1} && fs[0].owner == fs[1].owner && newPath != fs[0].path
    requires Like.Matches(Like.Same, fs[0].path + "%", fs[1].path) <==> !(fs[0].path <= fs[1].path)
    ensures !PatternFits(fs, 0, newPath)
  {
    assert Selected(fs, 0, fs[0].owner, fs[0].path, 1) <==> !(fs[0].path <= fs[1].path);
  }

  lemma FirstSlipsThrough(fs: Table, owner: OwnerId, name: string, newName: string)
    requires Forest(fs) && DepthsAllowed(fs) && fs.Keys == {0, 1} && ValidName(newName)
    requires fs[0] == Root(owner, name) && fs[1].owner == owner && !Tame(fs[0].path)
    requires fs[1].path != Root(owner, newName).path
    requires Second(fs, Root(owner, newName).path).path != Root(owner, newName).path
    requires !PatternFits(fs, 0, Root(owner, newName).path)
    ensures var row := Root(owner, newName);
            && RenamedRow(fs[0], newName) == row && Unused(fs, owner, row.path, 0) && SlipsThrough(fs, 0, row)
            && Rewritten(fs, 0, row) == map[0 := row, 1 := Second(fs, row.path)]
  {
    FirstRenamed(fs, owner, name, newName);
    assert RowOk(fs, 1);
    PairCommits(Rewritten(fs, 0, Root(owner, newName)));
  }

  /** A misfit that no constraint notices. */
  lemma UnnoticedRename(s: Store, owner: OwnerId, name: string, newName: string)
    requires Sound(s) && s.folders.Keys == {0, 1} && ValidName(newName)
    requires s.folders[0] == Root(owner, name) && s.folders[1].owner == owner && !Tame(s.folders[0].path)
    requires s.folders[1].path != Root(owner, newName).path
    requires Second(s.folders, Root(owner, newName).path).path != Root(owner, newName).path
    requires !PatternFits(s.folders, 0, Root(owner, newName).path)
    ensures var r := Step(s, owner, Rename(0, newName));
            && r.Ok? && !Sound(r.value)
            && r.value.folders == map[0 := Root(owner, newName), 1 := Second(s.folders, Root(owner, newName).path)]
  {
    var fs, row := s.folders, Root(owner, newName);
    FirstSlipsThrough(fs, owner, name, newName);
    RenameSucceedsIff(s, owner, 0, newName);
    StepSoundIff(s, owner, Rename(0, newName));
    RenamesTo(fs, owner, 0, newName);
  }

  lemma PairCommits(t: Table)
    requires t.Keys == {0, 1} && DepthsAllowed(t) && t[0].path != t[1].path
    requires t[0].parent == None && t[1].parent in {None, Some(0)}
    ensures Violation(t) == None
  {
  }

  lemma RenamesTo(fs: Table, owner: OwnerId, id: FolderId, name: string)
    requires RenameFolder(fs, owner, id, name).Ok?
    ensures id in fs && RenameFolder(fs, owner, id, name).value == Rewritten(fs, id, RenamedRow(fs[id], name))
  {
  }

  // ---------------------------------------------------------------------------------------------
  // Renames
  // ---------------------------------------------------------------------------------------------

  lemma PercentPathMatchesStranger()
    ensures Like.Matches(Like.Same, "/%/" + "%", "/abc/")
  {
    var p, s := "/%/" + "%", "/abc/";
    assert p[1..] == "%/%" && "%/%"[1..] == "/%" && "/%"[1..] == "%";
    assert s[1..] == "abc/" && "abc/"[3..] == "/" && "/"[1..] == "";
    Like.PercentMatchesAll(Like.Same, "");
    assert Like.Matches(Like.Same, "/%", "/");
    assert Like.Matches(Like.Same, "%/%", "abc/");
  }

  /** Renaming `%` to `q` succeeds, drags the unrelated folder `abc` to the path `/q/c/`, and leaves a
      table that is no forest. */
  lemma PercentNameBreaksForest(s: Store)
    requires s == TwoRoots(Root(7, "%"), Root(7, "abc"), map[])
    ensures Sound(s)
    ensures var r := Step(s, 7, Rename(0, "q"));
            r.Ok? && r.value.folders[1].path == "/q/c/" && !Sound(r.value)
  {
    TwoRootsSound(7, "%", 7, "abc", map[]);
    PercentPathMatchesStranger();
    PercentPaths(s.folders);
    Misfit(s.folders, "/q/");
    UnnoticedRename(s, 7, "%", "q");
  }

  lemma PercentPaths(fs: Table)
    requires fs.Keys == {0, 1} && fs[0] == Root(7, "%") && fs[1] == Root(7, "abc")
    ensures fs[0].path == "/%/" && fs[1].path == "/abc/" && Root(7, "q").path == "/q/"
    ensures "/%/" != "/q/" && "/abc/" != "/q/" && "/q/c/" != "/q/" && !Tame("/%/") && !("/%/" <= "/abc/")
    ensures Rebase("/q/", |fs[0].path|, fs[1].path) == "/q/c/"
  {
    assert "/%/"[1] == '%' && "/abc/"[1] == 'a' && "/q/"[1] == 'q';
    assert |"/q/c/"| == 5 && |"/q/"| == 3;
    assert "/abc/"[3..] == "c/" && "/q/" + "c/" == "/q/c/";
  }

  lemma BackslashPathMissesChild()
    ensures !Like.Matches(Like.Same, "/a\\b/" + "%", "/a\\b/c/")
  {
    var p, s := "/a\\b/" + "%", "/a\\b/c/";
    assert p[1..] == "a\\b/%" && "a\\b/%"[1..] == "\\b/%";
    assert s[1..] == "a\\b/c/" && "a\\b/c/"[1..] == "\\b/c/";
    assert !Like.Matches(Like.Same, "\\b/%", "\\b/c/");
    assert !Like.Matches(Like.Same, "a\\b/%", "a\\b/c/");
  }

  lemma BackslashTableSound(fs: Table)
    requires fs == map[0 := Root(7, "a\\b"), 1 := Folder(7, Some(0), "c", "/a\\b/c/", 1)]
    ensures Sound(Store(fs, map[]))
  {
    SanitizeKeeps("a\\b");
    SanitizeKeeps("c");
    assert fs[0].path == "/a\\b/" && "/a\\b/" + "c" + "/" == "/a\\b/c/";
    assert RowOk(fs, 0) && RowOk(fs, 1);
    assert |fs[0].path| == 5 && |fs[1].path| == 7;
  }

  /** Renaming `a\b` to `q` succeeds, but its child keeps the old path. */
  lemma BackslashNameLosesChild(s: Store)
    requires s == Store(map[0 := Root(7, "a\\b"), 1 := Folder(7, Some(0), "c", "/a\\b/c/", 1)], map[])
    ensures Sound(s)
    ensures var r := Step(s, 7, Rename(0, "q"));
            r.Ok? && r.value.folders[0].path == "/q/" && r.value.folders[1] == s.folders[1] && !Sound(r.value)
  {
    BackslashTableSound(s.folders);
    BackslashPathMissesChild();
    BackslashPaths();
    Misfit(s.folders, "/q/");
    UnnoticedRename(s, 7, "a\\b", "q");
  }

  lemma BackslashPaths()
    ensures Root(7, "a\\b").path == "/a\\b/" && Root(7, "q").path == "/q/"
    ensures !Tame("/a\\b/") && "/a\\b/" <= "/a\\b/c/" && "/a\\b/" != "/q/" && "/a\\b/c/" != "/q/"
  {
    assert "/a\\b/"[2] == '\\' && "/a\\b/c/" == "/a\\b/" + "c/";
    assert |"/a\\b/"| == 5 && |"/a\\b/c/"| == 7 && |"/q/"| == 3;
  }

  lemma Lookalike()
    ensures Like.LooksLike("/a_/", "/ab/") && !("/a_/" <= "/ab/") && Tame("/a_/")
  {
    assert "/a_/"[2] == '_' && "/ab/"[2] == 'b';
  }

  /** A misfit of a path with `_` only: the unique constraint fires although the new path is free. */
  lemma RefusedRename(s: Store, owner: OwnerId, name: string, newName: string)
    requires Sound(s) && s.folders.Keys == {0, 1} && ValidName(newName)
    requires s.folders[0] == Root(owner, name) && s.folders[1].owner == owner && Tame(s.folders[0].path)
    requires s.folders[1].path != Root(owner, newName).path && s.folders[1].depth == 0
    requires !PatternFits(s.folders, 0, Root(owner, newName).path)
    ensures Unused(s.folders, owner, RenamedRow(s.folders[0], newName).path, 0)
    ensures Step(s, owner, Rename(0, newName)) == Err(Conflict)
  {
    var fs, row := s.folders, Root(owner, newName);
    FirstRenamed(fs, owner, name, newName);
    TameRewriteConflictsOrFits(fs, 0, row);
    FirstStatementCommits(fs, 0, row);
    assert RowOk(fs, 1);
    assert Violation(Rewritten(fs, 0, row)) == Some(UniqueViolation);
  }

  /** Renaming `a_` to the unused name `q` is refused as a conflict, because `ab` stands beside it. */
  lemma UnderscoreNameConflicts(s: Store)
    requires s == TwoRoots(Root(7, "a_"), Root(7, "ab"), map[])
    ensures Sound(s) && Unused(s.folders, 7, RenamedRow(s.folders[0], "q").path, 0)
    ensures Step(s, 7, Rename(0, "q")) == Err(Conflict)
  {
    TwoRootsSound(7, "a_", 7, "ab", map[]);
    Lookalike();
    assert s.folders[0].path == "/a_/" && s.folders[1].path == "/ab/" && Root(7, "q").path == "/q/";
    assert |"/ab/"| == 4 && |"/q/"| == 3;
    Like.UnderscorePrefix("/a_/", "/ab/");
    Misfit(s.folders, "/q/");
    RefusedRename(s, 7, "a_", "q");
  }

  // ---------------------------------------------------------------------------------------------
  // Filters
  // ---------------------------------------------------------------------------------------------

  /** Filtering on `a_` also finds a document placed in `ab`. */
  lemma UnderscoreFilterFindsStranger(s: Store)
    requires s == TwoRoots(Root(7, "a_"), Root(7, "ab"), map[5 := 1])
    ensures Sound(s)
    ensures 5 in SubtreeDocs(s.folders, s.docs, 0) && 5 !in DocsBelow(s.folders, s.docs, 0)
  {
    TwoRootsSound(7, "a_", 7, "ab", s.docs);
    Lookalike();
    assert s.folders[0].path == "/a_/" && s.folders[1].path == "/ab/";
    Like.UnderscorePrefix("/a_/", "/ab/");
    IsDescendantIsOnChain(s.folders, 0, 1);
  }

  /** Filtering on one owner's folder also finds a document in another owner's folder of that name. */
  lemma OwnersShareFilter(s: Store)
    requires s == TwoRoots(Root(7, "a"), Root(8, "a"), map[5 := 1])
    ensures Sound(s)
    ensures 5 in SubtreeDocs(s.folders, s.docs, 0) && 5 !in DocsBelow(s.folders, s.docs, 0)
  {
    TwoRootsSound(7, "a", 8, "a", s.docs);
    var p := s.folders[0].path;
    assert p == "/a/";
    Like.UnderscorePrefix(p, p);
    IsDescendantIsOnChain(s.folders, 0, 1);
  }

  /** Renaming `a` to `q` makes its filter find a document of another owner's `q`. */
  lemma RenameChangesFilter(s: Store)
    requires s == TwoRoots(Root(7, "a"), Root(8, "q"), map[5 := 1])
    ensures Sound(s) && 5 !in SubtreeDocs(s.folders, s.docs, 0)
    ensures var r := Step(s, 7, Rename(0, "q"));
            r.Ok? && Sound(r.value) && 5 in SubtreeDocs(r.value.folders, r.value.docs, 0)
  {
    TwoRootsSound(7, "a", 8, "q", s.docs);
    SinglePaths();
    OtherOwnersName(s, 7, "a", 8, "q");
  }

  lemma SinglePaths()
    ensures Like.Plain("/a/") && Like.Plain("/q/") && !("/a/" <= "/q/")
    ensures Root(7, "a").path == "/a/" && Root(8, "q").path == "/q/"
  {
    assert "/a/"[1] == 'a' && "/q/"[1] == 'q';
  }

  lemma OtherOwnersName(s: Store, owner: OwnerId, name: string, owner': OwnerId, name': string)
    requires Sound(s) && s == TwoRoots(Root(owner, name), Root(owner', name'), s.docs) && owner != owner'
    requires ValidName(name') && s.docs == map[5 := 1]
    requires Like.Plain(s.folders[0].path) && Like.Plain(s.folders[1].path)
    requires !(s.folders[0].path <= s.folders[1].path)
    ensures 5 !in SubtreeDocs(s.folders, s.docs, 0)
    ensures var r := Step(s, owner, Rename(0, name'));
            r.Ok? && Sound(r.value) && 5 in SubtreeDocs(r.value.folders, r.value.docs, 0)
  {
    var fs, row := s.folders, Root(owner, name');
    RootRenamed(owner, name, name');
    PlainPathFits(fs, 0, row.path);
    RenameSucceedsIff(s, owner, 0, name');
    StepSoundIff(s, owner, Rename(0, name'));
    RenamesTo(fs, owner, 0, name');
    RenamedRowPlaceable(fs, 0, name');
    Like.PrefixPatternExactIffPlain(fs[0].path);
    Like.PrefixPatternExactIffPlain(fs[1].path);
    assert !Selected(fs[0 := row], 0, owner, fs[0].path, 1);
  }
}
