/**
 What unescaped path patterns do to folders and to the documents placed in them: which rewrites the
 `_` wildcard can disturb, and when the "include subfolders" filter finds exactly the documents of
 a subtree.
 */
module FolderFilter {
  import opened Wrappers
  import opened FolderForest
  import opened FolderRewrite
  import Like

  type DocId = nat
  type Placements = map<DocId, FolderId>

  // ---------------------------------------------------------------------------------------------
  // Which special characters matter for rename and move
  // ---------------------------------------------------------------------------------------------

  /** Free of the two characters that make a path pattern match strings of another length. */
  predicate Tame(s: string) { '%' !in s && '\\' !in s }

  /** A path without special characters fits every table. */
  lemma PlainPathFits(fs: Table, id: FolderId, newPath: string)
    requires id in fs && Like.Plain(fs[id].path)
    ensures PatternFits(fs, id, newPath)
  {
    Like.PrefixPatternExactIffPlain(fs[id].path);
  }

  /** With `_` as the only wildcard, a pattern that selects a stranger also selects an ancestor of
      that stranger and rewrites it onto the folder's own path, so the unique constraint rejects the
      statement: the table is never left in disorder. */
  lemma TameRewriteConflictsOrFits(fs: Table, id: FolderId, row: Folder)
    requires Forest(fs) && id in fs && Placeable(fs, id, row) && Tame(fs[id].path)
    ensures UniquePaths(Rewritten(fs, id, row)) <==> PatternFits(fs, id, row.path)
  {
    var prev, t := fs[id].path, Rewritten(fs, id, row);
    forall g | g in fs && g != id && fs[g].owner == fs[id].owner && prev <= fs[g].path
      ensures Selected(fs, id, fs[id].owner, prev, g)
    {
      Like.UnderscorePrefix(prev, fs[g].path);
    }
    if g :| g in fs && Selected(fs, id, fs[id].owner, prev, g) && !(prev <= fs[g].path) {
      var a := LookalikeAncestor(fs, id, g);
      assert Selected(fs[id := row], id, row.owner, prev, a);
      assert t[a].path == row.path + "" == t[id].path && t[a].owner == t[id].owner;
      assert !UniquePaths(t);
    } else {
      RewriteKeepsForestIff(fs, id, row);
    }
  }

  lemma LookalikeAncestor(fs: Table, id: FolderId, g: FolderId) returns (a: FolderId)
    requires Forest(fs) && id in fs && Tame(fs[id].path)
    requires g in fs && Selected(fs, id, fs[id].owner, fs[id].path, g) && !(fs[id].path <= fs[g].path)
    ensures a in fs && Selected(fs, id, fs[id].owner, fs[id].path, a) && |fs[a].path| == |fs[id].path|
  {
    Like.UnderscorePrefix(fs[id].path, fs[g].path);
    a := LookalikeFolder(fs, id, g);
    Like.UnderscorePrefix(fs[id].path, fs[a].path);
  }

  // ---------------------------------------------------------------------------------------------
  // The "include subfolders" filter
  // ---------------------------------------------------------------------------------------------

  /** The folders the sub-select joins: `f.path LIKE (SELECT path || '%' FROM folders WHERE id = ..)`. */
  predicate SubtreeMatch(fs: Table, id: FolderId, g: FolderId) {
    g in fs && id in fs && Like.Matches(Like.Same, fs[id].path + "%", fs[g].path)
  }

  function SubtreeDocs(fs: Table, docs: Placements, id: FolderId): set<DocId> {
    set d | d in docs && SubtreeMatch(fs, id, docs[d])
  }

  /** The documents placed in the folder or in a descendant of it. */
  ghost function DocsBelow(fs: Table, docs: Placements, id: FolderId): set<DocId>
    requires Forest(fs)
  {
    set d | d in docs && docs[d] in fs && OnChain(fs, id, docs[d])
  }

  /** The sub-select names no owner, so folders of other owners count as well. */
  ghost predicate FilterFits(fs: Table, id: FolderId) {
    forall g | g in fs && id in fs :: SubtreeMatch(fs, id, g) <==> IsDescendant(fs, id, g)
  }

  /** The filter is right for every placement of documents exactly when it is right about folders. */
  lemma SubtreeFilterExactIff(fs: Table, id: FolderId)
    requires Forest(fs) && id in fs
    ensures (forall docs: Placements :: SubtreeDocs(fs, docs, id) == DocsBelow(fs, docs, id)) <==> FilterFits(fs, id)
  {
    forall g | g in fs ensures IsDescendant(fs, id, g) <==> OnChain(fs, id, g) {
      IsDescendantIsOnChain(fs, id, g);
    }
    if !FilterFits(fs, id) {
      var g :| g in fs && SubtreeMatch(fs, id, g) != IsDescendant(fs, id, g);
      var docs: Placements := map[0 := g];
      assert 0 in SubtreeDocs(fs, docs, id) <==> SubtreeMatch(fs, id, g);
      assert 0 in DocsBelow(fs, docs, id) <==> OnChain(fs, id, g);
    }
  }

  /** For a path free of `%` and backslash the filter is right exactly when no other folder, of
      whatever owner, has a path of the same length that looks like this one. */
  lemma FilterFitsIff(fs: Table, id: FolderId)
    requires Forest(fs) && id in fs && Tame(fs[id].path)
    ensures FilterFits(fs, id) <==>
            forall g | g in fs && |fs[g].path| == |fs[id].path| && Like.LooksLike(fs[id].path, fs[g].path) :: g == id
  {
    var p := fs[id].path;
    forall g | g in fs ensures SubtreeMatch(fs, id, g) <==> Like.LooksLike(p, fs[g].path) {
      Like.UnderscorePrefix(p, fs[g].path);
    }
    if g :| g in fs && SubtreeMatch(fs, id, g) != IsDescendant(fs, id, g) {
      var a := LookalikeFolder(fs, id, g);
      assert a != id;
    }
  }

  /** A folder that the filter takes in by mistake lies in a look-alike of the folder asked for. */
  lemma LookalikeFolder(fs: Table, id: FolderId, g: FolderId) returns (a: FolderId)
    requires Forest(fs) && id in fs && g in fs && Like.LooksLike(fs[id].path, fs[g].path)
    ensures a in fs && |fs[a].path| == |fs[id].path| && Like.LooksLike(fs[id].path, fs[a].path)
    ensures fs[a].owner == fs[g].owner && (!IsDescendant(fs, id, g) ==> a != id)
  {
    var p := fs[id].path;
    PathShape(fs, id);
    var q := fs[g].path[..|p|];
    assert q[|p| - 1] == '/' by { assert p[|p| - 1] == '/' == fs[g].path[|p| - 1]; }
    a := PrefixIsAncestor(fs, q, g);
    forall i | 0 <= i < |p| ensures p[i] == '_' || p[i] == q[i] {
      assert p[i] == '_' || p[i] == fs[g].path[i];
    }
  }

  /** The filter finds the same documents before and after, wherever documents are placed. */
  ghost predicate SameFound(fs: Table, t: Table, id: FolderId) {
    forall docs: Placements :: SubtreeDocs(t, docs, id) == SubtreeDocs(fs, docs, id)
  }

  lemma SameFoundIff(fs: Table, t: Table, id: FolderId)
    ensures SameFound(fs, t, id) <==> forall g: FolderId :: SubtreeMatch(t, id, g) == SubtreeMatch(fs, id, g)
  {
    if g: FolderId :| SubtreeMatch(t, id, g) != SubtreeMatch(fs, id, g) {
      var docs: Placements := map[0 := g];
      assert 0 in SubtreeDocs(t, docs, id) <==> SubtreeMatch(t, id, g);
      assert 0 in SubtreeDocs(fs, docs, id) <==> SubtreeMatch(fs, id, g);
    }
  }

  /** A rename or move leaves the documents found unchanged exactly when every folder outside the
      subtree looks like the new path if and only if it looks like the old one. */
  lemma FilterUnchangedIff(fs: Table, id: FolderId, row: Folder)
    requires Forest(fs) && id in fs && Placeable(fs, id, row) && PatternFits(fs, id, row.path)
    requires Tame(fs[id].path) && Tame(row.path)
    ensures SameFound(fs, Rewritten(fs, id, row), id) <==>
            forall g | g in fs && !IsDescendant(fs, id, g) ::
              Like.LooksLike(fs[id].path, fs[g].path) <==> Like.LooksLike(row.path, fs[g].path)
  {
    var t := Rewritten(fs, id, row);
    FittingRewriteShifts(fs, id, row);
    assert RowShifted(fs, t, id, row, id);
    SameFoundIff(fs, t, id);
    forall g | g in fs
      ensures SubtreeMatch(fs, id, g) <==> Like.LooksLike(fs[id].path, fs[g].path)
      ensures SubtreeMatch(t, id, g) <==> Like.LooksLike(row.path, t[g].path)
      ensures if IsDescendant(fs, id, g) then SubtreeMatch(fs, id, g) && SubtreeMatch(t, id, g) else t[g] == fs[g]
    {
      Like.UnderscorePrefix(fs[id].path, fs[g].path);
      Like.UnderscorePrefix(row.path, t[g].path);
      IsDescendantIsOnChain(fs, id, g);
      assert RowShifted(fs, t, id, row, g);
    }
  }

  /** Between paths without special characters: exactly when the folders of other owners start with the
      new path if and only if they start with the old one.  With one owner nothing can change. */
  lemma FilterUnchangedByRewrite(fs: Table, id: FolderId, row: Folder)
    requires Forest(fs) && id in fs && Placeable(fs, id, row)
    requires Like.Plain(fs[id].path) && Like.Plain(row.path)
    ensures SameFound(fs, Rewritten(fs, id, row), id) <==>
            forall g | g in fs && fs[g].owner != row.owner :: fs[id].path <= fs[g].path <==> row.path <= fs[g].path
  {
    PlainPathFits(fs, id, row.path);
    FilterUnchangedIff(fs, id, row);
    forall g | g in fs
      ensures Like.LooksLike(fs[id].path, fs[g].path) <==> fs[id].path <= fs[g].path
      ensures Like.LooksLike(row.path, fs[g].path) <==> row.path <= fs[g].path
    {
      PlainLooksLike(fs[id].path, fs[g].path);
      PlainLooksLike(row.path, fs[g].path);
    }
    forall g | g in fs && fs[g].owner == row.owner && row.path <= fs[g].path ensures fs[id].path <= fs[g].path {
      FreePathHasNoExtension(fs, id, row, g, fs[g].path[|row.path|..]);
    }
  }

  lemma PlainLooksLike(p: string, s: string)
    requires Like.Plain(p)
    ensures Like.LooksLike(p, s) <==> p <= s
  {
    if Like.LooksLike(p, s) {
      forall i | 0 <= i < |p| ensures p[i] == s[i] { assert !Like.IsMeta(p[i]); }
    }
  }
}
