/**
 Renaming and moving a folder: one row changes, then one bulk statement rewrites the paths of all
 rows whose path is `LIKE oldPath || '%'`.  The pattern is not escaped, so the statement may touch
 rows outside the subtree or miss rows inside it; the main result says exactly when the table is
 a forest again.
 */
module FolderRewrite {
  import opened Wrappers
  import opened FolderForest
  import Like

  /** `newPath || substring(path FROM oldLen + 1)` */
  function Rebase(newPath: string, oldLen: nat, path: string): string {
    newPath + (if oldLen <= |path| then path[oldLen..] else "")
  }

  /** The `WHERE` clause of the bulk statement: `owner_id = .. AND path LIKE .. AND id <> ..`. */
  predicate Selected(fs: Table, id: FolderId, owner: OwnerId, oldPath: string, g: FolderId)
    requires g in fs
  {
    fs[g].owner == owner && Like.Matches(Like.Same, oldPath + "%", fs[g].path) && g != id
  }

  function BulkRewrite(fs: Table, id: FolderId, owner: OwnerId, oldPath: string, newPath: string, delta: int): Table {
    map g | g in fs ::
      if Selected(fs, id, owner, oldPath, g)
      then fs[g].(path := Rebase(newPath, |oldPath|, fs[g].path), depth := fs[g].depth + delta)
      else fs[g]
  }

  /** Both statements: the folder's own row becomes `row`, then its subtree follows. */
  function Rewritten(fs: Table, id: FolderId, row: Folder): Table
    requires id in fs
  {
    BulkRewrite(fs[id := row], id, row.owner, fs[id].path, row.path, row.depth - fs[id].depth)
  }

  /** Python's `path[: -(n + 1)]`. */
  function CutEnd(path: string, n: nat): string {
    if n + 1 <= |path| then path[..|path| - (n + 1)] else ""
  }

  function RenamedRow(f: Folder, newName: string): Folder {
    f.(name := newName, path := CutEnd(f.path, |f.name|) + Sanitize(newName) + "/")
  }

  function MovedRow(f: Folder, newParent: Option<FolderId>, newParentPath: Option<string>, newDepth: int): Folder {
    f.(parent := newParent, path := ComputeChildPath(newParentPath, f.name), depth := newDepth)
  }

  // ---------------------------------------------------------------------------------------------
  // When a rewrite keeps the forest
  // ---------------------------------------------------------------------------------------------

  ghost predicate Unused(fs: Table, owner: OwnerId, path: string, except: FolderId) {
    forall g | g in fs && g != except && fs[g].owner == owner :: fs[g].path != path
  }

  /** `row` may stand for folder id: it agrees with a parent outside id's own subtree, under a free path. */
  ghost predicate Placeable(fs: Table, id: FolderId, row: Folder)
    requires Forest(fs) && id in fs
  {
    && row.owner == fs[id].owner
    && row.name != ""
    && (row.parent.Some? ==> row.parent.value in fs && fs[row.parent.value].owner == row.owner
                             && !OnChain(fs, id, row.parent.value))
    && row.path == ParentPath(fs, row.parent) + Sanitize(row.name) + "/"
    && row.depth == ParentDepth(fs, row.parent) + 1
    && Unused(fs, row.owner, row.path, id)
  }

  /** The pattern selects no row from outside the subtree. */
  ghost predicate NoStranger(fs: Table, id: FolderId)
    requires id in fs
  {
    forall g | g in fs && Selected(fs, id, fs[id].owner, fs[id].path, g) :: fs[id].path <= fs[g].path
  }

  /** The pattern misses no row of the subtree. */
  ghost predicate NoneMissed(fs: Table, id: FolderId)
    requires id in fs
  {
    forall g | g in fs && g != id && fs[g].owner == fs[id].owner && fs[id].path <= fs[g].path ::
      Selected(fs, id, fs[id].owner, fs[id].path, g)
  }

  /** What the caller can check: the pattern means "starts with the old path" on the rows at hand. */
  ghost predicate PatternFits(fs: Table, id: FolderId, newPath: string)
    requires id in fs
  {
    NoStranger(fs, id) && (newPath == fs[id].path || NoneMissed(fs, id))
  }

  /** Renaming yields a row that agrees with the unchanged parent, although the code finds the
      parent's path by cutting the old name off the old path. */
  lemma RenamedRowPlaceable(fs: Table, id: FolderId, newName: string)
    requires Forest(fs) && id in fs && newName != ""
    requires Unused(fs, fs[id].owner, RenamedRow(fs[id], newName).path, id)
    ensures Placeable(fs, id, RenamedRow(fs[id], newName))
  {
    assert RowOk(fs, id);
    var f := fs[id];
    assert CutEnd(f.path, |f.name|) == ParentPath(fs, f.parent);
    if f.parent.Some? && OnChain(fs, id, f.parent.value) {
      ChainPrefix(fs, id, f.parent.value);
      assert false;
    }
  }

  /** No rewritten path can meet an existing one: the free path is free together with all its extensions. */
  lemma FreePathHasNoExtension(fs: Table, id: FolderId, row: Folder, g: FolderId, tail: string)
    requires Forest(fs) && id in fs && g in fs && Placeable(fs, id, row)
    requires fs[g].owner == row.owner && fs[g].path == row.path + tail
    ensures row.path == fs[id].path
  {
    PlacedPathShape(fs, id, row);
    var a := PrefixIsAncestor(fs, row.path, g);
  }

  lemma PlacedPathShape(fs: Table, id: FolderId, row: Folder)
    requires Forest(fs) && id in fs && Placeable(fs, id, row)
    ensures |row.path| >= 3 && row.path[|row.path| - 1] == '/'
  {
    if row.parent.Some? { PathShape(fs, row.parent.value); }
  }

  /** The intended effect on row g: id's row becomes `row`, the rows below it follow, the rest stays. */
  ghost predicate RowShifted(fs: Table, t: Table, id: FolderId, row: Folder, g: FolderId)
    requires Forest(fs) && id in fs && g in fs && g in t
  {
    if g == id then t[g] == row
    else if OnChain(fs, id, g) then
      && fs[id].path <= fs[g].path
      && t[g] == fs[g].(path := row.path + fs[g].path[|fs[id].path|..],
                        depth := fs[g].depth + row.depth - fs[id].depth)
    else t[g] == fs[g]
  }

  ghost predicate SubtreeShifted(fs: Table, t: Table, id: FolderId, row: Folder)
    requires Forest(fs) && id in fs
  {
    t.Keys == fs.Keys && forall g {:trigger RowShifted(fs, t, id, row, g)} | g in fs :: RowShifted(fs, t, id, row, g)
  }

  /** With a fitting pattern, the two statements have exactly the intended effect. */
  lemma FittingRewriteShifts(fs: Table, id: FolderId, row: Folder)
    requires Forest(fs) && id in fs && Placeable(fs, id, row) && PatternFits(fs, id, row.path)
    ensures SubtreeShifted(fs, Rewritten(fs, id, row), id, row)
  {
    var t := Rewritten(fs, id, row);
    var prev := fs[id].path;
    forall g | g in fs && g != id ensures RowShifted(fs, t, id, row, g) {
      assert Selected(fs[id := row], id, row.owner, prev, g) == Selected(fs, id, row.owner, prev, g);
      IsDescendantIsOnChain(fs, id, g);
      if OnChain(fs, id, g) && !Selected(fs, id, row.owner, prev, g) {
        SamePathSameDepth(fs, id, row);
        assert fs[g].path == prev + fs[g].path[|prev|..];
      }
    }
    assert RowShifted(fs, t, id, row, id);
  }

  lemma SamePathSameDepth(fs: Table, id: FolderId, row: Folder)
    requires Forest(fs) && id in fs && Placeable(fs, id, row) && row.path == fs[id].path
    ensures row.depth == fs[id].depth && row.parent == fs[id].parent
  {
    assert RowOk(fs, id);
    var f := fs[id];
    var b, c := ParentPath(fs, f.parent), ParentPath(fs, row.parent);
    if f.parent.Some? { PathShape(fs, f.parent.value); }
    if row.parent.Some? { PathShape(fs, row.parent.value); }
    SplitPath(b, Sanitize(f.name), c, Sanitize(row.name));
  }

  /** A path splits into parent part and name in one way only. */
  lemma SplitPath(b: string, m: string, c: string, n: string)
    requires b + m + "/" == c + n + "/" && '/' !in m && '/' !in n
    requires b != "" && b[|b| - 1] == '/' && c != "" && c[|c| - 1] == '/'
    ensures b == c && m == n
  {
    var p := b + m + "/";
    assert p[|b| - 1] == '/' && p[|c| - 1] == '/';
    forall i | |b| <= i < |p| - 1 ensures p[i] != '/' { assert p[i] == m[i - |b|]; }
    forall i | |c| <= i < |p| - 1 ensures p[i] != '/' { assert p[i] == n[i - |c|]; }
    assert b == p[..|b|] && c == p[..|c|];
    assert m == p[|b|..|p| - 1] && n == p[|c|..|p| - 1];
  }

  lemma ShiftedRowsOk(fs: Table, t: Table, id: FolderId, row: Folder, g: FolderId)
    requires Forest(fs) && id in fs && Placeable(fs, id, row) && SubtreeShifted(fs, t, id, row)
    requires g in fs
    ensures RowOk(t, g)
  {
    assert RowOk(fs, g) && RowShifted(fs, t, id, row, g);
    if g != id && OnChain(fs, id, g) {
      ShiftedChildOk(fs, t, id, row, g);
    } else {
      var parent := if g == id then row.parent else fs[g].parent;
      if parent.Some? {
        var p := parent.value;
        assert OnChain(fs, id, id) && !OnChain(fs, id, p);
        assert RowOk(fs, p) && RowShifted(fs, t, id, row, p);
        assert t[p] == fs[p];
      }
    }
  }

  lemma ShiftedChildOk(fs: Table, t: Table, id: FolderId, row: Folder, g: FolderId)
    requires Forest(fs) && id in fs && Placeable(fs, id, row) && SubtreeShifted(fs, t, id, row)
    requires g in fs && g != id && OnChain(fs, id, g)
    ensures RowOk(t, g)
  {
    assert RowOk(fs, g) && RowShifted(fs, t, id, row, g);
    var p := fs[g].parent.value;
    assert RowOk(fs, p) && RowShifted(fs, t, id, row, p);
    ChainPrefix(fs, id, p);
    var tail := ShiftedPath(fs, t, id, row, p);
    AppendTail(fs[id].path, row.path, tail, Sanitize(fs[g].name) + "/");
    assert fs[g].path == fs[p].path + (Sanitize(fs[g].name) + "/");
    assert t[g].path == t[p].path + Sanitize(fs[g].name) + "/";
    if row.parent.Some? { assert RowOk(fs, row.parent.value); }
  }

  lemma AppendTail(a: string, b: string, tail: string, last: string)
    ensures b + (a + tail + last)[|a|..] == b + tail + last
  {
    assert (a + tail + last)[|a|..] == tail + last;
  }

  lemma ShiftedPathsUnique(fs: Table, t: Table, id: FolderId, row: Folder, a: FolderId, b: FolderId)
    requires Forest(fs) && id in fs && Placeable(fs, id, row) && SubtreeShifted(fs, t, id, row)
    requires a in fs && b in fs && a != b && fs[a].owner == fs[b].owner && OnChain(fs, id, a)
    ensures t[a].path != t[b].path
  {
    var tail := ShiftedPath(fs, t, id, row, a);
    if OnChain(fs, id, b) {
      var tail' := ShiftedPath(fs, t, id, row, b);
      assert tail == t[a].path[|row.path|..] && tail' == t[b].path[|row.path|..];
    } else {
      if t[a].path == t[b].path {
        assert RowShifted(fs, t, id, row, b);
        ChainPrefix(fs, id, a);
        FreePathHasNoExtension(fs, id, row, b, tail);
        IsDescendantIsOnChain(fs, id, b);
      }
    }
  }

  lemma ShiftedPath(fs: Table, t: Table, id: FolderId, row: Folder, a: FolderId) returns (tail: string)
    requires Forest(fs) && id in fs && SubtreeShifted(fs, t, id, row)
    requires a in fs && OnChain(fs, id, a)
    ensures fs[a].path == fs[id].path + tail && t[a].path == row.path + tail
  {
    ChainPrefix(fs, id, a);
    assert RowShifted(fs, t, id, row, a);
    tail := fs[a].path[|fs[id].path|..];
  }

  lemma ShiftKeepsForest(fs: Table, t: Table, id: FolderId, row: Folder)
    requires Forest(fs) && id in fs && Placeable(fs, id, row) && SubtreeShifted(fs, t, id, row)
    ensures Forest(t)
  {
    forall g | g in t ensures RowOk(t, g) { ShiftedRowsOk(fs, t, id, row, g); }
    forall a, b | a in t && b in t && a != b && t[a].owner == t[b].owner ensures t[a].path != t[b].path {
      assert RowShifted(fs, t, id, row, a) && RowShifted(fs, t, id, row, b);
      if OnChain(fs, id, a) {
        ShiftedPathsUnique(fs, t, id, row, a, b);
      } else if OnChain(fs, id, b) {
        ShiftedPathsUnique(fs, t, id, row, b, a);
      }
    }
  }

  /** What a row outside the subtree must keep, if the rewritten table is a forest. */
  lemma {:induction false} OutsideStays(fs: Table, id: FolderId, row: Folder, g: FolderId)
    requires Forest(fs) && id in fs && Placeable(fs, id, row) && Forest(Rewritten(fs, id, row))
    requires g in fs && !OnChain(fs, id, g)
    ensures Rewritten(fs, id, row)[g].path == fs[g].path
    decreases fs[g].depth
  {
    var t := Rewritten(fs, id, row);
    assert RowOk(fs, g) && RowOk(t, g);
    if fs[g].parent.Some? { OutsideStays(fs, id, row, fs[g].parent.value); }
  }

  /** What a row inside the subtree must become, if the rewritten table is a forest. */
  lemma {:induction false} InsideFollows(fs: Table, id: FolderId, row: Folder, g: FolderId)
    requires Forest(fs) && id in fs && Placeable(fs, id, row) && Forest(Rewritten(fs, id, row))
    requires g in fs && OnChain(fs, id, g)
    ensures fs[id].path <= fs[g].path
    ensures Rewritten(fs, id, row)[g].path == row.path + fs[g].path[|fs[id].path|..]
    decreases fs[g].depth
  {
    var t := Rewritten(fs, id, row);
    ChainPrefix(fs, id, g);
    assert RowOk(fs, g) && RowOk(t, g);
    if g != id {
      var p := fs[g].parent.value;
      InsideFollows(fs, id, row, p);
      ChainPrefix(fs, id, p);
      FollowsParent(fs[id].path, row.path, fs[p].path, Sanitize(fs[g].name));
    }
  }

  lemma FollowsParent(was: string, now: string, parent: string, name: string)
    requires was <= parent
    ensures now + parent[|was|..] + name + "/" == now + (parent + name + "/")[|was|..]
  {
    assert (parent + name + "/")[|was|..] == parent[|was|..] + name + "/";
  }

  lemma ForestMeansPatternFits(fs: Table, id: FolderId, row: Folder)
    requires Forest(fs) && id in fs && Placeable(fs, id, row) && Forest(Rewritten(fs, id, row))
    ensures PatternFits(fs, id, row.path)
  {
    var t := Rewritten(fs, id, row);
    var prev := fs[id].path;
    forall g | g in fs && Selected(fs, id, fs[id].owner, prev, g) ensures prev <= fs[g].path {
      IsDescendantIsOnChain(fs, id, g);
      if !OnChain(fs, id, g) {
        OutsideStays(fs, id, row, g);
        assert Selected(fs[id := row], id, row.owner, prev, g);
        FreePathHasNoExtension(fs, id, row, g, if |prev| <= |fs[g].path| then fs[g].path[|prev|..] else "");
      }
    }
    forall g | g in fs && g != id && fs[g].owner == fs[id].owner && prev <= fs[g].path && row.path != prev
      ensures Selected(fs, id, fs[id].owner, prev, g)
    {
      IsDescendantIsOnChain(fs, id, g);
      InsideFollows(fs, id, row, g);
      if !Selected(fs[id := row], id, row.owner, prev, g) {
        SameTail(prev, row.path, fs[g].path);
      }
    }
  }

  lemma SameTail(a: string, b: string, p: string)
    requires a <= p && p == b + p[|a|..]
    ensures a == b
  {
    assert |a| == |b| && a == p[..|a|] == b;
  }

  /** The main result: the two statements keep the forest exactly when the pattern fits the rows. */
  lemma RewriteKeepsForestIff(fs: Table, id: FolderId, row: Folder)
    requires Forest(fs) && id in fs && Placeable(fs, id, row)
    ensures Forest(Rewritten(fs, id, row)) <==> PatternFits(fs, id, row.path)
  {
    if PatternFits(fs, id, row.path) {
      FittingRewriteShifts(fs, id, row);
      ShiftKeepsForest(fs, Rewritten(fs, id, row), id, row);
    }
    if Forest(Rewritten(fs, id, row)) { ForestMeansPatternFits(fs, id, row); }
  }
}
