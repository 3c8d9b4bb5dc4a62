/**
 What each folder operation does to the tables, written out row by row, and which error it reports
 when it does nothing.
 */
module FolderEffects {
  import opened Wrappers
  import opened FolderForest
  import opened FolderRewrite
  import opened FolderFilter
  import opened FoldersRepository
  import opened FoldersService
  import Like

  function PathUnder(fs: Table, parent: Option<FolderId>, name: string): string
    requires parent.Some? ==> parent.value in fs
  {
    (if parent.None? then "/" else fs[parent.value].path) + Sanitize(name) + "/"
  }

  function DepthUnder(fs: Table, parent: Option<FolderId>): int
    requires parent.Some? ==> parent.value in fs
  {
    if parent.None? then 0 else fs[parent.value].depth + 1
  }

  /** Python's `path[n:]`. */
  function Rest(path: string, n: nat): string { if n <= |path| then path[n..] else "" }

  /** Another row after the path `was` became `now`: its path starts anew and its depth shifts, nothing else. */
  function Shifted(f: Folder, was: string, now: string, delta: int): Folder {
    Folder(f.owner, f.parent, f.name, now + Rest(f.path, |was|), f.depth + delta)
  }

  /** The effect of a rename or move of folder id, whose row becomes `row`. */
  ghost predicate Rewrote(fs: Table, t: Table, id: FolderId, row: Folder) {
    && id in fs && t.Keys == fs.Keys && t[id] == row
    && var was := fs[id];
       forall g | g in fs && g != id ::
         t[g] == if fs[g].owner == was.owner && Like.Matches(Like.Same, was.path + "%", fs[g].path)
                 then Shifted(fs[g], was.path, row.path, row.depth - was.depth)
                 else fs[g]
  }

  /** The effect where the pattern fits: exactly the rows below the folder follow it. */
  ghost predicate SubtreeFollowed(fs: Table, t: Table, id: FolderId, row: Folder)
    requires Forest(fs)
  {
    && id in fs && t.Keys == fs.Keys && t[id] == row
    && forall g | g in fs && g != id ::
         t[g] == if OnChain(fs, id, g)
                 then Shifted(fs[g], fs[id].path, row.path, row.depth - fs[id].depth)
                 else fs[g]
  }

  lemma RewriteEffect(fs: Table, id: FolderId, row: Folder)
    requires Forest(fs) && id in fs && row.owner == fs[id].owner && RewriteRows(fs, id, row).Ok?
    requires Unused(fs, row.owner, row.path, id) ==> Placeable(fs, id, row)
    ensures Rewrote(fs, RewriteRows(fs, id, row).value, id, row)
    ensures PatternFits(fs, id, row.path) ==> SubtreeFollowed(fs, RewriteRows(fs, id, row).value, id, row)
  {
    var first := fs[id := row];
    forall g | g in fs && g != id && fs[g].owner == row.owner ensures fs[g].path != row.path {
      assert first[g].path != first[id].path;
    }
    RewrittenRows(fs, id, row);
    if PatternFits(fs, id, row.path) {
      FittingRewriteShifts(fs, id, row);
      ShiftedFollows(fs, Rewritten(fs, id, row), id, row);
    }
  }

  lemma RewrittenRows(fs: Table, id: FolderId, row: Folder)
    requires id in fs && row.owner == fs[id].owner
    ensures Rewrote(fs, Rewritten(fs, id, row), id, row)
  {
  }

  lemma ShiftedFollows(fs: Table, t: Table, id: FolderId, row: Folder)
    requires Forest(fs) && id in fs && SubtreeShifted(fs, t, id, row)
    ensures SubtreeFollowed(fs, t, id, row)
  {
    forall g | g in fs && g != id
      ensures t[g] == if OnChain(fs, id, g)
                      then Shifted(fs[g], fs[id].path, row.path, row.depth - fs[id].depth)
                      else fs[g]
    {
      assert RowShifted(fs, t, id, row, g);
    }
    assert RowShifted(fs, t, id, row, id);
  }

  // ---------------------------------------------------------------------------------------------
  // Effects
  // ---------------------------------------------------------------------------------------------

  /** A move gives the folder its new parent, path and depth, keeps its name and owner, and lets the
      rows the pattern selects follow; where the pattern fits, these are the rows below the folder. */
  lemma MoveEffect(s: Store, owner: OwnerId, id: FolderId, parent: Option<FolderId>)
    requires Sound(s) && Step(s, owner, Op.Move(id, parent)).Ok?
    ensures id in s.folders && (parent.Some? ==> parent.value in s.folders)
    ensures var fs, s' := s.folders, Step(s, owner, Op.Move(id, parent)).value;
            var row := Folder(owner, parent, fs[id].name, PathUnder(fs, parent, fs[id].name), DepthUnder(fs, parent));
            && s'.docs == s.docs
            && Rewrote(fs, s'.folders, id, row)
            && (PatternFits(fs, id, row.path) ==> SubtreeFollowed(fs, s'.folders, id, row))
  {
    var fs := s.folders;
    var row := NewPlace(fs, id, parent);
    if Unused(fs, row.owner, row.path, id) { NewPlacePlaceable(fs, owner, id, parent); }
    RewriteEffect(fs, id, row);
  }

  /** A rename gives the folder its new name, in its path as well, and keeps owner, parent and depth. */
  lemma RenameEffect(s: Store, owner: OwnerId, id: FolderId, name: string)
    requires Sound(s) && Step(s, owner, Op.Rename(id, name)).Ok?
    ensures id in s.folders && (s.folders[id].parent.Some? ==> s.folders[id].parent.value in s.folders)
    ensures var fs, s' := s.folders, Step(s, owner, Op.Rename(id, name)).value;
            var f := fs[id];
            var row := Folder(owner, f.parent, name, PathUnder(fs, f.parent, name), f.depth);
            && s'.docs == s.docs
            && Rewrote(fs, s'.folders, id, row)
            && (PatternFits(fs, id, row.path) ==> SubtreeFollowed(fs, s'.folders, id, row))
  {
    var fs := s.folders;
    assert RowOk(fs, id);
    var f, row := fs[id], RenamedRow(fs[id], name);
    assert CutEnd(f.path, |f.name|) == ParentPath(fs, f.parent);
    if Unused(fs, row.owner, row.path, id) { RenamedRowPlaceable(fs, id, name); }
    RewriteEffect(fs, id, row);
  }

  /** Creation adds one row and changes nothing else. */
  lemma CreateEffect(s: Store, owner: OwnerId, id: FolderId, parent: Option<FolderId>, name: string)
    requires Step(s, owner, Op.Create(id, parent, name)).Ok?
    ensures id !in s.folders && (parent.Some? ==> parent.value in s.folders)
    ensures var fs := s.folders;
            var row := Folder(owner, parent, name, PathUnder(fs, parent, name), DepthUnder(fs, parent));
            Step(s, owner, Op.Create(id, parent, name)).value == Store(fs[id := row], s.docs)
  {
  }

  /** Deletion removes one row, exactly when the folder is the caller's and holds nothing. */
  lemma DeleteEffect(s: Store, owner: OwnerId, id: FolderId)
    ensures var fs, r := s.folders, Step(s, owner, Op.Delete(id));
            var mine := id in fs && fs[id].owner == owner;
            var full := (exists g | g in fs :: fs[g].parent == Some(id)) || id in s.docs.Values;
            && (r == Err(NotFound) <==> !mine)
            && (r == Err(Conflict) <==> mine && full)
            && (r.Ok? <==> mine && !full)
            && (r.Ok? ==> r.value == Store(fs - {id}, s.docs))
  {
    var fs := s.folders;
    assert id in s.docs.Values <==> exists d | d in s.docs :: s.docs[d] == id;
  }

  /** Placing changes one document's folder, exactly when the document is visible and the folder the
      caller's. */
  lemma PlaceEffect(s: Store, owner: OwnerId, doc: DocId, visible: bool, folder: Option<FolderId>)
    ensures var fs, r := s.folders, Step(s, owner, Op.Place(doc, visible, folder));
            var mine := folder.None? || (folder.value in fs && fs[folder.value].owner == owner);
            && (r.Ok? <==> visible && mine) && (r.Err? ==> r == Err(NotFound))
            && (r.Ok? ==>
                  && r.value.folders == fs
                  && (folder.None? ==> doc !in r.value.docs)
                  && (folder.Some? ==> doc in r.value.docs && r.value.docs[doc] == folder.value)
                  && forall d | d != doc :: (d in r.value.docs <==> d in s.docs)
                                            && (d in s.docs ==> r.value.docs[d] == s.docs[d]))
  {
  }

  // ---------------------------------------------------------------------------------------------
  // Errors
  // ---------------------------------------------------------------------------------------------

  predicate GoodName(name: string) { 1 <= |name| <= 200 && '/' !in name }

  predicate Mine(fs: Table, owner: OwnerId, id: FolderId) { id in fs && fs[id].owner == owner }

  ghost predicate Taken(fs: Table, owner: OwnerId, path: string, except: FolderId) {
    exists g | g in fs && g != except :: fs[g].owner == owner && fs[g].path == path
  }

  /** A bad name or too deep a place is invalid, a foreign parent is not found, a taken path is a
      conflict, and nothing else is refused. */
  lemma CreateErrors(s: Store, owner: OwnerId, id: FolderId, parent: Option<FolderId>, name: string)
    requires Sound(s) && id !in s.folders
    ensures var fs, r := s.folders, Step(s, owner, Op.Create(id, parent, name));
            var known := parent.None? || Mine(fs, owner, parent.value);
            && (r == Err(NotFound) <==> GoodName(name) && !known)
            && (r == Err(Validation) <==> !GoodName(name) || (known && DepthUnder(fs, parent) > 10))
            && (r == Err(Conflict) <==> GoodName(name) && known && DepthUnder(fs, parent) <= 10
                                        && Taken(fs, owner, PathUnder(fs, parent, name), id))
            && r != Err(Internal)
  {
    var fs := s.folders;
    if ValidName(name) && (parent.None? || Owns(fs, owner, parent.value)) && DepthUnder(fs, parent) <= 10 {
      var row := Folder(owner, parent, name, ChildPath(fs, parent, name), ParentDepth(fs, parent) + 1);
      InsertCommitsIff(fs, id, row);
      NewRowViolation(fs, id, row);
    }
  }

  /** A row in an allowed place can only violate the unique constraint. */
  lemma NewRowViolation(fs: Table, id: FolderId, row: Folder)
    requires Forest(fs) && DepthsAllowed(fs) && 0 <= row.depth <= MAX_DEPTH && row.parent != Some(id)
    requires row.parent.Some? ==> row.parent.value in fs
    ensures Violation(fs[id := row]) in {None, Some(UniqueViolation)}
    ensures Taken(fs, row.owner, row.path, id) ==> Violation(fs[id := row]) == Some(UniqueViolation)
  {
    var t := fs[id := row];
    forall g | g in t ensures t[g].parent != Some(g) && (t[g].parent.Some? ==> t[g].parent.value in t) {
      if g != id { assert RowOk(fs, g); }
    }
    if Taken(fs, row.owner, row.path, id) {
      var g :| g in fs && g != id && fs[g].owner == row.owner && fs[g].path == row.path;
      assert t[g].path == t[id].path;
    }
  }

  lemma RenameErrors(s: Store, owner: OwnerId, id: FolderId, name: string)
    requires Sound(s)
    ensures var fs, r := s.folders, Step(s, owner, Op.Rename(id, name));
            && (r == Err(NotFound) <==> !Mine(fs, owner, id))
            && (r == Err(Validation) <==> Mine(fs, owner, id) && !GoodName(name))
            && (Mine(fs, owner, id) && GoodName(name) ==>
                  && RowOk(fs, id)
                  && (Taken(fs, owner, PathUnder(fs, fs[id].parent, name), id) ==> r == Err(Conflict)))
  {
    var fs := s.folders;
    if Mine(fs, owner, id) && GoodName(name) {
      assert RowOk(fs, id);
      var f, row := fs[id], RenamedRow(fs[id], name);
      assert CutEnd(f.path, |f.name|) == ParentPath(fs, f.parent);
      NewRowViolation(fs, id, row);
    }
  }

  /** A folder moved under itself or below itself, or with its subtree too deep, is invalid. */
  lemma MoveErrors(s: Store, owner: OwnerId, id: FolderId, parent: Option<FolderId>)
    requires Sound(s)
    ensures var fs, r := s.folders, Step(s, owner, Op.Move(id, parent));
            var below := parent.Some? && parent.value in fs && OnChain(fs, id, parent.value);
            var known := parent.None? || Mine(fs, owner, parent.value);
            && (r == Err(NotFound) <==> !Mine(fs, owner, id) || (!below && !known))
            && (r == Err(Validation) <==>
                  && Mine(fs, owner, id)
                  && (below || (known && exists g | g in fs && OnChain(fs, id, g) ::
                                  fs[g].depth - fs[id].depth + DepthUnder(fs, parent) > 10)))
            && (Mine(fs, owner, id) && known && Taken(fs, owner, PathUnder(fs, parent, fs[id].name), id) ==>
                  r in {Err(Validation), Err(Conflict)})
  {
    var fs := s.folders;
    if parent.Some? { IsDescendantIsOnChain(fs, id, parent.value); }
    if Mine(fs, owner, id) {
      assert OnChain(fs, id, id);
      if parent.None? || (Mine(fs, owner, parent.value) && !OnChain(fs, id, parent.value)) {
        var row := NewPlace(fs, id, parent);
        TooDeepIff(fs, owner, id, row.depth - fs[id].depth);
        if !TooDeep(fs, owner, id, row.depth - fs[id].depth) {
          if parent.Some? { assert RowOk(fs, parent.value); }
          NewRowViolation(fs, id, row);
        }
      }
    }
  }
}
