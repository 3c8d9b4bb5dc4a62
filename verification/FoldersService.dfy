/**
 The folder operations as callers reach them: ownership, naming, cycle and depth checks around the
 repository.  The main result: over every run of these operations the table stays a forest.
 */
module FoldersService {
  import opened Wrappers
  import opened FolderForest
  import opened FolderRewrite
  import opened FolderFilter
  import opened FoldersRepository

  const NAME_MAX := 200

  datatype ApiError = NotFound | Validation | Conflict | Internal

  datatype Store = Store(folders: Table, docs: Placements)

  datatype Op =
    | Create(newId: FolderId, parent: Option<FolderId>, name: string)
    | Rename(id: FolderId, name: string)
    | Move(id: FolderId, newParent: Option<FolderId>)
    | Delete(id: FolderId)
    | Place(doc: DocId, visible: bool, folder: Option<FolderId>)

  predicate ValidName(name: string) { 1 <= |name| <= NAME_MAX && '/' !in name }

  predicate Owns(fs: Table, owner: OwnerId, id: FolderId) { id in fs && fs[id].owner == owner }

  function ToApi<T>(r: Result<T, DbError>): Result<T, ApiError> {
    match r
    case Ok(v) => Ok(v)
    case Err(UniqueViolation) => Err(Conflict)
    case Err(_) => Err(Internal)
  }

  function CreateFolder(fs: Table, owner: OwnerId, id: FolderId, parent: Option<FolderId>, name: string)
    : Result<Table, ApiError>
  {
    if !ValidName(name) then Err(Validation)
    else if parent.Some? && !Owns(fs, owner, parent.value) then Err(NotFound)
    else
      var depth := ParentDepth(fs, parent) + 1;
      if depth > MAX_DEPTH then Err(Validation)
      else ToApi(InsertRow(fs, id, Folder(owner, parent, name, ChildPath(fs, parent, name), depth)))
  }

  function ChildPath(fs: Table, parent: Option<FolderId>, name: string): string
    requires parent.Some? ==> parent.value in fs
  {
    ComputeChildPath(if parent.Some? then Some(fs[parent.value].path) else None, name)
  }

  function RenameFolder(fs: Table, owner: OwnerId, id: FolderId, name: string): Result<Table, ApiError> {
    if !Owns(fs, owner, id) then Err(NotFound)
    else if !ValidName(name) then Err(Validation)
    else ToApi(RewriteRows(fs, id, RenamedRow(fs[id], name)))
  }

  /** Some folder whose path starts with id's would sink below the depth limit. */
  predicate TooDeep(fs: Table, owner: OwnerId, id: FolderId, delta: int)
    requires id in fs
  {
    exists g | g in fs && fs[g].owner == owner && fs[id].path <= fs[g].path :: fs[g].depth + delta > MAX_DEPTH
  }

  function MoveFolder(fs: Table, owner: OwnerId, id: FolderId, parent: Option<FolderId>): Result<Table, ApiError> {
    if !Owns(fs, owner, id) then Err(NotFound)
    else if parent == Some(id) then Err(Validation)
    else if parent.Some? && IsDescendant(fs, id, parent.value) then Err(Validation)
    else if parent.Some? && !Owns(fs, owner, parent.value) then Err(NotFound)
    else
      var depth := ParentDepth(fs, parent) + 1;
      if TooDeep(fs, owner, id, depth - fs[id].depth) then Err(Validation)
      else ToApi(RewriteRows(fs, id, NewPlace(fs, id, parent)))
  }

  /** Past its checks the call is decided by the rewrite. */
  lemma MoveReachesRepository(fs: Table, owner: OwnerId, id: FolderId, parent: Option<FolderId>)
    requires Owns(fs, owner, id) && parent != Some(id)
    requires parent.Some? ==> !IsDescendant(fs, id, parent.value) && Owns(fs, owner, parent.value)
    requires !TooDeep(fs, owner, id, ParentDepth(fs, parent) + 1 - fs[id].depth)
    ensures MoveFolder(fs, owner, id, parent) == ToApi(RewriteRows(fs, id, NewPlace(fs, id, parent)))
  {
  }

  function NewPlace(fs: Table, id: FolderId, parent: Option<FolderId>): Folder
    requires id in fs && (parent.Some? ==> parent.value in fs)
  {
    MovedRow(fs[id], parent, if parent.Some? then Some(fs[parent.value].path) else None, ParentDepth(fs, parent) + 1)
  }

  function Step(s: Store, owner: OwnerId, op: Op): Result<Store, ApiError> {
    match op
    case Create(id, parent, name) => WithFolders(s, CreateFolder(s.folders, owner, id, parent, name))
    case Rename(id, name) => WithFolders(s, RenameFolder(s.folders, owner, id, name))
    case Move(id, parent) => WithFolders(s, MoveFolder(s.folders, owner, id, parent))
    case Delete(id) =>
      if !Owns(s.folders, owner, id) then Err(NotFound)
      else if HasContent(s.folders, s.docs, id) then Err(Conflict)
      else Ok(s.(folders := s.folders - {id}))
    case Place(doc, visible, folder) =>
      if !visible then Err(NotFound)
      else if folder.Some? && !Owns(s.folders, owner, folder.value) then Err(NotFound)
      else Ok(s.(docs := if folder.None? then s.docs - {doc} else s.docs[doc := folder.value]))
  }

  function WithFolders(s: Store, r: Result<Table, ApiError>): Result<Store, ApiError> {
    match r case Ok(fs) => Ok(s.(folders := fs)) case Err(e) => Err(e)
  }

  /** One call took `before` to `after` and reported `error`, as `Step` says. */
  ghost predicate Did(before: Store, after: Store, owner: OwnerId, op: Op, error: Option<ApiError>) {
    match Step(before, owner, op)
    case Ok(s) => after == s && error == None
    case Err(e) => after == before && error == Some(e)
  }

  class FoldersService {
    const repo: FoldersRepository

    constructor (repo: FoldersRepository)
      ensures this.repo == repo
    {
      this.repo := repo;
    }

    ghost function State(): Store
      reads repo
    {
      Store(repo.folders, repo.placements)
    }

    method Create(owner: OwnerId, id: FolderId, parent: Option<FolderId>, name: string)
      returns (error: Option<ApiError>)
      modifies repo
      ensures Did(old(State()), State(), owner, Op.Create(id, parent, name), error)
    {
      if !ValidName(name) { return Some(Validation); }
      var parentPath: Option<string>, parentDepth := None, -1;
      if parent.Some? {
        if !Owns(repo.folders, owner, parent.value) { return Some(NotFound); }
        parentPath, parentDepth := Some(repo.folders[parent.value].path), repo.folders[parent.value].depth;
      }
      var depth := parentDepth + 1;
      if depth > MAX_DEPTH { return Some(Validation); }
      var r := repo.Create(id, owner, parent, name, ComputeChildPath(parentPath, name), depth);
      error := ErrorOf(r);
    }

    method Rename(owner: OwnerId, id: FolderId, name: string) returns (error: Option<ApiError>)
      modifies repo
      ensures Did(old(State()), State(), owner, Op.Rename(id, name), error)
    {
      if !Owns(repo.folders, owner, id) { return Some(NotFound); }
      if !ValidName(name) { return Some(Validation); }
      var r := repo.Rename(id, name);
      error := ErrorOf(r);
    }

    method Move(owner: OwnerId, id: FolderId, newParent: Option<FolderId>) returns (error: Option<ApiError>)
      modifies repo
      ensures Did(old(State()), State(), owner, Op.Move(id, newParent), error)
    {
      if !Owns(repo.folders, owner, id) { return Some(NotFound); }
      var current := repo.folders[id];
      var parentPath: Option<string>, parentDepth := None, -1;
      if newParent.Some? {
        if newParent.value == id { return Some(Validation); }
        if IsDescendant(repo.folders, id, newParent.value) { return Some(Validation); }
        if !Owns(repo.folders, owner, newParent.value) { return Some(NotFound); }
        parentPath, parentDepth := Some(repo.folders[newParent.value].path), repo.folders[newParent.value].depth;
      }
      var newDepth := parentDepth + 1;
      if TooDeep(repo.folders, owner, id, newDepth - current.depth) { return Some(Validation); }
      ghost var before := repo.folders;
      MoveReachesRepository(before, owner, id, newParent);
      var r := repo.Move(id, newParent, parentPath, newDepth);
      assert MoveFolder(before, owner, id, newParent)
          == ToApi(RewriteRows(before, id, MovedRow(before[id], newParent, parentPath, newDepth)));
      error := ErrorOf(r);
    }

    method Delete(owner: OwnerId, id: FolderId) returns (error: Option<ApiError>)
      modifies repo
      ensures Did(old(State()), State(), owner, Op.Delete(id), error)
    {
      if !Owns(repo.folders, owner, id) { return Some(NotFound); }
      var ok := repo.DeleteIfEmpty(id);
      error := if ok then None else Some(Conflict);
    }

    method Place(owner: OwnerId, doc: DocId, visible: bool, folder: Option<FolderId>)
      returns (error: Option<ApiError>)
      modifies repo
      ensures Did(old(State()), State(), owner, Op.Place(doc, visible, folder), error)
    {
      if !visible { return Some(NotFound); }
      if folder.Some? && !Owns(repo.folders, owner, folder.value) { return Some(NotFound); }
      repo.SetFolder(doc, folder);
      error := None;
    }
  }

  function ErrorOf<T>(r: Result<T, DbError>): Option<ApiError> {
    match ToApi(r) case Ok(_) => None case Err(e) => Some(e)
  }

  // ---------------------------------------------------------------------------------------------
  // Every run keeps the forest
  // ---------------------------------------------------------------------------------------------

  ghost predicate Sound(s: Store) {
    Forest(s.folders) && DepthsAllowed(s.folders) && forall d | d in s.docs :: s.docs[d] in s.folders
  }

  /** The call rewrites no path, or the old path's pattern fits the rows of the table. */
  ghost predicate Fits(s: Store, op: Op) {
    match op
    case Rename(id, name) =>
      id in s.folders ==> PatternFits(s.folders, id, RenamedRow(s.folders[id], name).path)
    case Move(id, parent) =>
      id in s.folders && (parent.Some? ==> parent.value in s.folders) ==>
        PatternFits(s.folders, id, NewPlace(s.folders, id, parent).path)
    case _ => true
  }

  lemma CreateKeepsForest(fs: Table, id: FolderId, row: Folder)
    requires Forest(fs) && id !in fs && row.name != ""
    requires row.parent.Some? ==> Owns(fs, row.owner, row.parent.value)
    requires row.path == ChildPath(fs, row.parent, row.name) && row.depth == ParentDepth(fs, row.parent) + 1
    requires UniquePaths(fs[id := row])
    ensures Forest(fs[id := row])
  {
    var t := fs[id := row];
    if row.parent.Some? { assert RowOk(fs, row.parent.value); }
    forall g | g in t ensures RowOk(t, g) {
      if g != id { assert RowOk(fs, g); }
    }
  }

  lemma DeleteKeepsForest(fs: Table, docs: Placements, id: FolderId)
    requires Forest(fs) && id in fs && !HasContent(fs, docs, id)
    ensures Forest(fs - {id})
  {
    forall g | g in fs - {id} ensures RowOk(fs - {id}, g) { assert RowOk(fs, g); }
  }

  lemma CommittedRewriteSoundIff(fs: Table, id: FolderId, row: Folder)
    requires Forest(fs) && id in fs && row.owner == fs[id].owner
    requires Unused(fs, row.owner, row.path, id) ==> Placeable(fs, id, row)
    requires RewriteRows(fs, id, row).Ok?
    ensures var t := RewriteRows(fs, id, row).value; Forest(t) && DepthsAllowed(t) <==> PatternFits(fs, id, row.path)
    ensures Tame(fs[id].path) ==> PatternFits(fs, id, row.path)
  {
    var t := fs[id := row];
    forall g | g in fs && g != id && fs[g].owner == row.owner ensures fs[g].path != row.path {
      assert t[g].path != t[id].path;
    }
    if Tame(fs[id].path) { TameRewriteConflictsOrFits(fs, id, row); }
    RewriteKeepsForestIff(fs, id, row);
  }

  lemma NewPlacePlaceable(fs: Table, owner: OwnerId, id: FolderId, parent: Option<FolderId>)
    requires Forest(fs) && Owns(fs, owner, id)
    requires parent.Some? ==> Owns(fs, owner, parent.value) && !IsDescendant(fs, id, parent.value)
    requires Unused(fs, owner, NewPlace(fs, id, parent).path, id)
    ensures Placeable(fs, id, NewPlace(fs, id, parent))
  {
    assert RowOk(fs, id);
    if parent.Some? { IsDescendantIsOnChain(fs, id, parent.value); }
  }

  /** A successful call leaves the tables sound exactly when the pattern it used fits the rows; for a
      path free of `%` and backslash success alone implies that. */
  lemma StepSoundIff(s: Store, owner: OwnerId, op: Op)
    requires Sound(s) && Step(s, owner, op).Ok?
    ensures Sound(Step(s, owner, op).value) <==> Fits(s, op)
    ensures (op.Rename? || op.Move?) && op.id in s.folders && Tame(s.folders[op.id].path) ==> Fits(s, op)
  {
    var fs := s.folders;
    match op
    case Create(id, parent, name) =>
      CreateKeepsForest(fs, id, Folder(owner, parent, name, ChildPath(fs, parent, name), ParentDepth(fs, parent) + 1));
    case Rename(id, name) =>
      var row := RenamedRow(fs[id], name);
      if Unused(fs, row.owner, row.path, id) { RenamedRowPlaceable(fs, id, name); }
      CommittedRewriteSoundIff(fs, id, row);
    case Move(id, parent) =>
      var row := NewPlace(fs, id, parent);
      if Unused(fs, row.owner, row.path, id) { NewPlacePlaceable(fs, owner, id, parent); }
      CommittedRewriteSoundIff(fs, id, row);
    case Delete(id) =>
      DeleteKeepsForest(fs, s.docs, id);
    case Place(_, _, _) =>
  }

  /** A failing call changes nothing. */
  function After(s: Store, owner: OwnerId, op: Op): Store {
    match Step(s, owner, op) case Ok(s') => s' case Err(_) => s
  }

  function Run(s: Store, calls: seq<(OwnerId, Op)>): Store
    decreases |calls|
  {
    if calls == [] then s else Run(After(s, calls[0].0, calls[0].1), calls[1..])
  }

  /** All states of a run, the first included, are sound. */
  ghost predicate AlwaysSound(s: Store, calls: seq<(OwnerId, Op)>)
    decreases |calls|
  {
    Sound(s) && (calls == [] || AlwaysSound(After(s, calls[0].0, calls[0].1), calls[1..]))
  }

  /** Every successful call of a run fits. */
  ghost predicate RunFits(s: Store, calls: seq<(OwnerId, Op)>)
    decreases |calls|
  {
    calls == [] || ((Step(s, calls[0].0, calls[0].1).Ok? ==> Fits(s, calls[0].1))
                    && RunFits(After(s, calls[0].0, calls[0].1), calls[1..]))
  }

  /** Over every run, by any owners, the folder table stays a forest within the depth limit exactly
      when each successful rename and move used a pattern that fits the rows. */
  lemma {:induction false} RunSoundIff(s: Store, calls: seq<(OwnerId, Op)>)
    requires Sound(s)
    ensures AlwaysSound(s, calls) <==> RunFits(s, calls)
    decreases |calls|
  {
    if calls == [] {
    } else {
      var owner, op := calls[0].0, calls[0].1;
      if Step(s, owner, op).Ok? { StepSoundIff(s, owner, op); }
      var s' := After(s, owner, op);
      if Sound(s') { RunSoundIff(s', calls[1..]); }
    }
  }

  predicate TameOp(op: Op) {
    match op case Create(_, _, name) => Tame(name) case Rename(_, name) => Tame(name) case _ => true
  }

  ghost predicate TamePaths(fs: Table) {
    forall g | g in fs :: Tame(fs[g].path) && Tame(fs[g].name)
  }

  lemma TameSanitize(name: string)
    requires Tame(name)
    ensures Tame(Sanitize(name))
  {
    var s := Sanitize(name);
    forall i | 0 <= i < |s| ensures s[i] != '%' && s[i] != '\\' { assert s[i] == '_' || s[i] == name[i]; }
  }

  lemma TameRewrite(fs: Table, id: FolderId, row: Folder)
    requires id in fs && TamePaths(fs) && Tame(row.path) && Tame(row.name)
    ensures TamePaths(Rewritten(fs, id, row))
  {
  }

  lemma TameStep(s: Store, owner: OwnerId, op: Op)
    requires TamePaths(s.folders) && TameOp(op) && Step(s, owner, op).Ok?
    ensures TamePaths(Step(s, owner, op).value.folders)
  {
    var fs := s.folders;
    match op
    case Create(_, parent, name) =>
      TameSanitize(name);
      assert Tame(ChildPath(fs, parent, name));
    case Rename(id, name) =>
      TameSanitize(name);
      TameRewrite(fs, id, RenamedRow(fs[id], name));
    case Move(id, parent) =>
      TameSanitize(fs[id].name);
      TameRewrite(fs, id, NewPlace(fs, id, parent));
    case Delete(_) =>
    case Place(_, _, _) =>
  }

  /** No hypothesis is left when no name contains `%` or a backslash, not even about `_`. */
  lemma {:induction false} TameRunIsSound(s: Store, calls: seq<(OwnerId, Op)>)
    requires Sound(s) && TamePaths(s.folders) && forall i | 0 <= i < |calls| :: TameOp(calls[i].1)
    ensures AlwaysSound(s, calls)
    decreases |calls|
  {
    if calls == [] {
    } else {
      var owner, op := calls[0].0, calls[0].1;
      if Step(s, owner, op).Ok? {
        StepSoundIff(s, owner, op);
        TameStep(s, owner, op);
      }
      TameRunIsSound(After(s, owner, op), calls[1..]);
    }
  }

  // ---------------------------------------------------------------------------------------------
  // Exactly when rename and move succeed
  // ---------------------------------------------------------------------------------------------

  /** A forest within the depth limit violates no constraint. */
  lemma ForestCommits(fs: Table)
    requires Forest(fs) && DepthsAllowed(fs)
    ensures Violation(fs) == None
  {
    forall g | g in fs ensures fs[g].parent != Some(g) && (fs[g].parent.Some? ==> fs[g].parent.value in fs) {
      assert RowOk(fs, g);
    }
  }

  lemma ShiftedDepths(fs: Table, t: Table, id: FolderId, row: Folder)
    requires Forest(fs) && DepthsAllowed(fs) && id in fs && row.owner == fs[id].owner
    requires SubtreeShifted(fs, t, id, row) && Forest(t)
    requires !TooDeep(fs, row.owner, id, row.depth - fs[id].depth)
    ensures DepthsAllowed(t)
  {
    forall g | g in t ensures 0 <= t[g].depth <= MAX_DEPTH {
      assert RowOk(t, g) && RowShifted(fs, t, id, row, g);
      if OnChain(fs, id, g) { ChainPrefix(fs, id, g); }
    }
  }

  /** The state between the two statements violates no constraint either. */
  lemma FirstStatementCommits(fs: Table, id: FolderId, row: Folder)
    requires Forest(fs) && DepthsAllowed(fs) && id in fs && Placeable(fs, id, row) && 0 <= row.depth <= MAX_DEPTH
    ensures Violation(fs[id := row]) == None
  {
    var t := fs[id := row];
    assert OnChain(fs, id, id);
    forall g | g in t ensures t[g].parent != Some(g) && (t[g].parent.Some? ==> t[g].parent.value in t) {
      if g != id { assert RowOk(fs, g); }
    }
  }

  lemma PlaceableCommits(fs: Table, id: FolderId, row: Folder)
    requires Forest(fs) && DepthsAllowed(fs) && id in fs && Placeable(fs, id, row) && PatternFits(fs, id, row.path)
    requires !TooDeep(fs, row.owner, id, row.depth - fs[id].depth)
    ensures RewriteRows(fs, id, row) == Ok(Rewritten(fs, id, row))
  {
    var t := Rewritten(fs, id, row);
    FittingRewriteShifts(fs, id, row);
    ShiftKeepsForest(fs, t, id, row);
    ShiftedDepths(fs, t, id, row);
    ForestCommits(t);
    assert RowShifted(fs, t, id, row, id);
    FirstStatementCommits(fs, id, row);
  }

  /** The pattern does not fit, and still no constraint notices. */
  ghost predicate SlipsThrough(fs: Table, id: FolderId, row: Folder)
    requires id in fs
  {
    !Tame(fs[id].path) && !PatternFits(fs, id, row.path) && Violation(Rewritten(fs, id, row)) == None
  }

  /** On a free place the statements commit exactly when the pattern fits, or when it does not and the
      stray rows happen to violate no constraint, which takes a `%` or a backslash in the path. */
  lemma PlaceableCommitsIff(fs: Table, id: FolderId, row: Folder)
    requires Forest(fs) && DepthsAllowed(fs) && id in fs && Placeable(fs, id, row) && row.depth <= MAX_DEPTH
    requires !TooDeep(fs, row.owner, id, row.depth - fs[id].depth)
    ensures RewriteRows(fs, id, row).Ok? <==> PatternFits(fs, id, row.path) || SlipsThrough(fs, id, row)
  {
    if row.parent.Some? { assert RowOk(fs, row.parent.value); }
    FirstStatementCommits(fs, id, row);
    if PatternFits(fs, id, row.path) {
      PlaceableCommits(fs, id, row);
    } else if Tame(fs[id].path) {
      TameRewriteConflictsOrFits(fs, id, row);
    }
  }

  lemma InsertCommitsIff(fs: Table, id: FolderId, row: Folder)
    requires Forest(fs) && DepthsAllowed(fs) && id !in fs && row.name != ""
    requires row.parent.Some? ==> Owns(fs, row.owner, row.parent.value) && fs[row.parent.value].depth < MAX_DEPTH
    requires row.path == ChildPath(fs, row.parent, row.name) && row.depth == ParentDepth(fs, row.parent) + 1
    ensures InsertRow(fs, id, row).Ok? <==> Unused(fs, row.owner, row.path, id)
  {
    var t := fs[id := row];
    if row.parent.Some? { assert RowOk(fs, row.parent.value); }
    if Unused(fs, row.owner, row.path, id) {
      CreateKeepsForest(fs, id, row);
      ForestCommits(t);
    } else {
      var g :| g in fs && g != id && fs[g].owner == row.owner && fs[g].path == row.path;
      assert t[g].path == t[id].path;
    }
  }

  /** A folder is created exactly when its name is valid, its parent is the caller's, it does not
      sink below the depth limit, and the path is free. */
  lemma CreateSucceedsIff(s: Store, owner: OwnerId, id: FolderId, parent: Option<FolderId>, name: string)
    requires Sound(s) && id !in s.folders
    ensures Step(s, owner, Op.Create(id, parent, name)).Ok? <==>
            && ValidName(name)
            && (parent.Some? ==> Owns(s.folders, owner, parent.value) && s.folders[parent.value].depth < MAX_DEPTH)
            && Unused(s.folders, owner, ChildPath(s.folders, parent, name), id)
  {
    var fs := s.folders;
    if ValidName(name) && (parent.Some? ==> Owns(fs, owner, parent.value) && fs[parent.value].depth < MAX_DEPTH) {
      InsertCommitsIff(fs, id, Folder(owner, parent, name, ChildPath(fs, parent, name), ParentDepth(fs, parent) + 1));
    }
  }

  /** A rename goes through exactly when the caller owns the folder, the name is valid, no other
      folder of the owner has the new path, and the old path's pattern fits the rows or its stray rows
      slip through.  No descendant can get in its way; a look-alike of a name with `_` can. */
  lemma RenameSucceedsIff(s: Store, owner: OwnerId, id: FolderId, name: string)
    requires Sound(s)
    ensures Step(s, owner, Op.Rename(id, name)).Ok? <==>
            && Owns(s.folders, owner, id) && ValidName(name)
            && var row := RenamedRow(s.folders[id], name);
               && Unused(s.folders, owner, row.path, id)
               && (PatternFits(s.folders, id, row.path) || SlipsThrough(s.folders, id, row))
  {
    if Owns(s.folders, owner, id) && ValidName(name) {
      var fs, row := s.folders, RenamedRow(s.folders[id], name);
      if Unused(fs, owner, row.path, id) {
        RenamedRowPlaceable(fs, id, name);
        SameDepthNotTooDeep(fs, owner, id);
        PlaceableCommitsIff(fs, id, row);
      } else {
        TakenPathConflicts(fs, id, row);
      }
    }
  }

  lemma SameDepthNotTooDeep(fs: Table, owner: OwnerId, id: FolderId)
    requires DepthsAllowed(fs) && id in fs
    ensures !TooDeep(fs, owner, id, 0)
  {
  }

  lemma TakenPathConflicts(fs: Table, id: FolderId, row: Folder)
    requires id in fs && !Unused(fs, row.owner, row.path, id)
    ensures RewriteRows(fs, id, row).Err?
  {
    var t := fs[id := row];
    var g :| g in fs && g != id && fs[g].owner == row.owner && fs[g].path == row.path;
    assert t[g].path == t[id].path;
  }

  /** A move goes through exactly when both folders are the caller's, the new parent is not below
      the folder, the whole subtree fits under the depth limit, the new path is free, and the old
      path's pattern fits the rows or its stray rows slip through. */
  lemma MoveSucceedsIff(s: Store, owner: OwnerId, id: FolderId, parent: Option<FolderId>)
    requires Sound(s)
    ensures var fs := s.folders;
            Step(s, owner, Op.Move(id, parent)).Ok? <==>
            && Owns(fs, owner, id)
            && (parent.Some? ==> Owns(fs, owner, parent.value) && !OnChain(fs, id, parent.value))
            && (forall g | g in fs && OnChain(fs, id, g) ::
                  fs[g].depth - fs[id].depth + ParentDepth(fs, parent) + 1 <= MAX_DEPTH)
            && var row := NewPlace(fs, id, parent);
               && Unused(fs, owner, row.path, id)
               && (PatternFits(fs, id, row.path) || SlipsThrough(fs, id, row))
  {
    var fs := s.folders;
    if parent.Some? {
      IsDescendantIsOnChain(fs, id, parent.value);
      if id in fs { assert OnChain(fs, id, id); }
    }
    if Owns(fs, owner, id) && (parent.Some? ==> Owns(fs, owner, parent.value) && !OnChain(fs, id, parent.value)) {
      TooDeepIff(fs, owner, id, ParentDepth(fs, parent) + 1 - fs[id].depth);
      if !TooDeep(fs, owner, id, ParentDepth(fs, parent) + 1 - fs[id].depth) {
        MoveReachesRepository(fs, owner, id, parent);
        AllowedMoveIff(fs, owner, id, parent);
      }
    }
  }

  lemma TooDeepIff(fs: Table, owner: OwnerId, id: FolderId, delta: int)
    requires Forest(fs) && Owns(fs, owner, id)
    ensures !TooDeep(fs, owner, id, delta) <==>
            forall g | g in fs && OnChain(fs, id, g) :: fs[g].depth + delta <= MAX_DEPTH
  {
    forall g | g in fs ensures OnChain(fs, id, g) <==> fs[id].owner == fs[g].owner && fs[id].path <= fs[g].path {
      IsDescendantIsOnChain(fs, id, g);
    }
  }

  lemma AllowedMoveIff(fs: Table, owner: OwnerId, id: FolderId, parent: Option<FolderId>)
    requires Forest(fs) && DepthsAllowed(fs) && Owns(fs, owner, id)
    requires parent.Some? ==> Owns(fs, owner, parent.value) && !IsDescendant(fs, id, parent.value)
    requires !TooDeep(fs, owner, id, ParentDepth(fs, parent) + 1 - fs[id].depth)
    ensures var row := NewPlace(fs, id, parent);
            RewriteRows(fs, id, row).Ok? <==>
            Unused(fs, owner, row.path, id) && (PatternFits(fs, id, row.path) || SlipsThrough(fs, id, row))
  {
    var row := NewPlace(fs, id, parent);
    if Unused(fs, owner, row.path, id) {
      NewPlacePlaceable(fs, owner, id, parent);
      PlaceableCommitsIff(fs, id, row);
    } else {
      TakenPathConflicts(fs, id, row);
    }
  }
}
