/**
 The repository: each method runs its SQL statements one after another on the two tables.  A
 violated constraint aborts the transaction, so a failing call leaves both tables as they were.
 */
module FoldersRepository {
  import opened Wrappers
  import opened FolderForest
  import opened FolderRewrite
  import opened FolderFilter

  const MAX_DEPTH := 10

  datatype DbError = UniqueViolation | CheckViolation | ForeignKeyViolation

  predicate DepthsAllowed(fs: Table) {
    forall g | g in fs :: 0 <= fs[g].depth <= MAX_DEPTH
  }

  predicate NoSelfParent(fs: Table) {
    forall g | g in fs :: fs[g].parent != Some(g)
  }

  predicate ParentsExist(fs: Table) {
    forall g | g in fs && fs[g].parent.Some? :: fs[g].parent.value in fs
  }

  /** The first constraint of the folders table that a statement's result violates. */
  function Violation(fs: Table): Option<DbError> {
    if !DepthsAllowed(fs) || !NoSelfParent(fs) then Some(CheckViolation)
    else if !UniquePaths(fs) then Some(UniqueViolation)
    else if !ParentsExist(fs) then Some(ForeignKeyViolation)
    else None
  }

  function Commit(fs: Table): Result<Table, DbError> {
    match Violation(fs) case Some(e) => Err(e) case None => Ok(fs)
  }

  function InsertRow(fs: Table, id: FolderId, row: Folder): Result<Table, DbError> {
    if id in fs then Err(UniqueViolation) else Commit(fs[id := row])
  }

  /** The own row first, then the subtree; each statement is checked. */
  function RewriteRows(fs: Table, id: FolderId, row: Folder): Result<Table, DbError>
    requires id in fs
  {
    match Violation(fs[id := row])
    case Some(e) => Err(e)
    case None => Commit(Rewritten(fs, id, row))
  }

  predicate HasContent(fs: Table, docs: Placements, id: FolderId) {
    (exists g | g in fs :: fs[g].parent == Some(id)) || (exists d | d in docs :: docs[d] == id)
  }

  class FoldersRepository {
    var folders: Table
    var placements: Placements

    constructor ()
      ensures folders == map[] && placements == map[]
    {
      folders, placements := map[], map[];
    }

    method Create(id: FolderId, owner: OwnerId, parent: Option<FolderId>, name: string, path: string, depth: int)
      returns (r: Result<Folder, DbError>)
      modifies this`folders
      ensures match InsertRow(old(folders), id, Folder(owner, parent, name, path, depth))
              case Err(e) => r == Err(e) && folders == old(folders)
              case Ok(fs) => folders == fs && r == Ok(fs[id])
    {
      if id in folders { return Err(UniqueViolation); }
      var rows := folders[id := Folder(owner, parent, name, path, depth)];
      var v := Violation(rows);
      if v.Some? { return Err(v.value); }
      folders := rows;
      r := Ok(folders[id]);
    }

    method Rename(id: FolderId, newName: string) returns (r: Result<Option<Folder>, DbError>)
      modifies this`folders
      ensures id !in old(folders) ==> r == Ok(None) && folders == old(folders)
      ensures id in old(folders) ==>
                match RewriteRows(old(folders), id, RenamedRow(old(folders)[id], newName))
                case Err(e) => r == Err(e) && folders == old(folders)
                case Ok(fs) => folders == fs && r == Ok(Some(fs[id]))
    {
      if id !in folders { return Ok(None); }
      var current := folders[id];
      var prefix := CutEnd(current.path, |current.name|);
      var newPath := prefix + Sanitize(newName) + "/";
      var rows := folders[id := current.(name := newName, path := newPath)];
      assert rows == folders[id := RenamedRow(current, newName)];
      var v := Violation(rows);
      if v.Some? { return Err(v.value); }
      rows := BulkRewrite(rows, id, current.owner, current.path, newPath, 0);
      assert rows == Rewritten(folders, id, RenamedRow(current, newName));
      v := Violation(rows);
      if v.Some? { return Err(v.value); }
      folders := rows;
      r := Ok(Some(folders[id]));
    }

    method Move(id: FolderId, newParent: Option<FolderId>, newParentPath: Option<string>, newDepth: int)
      returns (r: Result<Option<Folder>, DbError>)
      modifies this`folders
      ensures id !in old(folders) ==> r == Ok(None) && folders == old(folders)
      ensures id in old(folders) ==>
                match RewriteRows(old(folders), id, MovedRow(old(folders)[id], newParent, newParentPath, newDepth))
                case Err(e) => r == Err(e) && folders == old(folders)
                case Ok(fs) => folders == fs && r == Ok(Some(fs[id]))
    {
      if id !in folders { return Ok(None); }
      var current := folders[id];
      var newPath := ComputeChildPath(newParentPath, current.name);
      var delta := newDepth - current.depth;
      var rows := folders[id := current.(parent := newParent, path := newPath, depth := newDepth)];
      assert rows == folders[id := MovedRow(current, newParent, newParentPath, newDepth)];
      var v := Violation(rows);
      if v.Some? { return Err(v.value); }
      rows := BulkRewrite(rows, id, current.owner, current.path, newPath, delta);
      assert rows == Rewritten(folders, id, MovedRow(current, newParent, newParentPath, newDepth));
      v := Violation(rows);
      if v.Some? { return Err(v.value); }
      folders := rows;
      r := Ok(Some(folders[id]));
    }

    method DeleteIfEmpty(id: FolderId) returns (deleted: bool)
      modifies this`folders
      ensures deleted <==> id in old(folders) && !HasContent(old(folders), placements, id)
      ensures folders == if deleted then old(folders) - {id} else old(folders)
    {
      if exists g | g in folders :: folders[g].parent == Some(id) { return false; }
      if exists d | d in placements :: placements[d] == id { return false; }
      deleted := id in folders;
      folders := folders - {id};
    }

    method SetFolder(doc: DocId, folder: Option<FolderId>)
      modifies this`placements
      ensures placements == if folder.None? then old(placements) - {doc} else old(placements)[doc := folder.value]
    {
      if folder.None? {
        placements := placements - {doc};
      } else {
        placements := placements[doc := folder.value];
      }
    }
  }
}
