/**
 Extraction schemas: a mutable current row for each schema, and an append-only table of its versions.

 The two tables are changed by separate statements of one transaction; a violated constraint aborts
 it.  The row of a document type is found by "the live row with the highest version", so rows of a
 type that was deleted, created again and restored may coexist.
 */
module SchemaHistory {
  import opened Wrappers

  type SchemaId = nat
  type ScopeId = nat

  /** Field name to field definition; the definition is not looked into. */
  type Fields = map<string, string>

  datatype Row = Row(docType: string, version: nat, fields: Fields, deprecated: bool, reason: Option<string>,
                     scope: Option<ScopeId>, deleted: bool)

  datatype Entry = Entry(schemaId: SchemaId, version: nat, fields: Fields, changed: set<string>,
                         rolledBackFrom: Option<nat>)

  datatype Tables = Tables(schemas: map<SchemaId, Row>, versions: seq<Entry>)

  datatype Error = NotFound | AlreadyExists | Refused | UniqueViolation | HistoryViolation

  datatype Op =
    | Create(newId: SchemaId, docType: string, fields: Fields, scope: Option<ScopeId>)
    | Update(docType: string, fields: Fields)
    | Rollback(docType: string, target: int, scope: Option<ScopeId>)
    | Delete(docType: string)
    | Restore(docType: string)
    | Deprecate(docType: string, reason: string)

  const REASON_MAX := 1024

  function SymmetricDifference(a: set<string>, b: set<string>): set<string> { (a - b) + (b - a) }

  // ---------------------------------------------------------------------------------------------
  // Looking up
  // ---------------------------------------------------------------------------------------------

  /** `doc_type_code = .. AND is_soft_deleted = FALSE [AND scope_profile_id = ..]` */
  predicate Candidate(r: Row, docType: string, scope: Option<ScopeId>) {
    r.docType == docType && !r.deleted && (scope.Some? ==> r.scope == scope)
  }

  /** `.. ORDER BY version DESC LIMIT 1` */
  predicate IsTop(schemas: map<SchemaId, Row>, docType: string, scope: Option<ScopeId>, id: SchemaId) {
    && id in schemas && Candidate(schemas[id], docType, scope)
    && forall g | g in schemas && Candidate(schemas[g], docType, scope) :: schemas[g].version <= schemas[id].version
  }

  predicate HasCandidate(schemas: map<SchemaId, Row>, docType: string, scope: Option<ScopeId>) {
    exists g | g in schemas :: Candidate(schemas[g], docType, scope)
  }

  ghost function Top(schemas: map<SchemaId, Row>, docType: string, scope: Option<ScopeId>): (id: SchemaId)
    requires HasCandidate(schemas, docType, scope)
    ensures IsTop(schemas, docType, scope, id)
  {
    CandidateTopExists(schemas, docType, scope);
    var id :| IsTop(schemas, docType, scope, id);
    id
  }

  lemma CandidateTopExists(schemas: map<SchemaId, Row>, docType: string, scope: Option<ScopeId>)
    requires HasCandidate(schemas, docType, scope)
    ensures exists id :: IsTop(schemas, docType, scope, id)
  {
    var ids := set g | g in schemas && Candidate(schemas[g], docType, scope);
    var g :| g in schemas && Candidate(schemas[g], docType, scope);
    assert g in ids;
    HighestExists(schemas, ids);
    var id :| id in ids && forall g | g in ids :: schemas[g].version <= schemas[id].version;
    assert IsTop(schemas, docType, scope, id);
  }

  lemma HighestExists(schemas: map<SchemaId, Row>, ids: set<SchemaId>)
    requires ids != {} && ids <= schemas.Keys
    ensures exists id :: id in ids && forall g | g in ids :: schemas[g].version <= schemas[id].version
  {
    var x :| x in ids;
    var rest := ids - {x};
    if rest != {} {
      HighestExists(schemas, rest);
      var y :| y in rest && forall g | g in rest :: schemas[g].version <= schemas[y].version;
      var z := if schemas[x].version <= schemas[y].version then y else x;
      assert z in ids && forall g | g in ids :: schemas[g].version <= schemas[z].version;
    } else {
      assert ids == {x};
    }
  }

  /** `UNIQUE (doc_type_code, version)`, soft-deleted rows included. */
  predicate UniqueVersions(schemas: map<SchemaId, Row>) {
    forall a, b | a in schemas && b in schemas && a != b && schemas[a].docType == schemas[b].docType ::
      schemas[a].version != schemas[b].version
  }

  /** `SELECT .. FROM extraction_schema_versions WHERE schema_id = .. AND version = .. LIMIT 1` */
  function Fetch(versions: seq<Entry>, id: SchemaId, version: int): Option<Entry> {
    if versions == [] then None
    else if versions[0].schemaId == id && versions[0].version == version then Some(versions[0])
    else Fetch(versions[1..], id, version)
  }

  // ---------------------------------------------------------------------------------------------
  // The operations
  // ---------------------------------------------------------------------------------------------

  /** Both statements of a new version: the row is written, then the entry is appended.  Reading the
      row back into a model refuses an empty field map, which aborts the call. */
  ghost function Write(t: Tables, id: SchemaId, row: Row, e: Entry): Result<Tables, Error> {
    if !UniqueVersions(t.schemas[id := row]) then Err(UniqueViolation)
    else if Fetch(t.versions, e.schemaId, e.version).Some? then Err(HistoryViolation)
    else if row.fields == map[] then Err(Refused)
    else Ok(Tables(t.schemas[id := row], t.versions + [e]))
  }

  ghost function CreateSchema(t: Tables, id: SchemaId, docType: string, fields: Fields, scope: Option<ScopeId>)
    : Result<Tables, Error>
  {
    if HasCandidate(t.schemas, docType, None) then Err(AlreadyExists)
    else if id in t.schemas then Err(UniqueViolation)
    else Write(t, id, Row(docType, 1, fields, false, None, scope, false), Entry(id, 1, fields, {}, None))
  }

  ghost function UpdateSchema(t: Tables, docType: string, fields: Fields): Result<Tables, Error> {
    if !HasCandidate(t.schemas, docType, None) then Err(NotFound)
    else
      var id := Top(t.schemas, docType, None);
      var row := t.schemas[id];
      Write(t, id, row.(version := row.version + 1, fields := fields),
            Entry(id, row.version + 1, fields, SymmetricDifference(row.fields.Keys, fields.Keys), None))
  }

  ghost function RollbackSchema(t: Tables, docType: string, target: int, scope: Option<ScopeId>)
    : Result<Tables, Error>
  {
    if !HasCandidate(t.schemas, docType, scope) then Err(NotFound)
    else
      var id := Top(t.schemas, docType, scope);
      var row := t.schemas[id];
      if row.deprecated then Err(Refused)
      else if target < 1 || target >= row.version then Err(Refused)
      else
        match Fetch(t.versions, id, target)
        case None => Err(NotFound)
        case Some(e) => if e.fields == map[] then Err(Refused) else RollbackTo(t, id, target, e.fields)
  }

  ghost function RollbackTo(t: Tables, id: SchemaId, target: nat, fields: Fields): Result<Tables, Error>
    requires id in t.schemas
  {
    var row := t.schemas[id];
    var prev := Fetch(t.versions, id, row.version);
    var prevKeys := if prev.Some? then prev.value.fields.Keys else {};
    Write(t, id, row.(version := row.version + 1, fields := fields),
          Entry(id, row.version + 1, fields, SymmetricDifference(prevKeys, fields.Keys), Some(target)))
  }

  /** An UPDATE over all live (or all deleted) rows of a type; versions and fields stay. */
  function MarkAll(schemas: map<SchemaId, Row>, docType: string, wasDeleted: bool, f: Row -> Row): map<SchemaId, Row> {
    map id | id in schemas ::
      if schemas[id].docType == docType && schemas[id].deleted == wasDeleted then f(schemas[id]) else schemas[id]
  }

  function SetDeleted(deleted: bool): Row -> Row { (r: Row) => r.(deleted := deleted) }

  function SetDeprecated(reason: string): Row -> Row { (r: Row) => r.(deprecated := true, reason := Some(reason)) }

  /** What the model of a deprecated row demands of its reason. */
  predicate ValidReason(reason: string) { 1 <= |reason| <= REASON_MAX }

  ghost function Step(t: Tables, op: Op): Result<Tables, Error> {
    match op
    case Create(id, docType, fields, scope) => CreateSchema(t, id, docType, fields, scope)
    case Update(docType, fields) => UpdateSchema(t, docType, fields)
    case Rollback(docType, target, scope) => RollbackSchema(t, docType, target, scope)
    case Delete(docType) => Ok(t.(schemas := MarkAll(t.schemas, docType, false, SetDeleted(true))))
    case Restore(docType) => Ok(t.(schemas := MarkAll(t.schemas, docType, true, SetDeleted(false))))
    case Deprecate(docType, reason) =>
      if !HasCandidate(t.schemas, docType, None) then Err(NotFound)
      else if !ValidReason(reason) then Err(Refused)
      else Ok(t.(schemas := MarkAll(t.schemas, docType, false, SetDeprecated(reason))))
  }

  // ---------------------------------------------------------------------------------------------
  // The invariant: history and current row agree
  // ---------------------------------------------------------------------------------------------

  /** A schema's entries in order of insertion. */
  ghost function HistoryOf(versions: seq<Entry>, id: SchemaId): seq<Entry> {
    if versions == [] then []
    else HistoryOf(versions[..|versions| - 1], id)
         + (if versions[|versions| - 1].schemaId == id then [versions[|versions| - 1]] else [])
  }

  /** Versions 1..n, each once and in order, each with fields; every entry names the keys that changed. */
  ghost predicate Numbered(h: seq<Entry>) {
    && (forall i | 0 <= i < |h| :: h[i].version == i + 1 && h[i].fields != map[])
    && (forall i | 0 < i < |h| :: h[i].changed == SymmetricDifference(h[i - 1].fields.Keys, h[i].fields.Keys))
  }

  ghost predicate RowAgrees(t: Tables, id: SchemaId) {
    var h := HistoryOf(t.versions, id);
    && Numbered(h)
    && (id in t.schemas ==> |h| == t.schemas[id].version && |h| >= 1 && h[|h| - 1].fields == t.schemas[id].fields)
    && (id !in t.schemas ==> h == [])
  }

  ghost predicate Inv(t: Tables) {
    UniqueVersions(t.schemas) && forall id: SchemaId {:trigger RowAgrees(t, id)} :: RowAgrees(t, id)
  }

  lemma {:induction false} HistorySnoc(versions: seq<Entry>, e: Entry, id: SchemaId)
    ensures HistoryOf(versions + [e], id) == HistoryOf(versions, id) + if e.schemaId == id then [e] else []
  {
    assert (versions + [e])[..|versions|] == versions;
  }

  lemma {:induction false} HistoryConcat(a: seq<Entry>, b: seq<Entry>, id: SchemaId)
    ensures HistoryOf(a + b, id) == HistoryOf(a, id) + HistoryOf(b, id)
    decreases |b|
  {
    if b == [] {
      assert a + b == a;
    } else {
      var front := b[..|b| - 1];
      HistoryConcat(a, front, id);
      assert a + b == (a + front) + [b[|b| - 1]];
      HistorySnoc(a + front, b[|b| - 1], id);
    }
  }

  /** With a numbered history, fetching version v gives entry v - 1, and nothing outside 1..n. */
  lemma {:induction false} FetchIsHistory(versions: seq<Entry>, id: SchemaId, version: int, done: seq<Entry>)
    requires Numbered(done + HistoryOf(versions, id)) && version > |done|
    ensures var h := done + HistoryOf(versions, id);
            Fetch(versions, id, version) == if version <= |h| then Some(h[version - 1]) else None
    decreases |versions|
  {
    var h := done + HistoryOf(versions, id);
    if versions == [] {
    } else {
      var first, rest := versions[0], versions[1..];
      assert versions == [first] + rest;
      HistoryConcat([first], rest, id);
      assert [first][..0] == [];
      if first.schemaId == id {
        assert HistoryOf([first], id) == [first];
        assert h == (done + [first]) + HistoryOf(rest, id);
        assert h[|done|] == first;
        if version > |done| + 1 { FetchIsHistory(rest, id, version, done + [first]); }
      } else {
        assert HistoryOf([first], id) == [];
        assert h == done + HistoryOf(rest, id);
        FetchIsHistory(rest, id, version, done);
      }
    }
  }

  lemma FetchVersion(t: Tables, id: SchemaId, version: int)
    requires Inv(t) && version >= 1
    ensures var h := HistoryOf(t.versions, id);
            Fetch(t.versions, id, version) == if version <= |h| then Some(h[version - 1]) else None
  {
    assert RowAgrees(t, id);
    assert [] + HistoryOf(t.versions, id) == HistoryOf(t.versions, id);
    FetchIsHistory(t.versions, id, version, []);
  }

  lemma WriteKeepsInv(t: Tables, id: SchemaId, row: Row, e: Entry)
    requires Inv(t) && Write(t, id, row, e).Ok?
    requires e.schemaId == id && e.version == row.version && e.fields == row.fields
    requires row.version == if id in t.schemas then t.schemas[id].version + 1 else 1
    requires id in t.schemas ==> e.changed == SymmetricDifference(t.schemas[id].fields.Keys, e.fields.Keys)
    ensures Inv(Write(t, id, row, e).value)
  {
    var t' := Write(t, id, row, e).value;
    forall g: SchemaId ensures RowAgrees(t', g) {
      if g == id { OwnRowAgrees(t, t', id, row, e); } else { OtherRowAgrees(t, t', id, e, g); }
    }
  }

  lemma OwnRowAgrees(t: Tables, t': Tables, id: SchemaId, row: Row, e: Entry)
    requires RowAgrees(t, id) && t' == Tables(t.schemas[id := row], t.versions + [e])
    requires e.schemaId == id && e.version == row.version && e.fields == row.fields != map[]
    requires row.version == if id in t.schemas then t.schemas[id].version + 1 else 1
    requires id in t.schemas ==> e.changed == SymmetricDifference(t.schemas[id].fields.Keys, e.fields.Keys)
    ensures RowAgrees(t', id)
  {
    HistorySnoc(t.versions, e, id);
    NumberedSnoc(HistoryOf(t.versions, id), e);
  }

  lemma NumberedSnoc(h: seq<Entry>, e: Entry)
    requires Numbered(h) && e.version == |h| + 1 && e.fields != map[]
    requires h != [] ==> e.changed == SymmetricDifference(h[|h| - 1].fields.Keys, e.fields.Keys)
    ensures Numbered(h + [e])
  {
  }

  lemma OtherRowAgrees(t: Tables, t': Tables, id: SchemaId, e: Entry, g: SchemaId)
    requires RowAgrees(t, g) && g != id && e.schemaId == id && t'.versions == t.versions + [e]
    requires (g in t'.schemas <==> g in t.schemas) && (g in t.schemas ==> t'.schemas[g] == t.schemas[g])
    ensures RowAgrees(t', g)
  {
    HistorySnoc(t.versions, e, g);
  }

  /** The unique constraint of the history table never fires. */
  lemma WriteNeverHitsHistory(t: Tables, id: SchemaId, row: Row, e: Entry)
    requires Inv(t) && e.schemaId == id && e.version == row.version
    requires row.version == if id in t.schemas then t.schemas[id].version + 1 else 1
    ensures Write(t, id, row, e) != Err(HistoryViolation)
  {
    FetchVersion(t, id, row.version);
    assert RowAgrees(t, id);
  }

  lemma MarkKeepsInv(t: Tables, docType: string, wasDeleted: bool, f: Row -> Row)
    requires Inv(t)
    requires forall r: Row :: f(r).docType == r.docType && f(r).version == r.version && f(r).fields == r.fields
    ensures Inv(t.(schemas := MarkAll(t.schemas, docType, wasDeleted, f)))
  {
    var t' := t.(schemas := MarkAll(t.schemas, docType, wasDeleted, f));
    forall g: SchemaId ensures RowAgrees(t', g) { assert RowAgrees(t, g); }
  }

  /** Where a rollback lands: the entry it copies, and the entry it compares with. */
  lemma RollbackEntries(t: Tables, id: SchemaId, target: nat)
    requires Inv(t) && id in t.schemas && 1 <= target < t.schemas[id].version
    ensures var h := HistoryOf(t.versions, id);
            && |h| == t.schemas[id].version
            && Fetch(t.versions, id, target) == Some(h[target - 1])
            && Fetch(t.versions, id, t.schemas[id].version) == Some(h[|h| - 1])
            && h[|h| - 1].fields == t.schemas[id].fields
            && h[target - 1].fields != map[]
  {
    assert RowAgrees(t, id);
    FetchVersion(t, id, target);
    FetchVersion(t, id, t.schemas[id].version);
  }

  lemma StepKeepsInv(t: Tables, op: Op)
    requires Inv(t)
    ensures Step(t, op) != Err(HistoryViolation)
    ensures Step(t, op).Ok? ==> Inv(Step(t, op).value) && t.versions <= Step(t, op).value.versions
  {
    match op
    case Create(id, docType, fields, scope) =>
      if !HasCandidate(t.schemas, docType, None) && id !in t.schemas {
        var row, e := Row(docType, 1, fields, false, None, scope, false), Entry(id, 1, fields, {}, None);
        WriteNeverHitsHistory(t, id, row, e);
        if Step(t, op).Ok? { WriteKeepsInv(t, id, row, e); }
      }
    case Update(docType, fields) =>
      if HasCandidate(t.schemas, docType, None) {
        var id := Top(t.schemas, docType, None);
        var row := t.schemas[id].(version := t.schemas[id].version + 1, fields := fields);
        var e := Entry(id, row.version, fields, SymmetricDifference(t.schemas[id].fields.Keys, fields.Keys), None);
        WriteNeverHitsHistory(t, id, row, e);
        if Step(t, op).Ok? { WriteKeepsInv(t, id, row, e); }
      }
    case Rollback(docType, target, scope) =>
      RollbackKeepsInv(t, docType, target, scope);
    case Delete(docType) => MarkKeepsInv(t, docType, false, SetDeleted(true));
    case Restore(docType) => MarkKeepsInv(t, docType, true, SetDeleted(false));
    case Deprecate(docType, reason) => MarkKeepsInv(t, docType, false, SetDeprecated(reason));
  }

  lemma RollbackKeepsInv(t: Tables, docType: string, target: int, scope: Option<ScopeId>)
    requires Inv(t)
    ensures var r := RollbackSchema(t, docType, target, scope);
            && r != Err(HistoryViolation)
            && (r.Ok? ==> Inv(r.value) && t.versions <= r.value.versions)
  {
    if HasCandidate(t.schemas, docType, scope) {
      var id := Top(t.schemas, docType, scope);
      var row := t.schemas[id];
      if !row.deprecated && 1 <= target < row.version {
        RollbackEntries(t, id, target);
        var fields := HistoryOf(t.versions, id)[target - 1].fields;
        var row' := row.(version := row.version + 1, fields := fields);
        var e := Entry(id, row.version + 1, fields, SymmetricDifference(row.fields.Keys, fields.Keys), Some(target));
        WriteNeverHitsHistory(t, id, row', e);
        if fields != map[] && Write(t, id, row', e).Ok? { WriteKeepsInv(t, id, row', e); }
      }
    }
  }

  ghost function After(t: Tables, op: Op): Tables {
    match Step(t, op) case Ok(t') => t' case Err(_) => t
  }

  ghost function Run(t: Tables, ops: seq<Op>): Tables
    decreases |ops|
  {
    if ops == [] then t else Run(After(t, ops[0]), ops[1..])
  }

  /** Over every run, each schema has exactly the versions 1..current in its history, its row equals
      the newest entry, and entries once written never change. */
  lemma {:induction false} RunKeepsInv(t: Tables, ops: seq<Op>)
    requires Inv(t)
    ensures Inv(Run(t, ops)) && t.versions <= Run(t, ops).versions
    decreases |ops|
  {
    if ops == [] {
    } else {
      StepKeepsInv(t, ops[0]);
      RunKeepsInv(After(t, ops[0]), ops[1..]);
    }
  }

  function Empty(): Tables { Tables(map[], []) }

  lemma EmptyInv()
    ensures Inv(Empty())
  {
    forall g: SchemaId ensures RowAgrees(Empty(), g) {}
  }

  // ---------------------------------------------------------------------------------------------
  // What the recorded changes mean
  // ---------------------------------------------------------------------------------------------

  /** The key set of version 1, changed by the recorded keys of versions 2..v. */
  ghost function Replayed(h: seq<Entry>, v: nat): set<string>
    requires 1 <= v <= |h|
  {
    if v == 1 then h[0].fields.Keys else SymmetricDifference(Replayed(h, v - 1), h[v - 1].changed)
  }

  /** Across any mix of updates and rollbacks, replaying the recorded changes gives each version's keys. */
  lemma {:induction false} ReplayGivesKeys(h: seq<Entry>, v: nat)
    requires Numbered(h) && 1 <= v <= |h|
    ensures Replayed(h, v) == h[v - 1].fields.Keys
  {
    if v == 1 {
    } else {
      ReplayGivesKeys(h, v - 1);
      SymmetricDifferenceUndoes(h[v - 2].fields.Keys, h[v - 1].fields.Keys);
    }
  }

  /** The same at the end of every run from the empty tables, for every version of every schema. */
  lemma RunReplays(ops: seq<Op>, id: SchemaId, v: nat)
    requires id in Run(Empty(), ops).schemas && 1 <= v <= Run(Empty(), ops).schemas[id].version
    ensures var t := Run(Empty(), ops);
            var h := HistoryOf(t.versions, id);
            && |h| == t.schemas[id].version
            && Replayed(h, v) == h[v - 1].fields.Keys
            && Replayed(h, |h|) == t.schemas[id].fields.Keys
  {
    EmptyInv();
    RunKeepsInv(Empty(), ops);
    assert RowAgrees(Run(Empty(), ops), id);
    var h := HistoryOf(Run(Empty(), ops).versions, id);
    ReplayGivesKeys(h, v);
    ReplayGivesKeys(h, |h|);
  }

  lemma SymmetricDifferenceUndoes(a: set<string>, b: set<string>)
    ensures SymmetricDifference(a, SymmetricDifference(a, b)) == b
  {
    forall x ensures x in SymmetricDifference(a, SymmetricDifference(a, b)) <==> x in b {}
  }

  /** No other row of the type stands at that version. */
  ghost predicate VersionFree(t: Tables, id: SchemaId, version: nat)
    requires id in t.schemas
  {
    forall g | g in t.schemas && g != id && t.schemas[g].docType == t.schemas[id].docType ::
      t.schemas[g].version != version
  }

  lemma TopUnique(t: Tables, docType: string, scope: Option<ScopeId>, a: SchemaId, b: SchemaId)
    requires UniqueVersions(t.schemas) && IsTop(t.schemas, docType, scope, a) && IsTop(t.schemas, docType, scope, b)
    ensures a == b
  {
  }

  ghost function Bumped(row: Row, fields: Fields): Row { row.(version := row.version + 1, fields := fields) }

  /** A new version of a row can be written exactly when it has fields and its number is free. */
  lemma BumpSucceedsIff(t: Tables, id: SchemaId, fields: Fields, e: Entry)
    requires Inv(t) && id in t.schemas && e.schemaId == id && e.version == t.schemas[id].version + 1
    ensures Write(t, id, Bumped(t.schemas[id], fields), e).Ok? <==>
            fields != map[] && VersionFree(t, id, t.schemas[id].version + 1)
  {
    var row := Bumped(t.schemas[id], fields);
    WriteNeverHitsHistory(t, id, row, e);
    BumpUniqueIff(t, id, row);
  }

  lemma TopStays(schemas: map<SchemaId, Row>, docType: string, scope: Option<ScopeId>, id: SchemaId, fields: Fields)
    requires IsTop(schemas, docType, scope, id)
    ensures IsTop(schemas[id := Bumped(schemas[id], fields)], docType, scope, id)
  {
  }

  /** Exactly when an update goes through: it has fields, and no other row of the type, deleted rows
      included, stands at the next version. */
  lemma UpdateSucceedsIff(t: Tables, docType: string, fields: Fields, id: SchemaId)
    requires Inv(t) && IsTop(t.schemas, docType, None, id)
    ensures var r := UpdateSchema(t, docType, fields);
            && (r.Ok? <==> fields != map[] && VersionFree(t, id, t.schemas[id].version + 1))
            && (r.Ok? ==> r.value.schemas == t.schemas[id := Bumped(t.schemas[id], fields)])
  {
    TopUnique(t, docType, None, id, Top(t.schemas, docType, None));
    var keys := SymmetricDifference(t.schemas[id].fields.Keys, fields.Keys);
    BumpSucceedsIff(t, id, fields, Entry(id, t.schemas[id].version + 1, fields, keys, None));
  }

  /** The conditions the code checks before it writes. */
  predicate Restorable(t: Tables, id: SchemaId, target: int)
    requires id in t.schemas
  {
    !t.schemas[id].deprecated && 1 <= target < t.schemas[id].version
  }

  /** Exactly when a rollback goes through, and what it does.  That the target has fields need not be
      asked: every version has. */
  lemma RollbackSucceedsIff(t: Tables, docType: string, target: int, scope: Option<ScopeId>, id: SchemaId)
    requires Inv(t) && IsTop(t.schemas, docType, scope, id)
    ensures var r := RollbackSchema(t, docType, target, scope);
            && (r.Ok? <==> Restorable(t, id, target) && VersionFree(t, id, t.schemas[id].version + 1))
            && (r.Ok? ==> var h := HistoryOf(t.versions, id);
                          |h| == t.schemas[id].version
                          && r.value.schemas == t.schemas[id := Bumped(t.schemas[id], h[target - 1].fields)])
  {
    TopUnique(t, docType, scope, id, Top(t.schemas, docType, scope));
    var row := t.schemas[id];
    if !row.deprecated && 1 <= target < row.version {
      RollbackEntries(t, id, target);
      RollbackToSucceedsIff(t, id, target, HistoryOf(t.versions, id)[target - 1].fields);
    }
  }

  lemma RollbackToSucceedsIff(t: Tables, id: SchemaId, target: nat, fields: Fields)
    requires Inv(t) && id in t.schemas && 1 <= target < t.schemas[id].version && fields != map[]
    ensures var r := RollbackTo(t, id, target, fields);
            && (r.Ok? <==> VersionFree(t, id, t.schemas[id].version + 1))
            && (r.Ok? ==> r.value.schemas == t.schemas[id := Bumped(t.schemas[id], fields)])
  {
    RollbackEntries(t, id, target);
    var keys := SymmetricDifference(t.schemas[id].fields.Keys, fields.Keys);
    BumpSucceedsIff(t, id, fields, Entry(id, t.schemas[id].version + 1, fields, keys, Some(target)));
  }

  lemma BumpUniqueIff(t: Tables, id: SchemaId, row: Row)
    requires UniqueVersions(t.schemas) && id in t.schemas && row.docType == t.schemas[id].docType
    ensures UniqueVersions(t.schemas[id := row]) <==> VersionFree(t, id, row.version)
  {
    var s := t.schemas[id := row];
    if UniqueVersions(s) {
      forall g | g in t.schemas && g != id && t.schemas[g].docType == t.schemas[id].docType
        ensures t.schemas[g].version != row.version
      {
        assert s[g].docType == s[id].docType;
      }
    }
  }

  /** Rolling back to an older version and then to the head that was current before restores that
      head's fields, two versions later; the second step can fail only on a version number already
      taken by another row of the type. */
  lemma RollbackTwiceRestores(t: Tables, docType: string, target: int, scope: Option<ScopeId>, id: SchemaId,
                              t1: Tables)
    requires Inv(t) && IsTop(t.schemas, docType, scope, id)
    requires RollbackSchema(t, docType, target, scope) == Ok(t1)
    ensures var n := t.schemas[id].version;
            var r := RollbackSchema(t1, docType, n, scope);
            && (r.Ok? <==> VersionFree(t, id, n + 2))
            && (r.Ok? ==> r.value.schemas == t.schemas[id := t.schemas[id].(version := n + 2)])
  {
    RollbackSucceedsIff(t, docType, target, scope, id);
    RollbackKeepsInv(t, docType, target, scope);
    assert RowAgrees(t, id);
    RollbackToFormerHead(t, docType, scope, id, t1, HistoryOf(t.versions, id)[target - 1].fields);
  }

  lemma RollbackToFormerHead(t: Tables, docType: string, scope: Option<ScopeId>, id: SchemaId, t1: Tables,
                             fields: Fields)
    requires RowAgrees(t, id) && IsTop(t.schemas, docType, scope, id) && !t.schemas[id].deprecated
    requires Inv(t1) && t.versions <= t1.versions && t1.schemas == t.schemas[id := Bumped(t.schemas[id], fields)]
    ensures var n := t.schemas[id].version;
            var r := RollbackSchema(t1, docType, n, scope);
            && (r.Ok? <==> VersionFree(t, id, n + 2))
            && (r.Ok? ==> r.value.schemas == t.schemas[id := t.schemas[id].(version := n + 2)])
  {
    var n := t.schemas[id].version;
    TopStays(t.schemas, docType, scope, id, fields);
    FormerHead(t, t1, id);
    VersionFreeUnmoved(t, t1, id, fields, n + 2);
    RollbackSucceedsIff(t1, docType, n, scope, id);
  }

  /** The fields of the former head are still in the history, at its version. */
  lemma FormerHead(t: Tables, t1: Tables, id: SchemaId)
    requires RowAgrees(t, id) && id in t.schemas && t.versions <= t1.versions
    ensures var n, h1 := t.schemas[id].version, HistoryOf(t1.versions, id);
            1 <= n <= |h1| && h1[n - 1].fields == t.schemas[id].fields
  {
    HistoryPrefix(t.versions, t1.versions, id);
  }

  lemma VersionFreeUnmoved(t: Tables, t1: Tables, id: SchemaId, fields: Fields, version: nat)
    requires id in t.schemas && t1.schemas == t.schemas[id := Bumped(t.schemas[id], fields)]
    ensures VersionFree(t1, id, version) == VersionFree(t, id, version)
  {
    if VersionFree(t1, id, version) {
      forall g | g in t.schemas && g != id && t.schemas[g].docType == t.schemas[id].docType
        ensures t.schemas[g].version != version
      {
        assert t1.schemas[g].version != version;
      }
    }
  }

  lemma HistoryPrefix(a: seq<Entry>, b: seq<Entry>, id: SchemaId)
    requires a <= b
    ensures HistoryOf(a, id) <= HistoryOf(b, id)
  {
    assert b == a + b[|a|..];
    HistoryConcat(a, b[|a|..], id);
  }

  /** Exactly when a type can be created: it has fields and no live row, and no deleted row still stands
      at version 1.  A type deleted at version 1 can therefore not be created again. */
  lemma CreateSucceedsIff(t: Tables, id: SchemaId, docType: string, fields: Fields, scope: Option<ScopeId>)
    requires Inv(t) && id !in t.schemas
    ensures Step(t, Create(id, docType, fields, scope)).Ok? <==>
            && fields != map[]
            && forall g | g in t.schemas && t.schemas[g].docType == docType ::
                 t.schemas[g].deleted && t.schemas[g].version != 1
  {
    var row, e := Row(docType, 1, fields, false, None, scope, false), Entry(id, 1, fields, {}, None);
    WriteNeverHitsHistory(t, id, row, e);
    var s := t.schemas[id := row];
    if g :| g in t.schemas && t.schemas[g].docType == docType && t.schemas[g].version == 1 {
      assert s[g].docType == s[id].docType;
    }
    if g :| g in t.schemas && t.schemas[g].docType == docType && !t.schemas[g].deleted {
      assert Candidate(t.schemas[g], docType, None);
    }
  }

  // ---------------------------------------------------------------------------------------------
  // One live row for each type
  // ---------------------------------------------------------------------------------------------

  ghost predicate OneLive(t: Tables, docType: string) {
    forall a, b | a in t.schemas && b in t.schemas
                  && Candidate(t.schemas[a], docType, None) && Candidate(t.schemas[b], docType, None) :: a == b
  }

  /** The type has at most one row, live or deleted. */
  ghost predicate OneRow(t: Tables, docType: string) {
    forall a, b | a in t.schemas && b in t.schemas
                  && t.schemas[a].docType == docType && t.schemas[b].docType == docType :: a == b
  }

  /** Restoring leaves one live row exactly when the type has no second row at all. */
  lemma RestoreOneLiveIff(t: Tables, docType: string)
    ensures OneLive(After(t, Restore(docType)), docType) <==> OneRow(t, docType)
  {
    var t' := After(t, Restore(docType));
    forall g | g in t.schemas
      ensures g in t'.schemas && (Candidate(t'.schemas[g], docType, None) <==> t.schemas[g].docType == docType)
    {
    }
  }

  /** Every other call keeps "one live row". */
  lemma OtherCallsKeepOneLive(t: Tables, op: Op, docType: string)
    requires OneLive(t, docType) && op != Restore(docType)
    ensures OneLive(After(t, op), docType)
  {
    match op
    case Create(id, d, fields, scope) =>
      if Step(t, op).Ok? && d == docType {
        forall g | g in t.schemas ensures !Candidate(t.schemas[g], docType, None) {
          assert !HasCandidate(t.schemas, docType, None);
        }
      }
    case _ =>
      var t' := After(t, op);
      forall g | g in t'.schemas && Candidate(t'.schemas[g], docType, None)
        ensures g in t.schemas && Candidate(t.schemas[g], docType, None)
      {
      }
  }

  /** All states of a run, the first included. */
  ghost predicate AlwaysOneLive(t: Tables, ops: seq<Op>, docType: string)
    decreases |ops|
  {
    OneLive(t, docType) && (ops == [] || AlwaysOneLive(After(t, ops[0]), ops[1..], docType))
  }

  /** Whenever the type is restored it has at most one row. */
  ghost predicate RestoredAlone(t: Tables, ops: seq<Op>, docType: string)
    decreases |ops|
  {
    ops == [] || ((ops[0] == Restore(docType) ==> OneRow(t, docType))
                  && RestoredAlone(After(t, ops[0]), ops[1..], docType))
  }

  /** A run keeps one live row of a type exactly when the type is never restored beside a second row. */
  lemma {:induction false} RunOneLiveIff(t: Tables, ops: seq<Op>, docType: string)
    requires OneLive(t, docType)
    ensures AlwaysOneLive(t, ops, docType) <==> RestoredAlone(t, ops, docType)
    decreases |ops|
  {
    if ops == [] {
    } else {
      var t' := After(t, ops[0]);
      if ops[0] == Restore(docType) {
        RestoreOneLiveIff(t, docType);
      } else {
        OtherCallsKeepOneLive(t, ops[0], docType);
      }
      if OneLive(t', docType) { RunOneLiveIff(t', ops[1..], docType); }
    }
  }

  // ---------------------------------------------------------------------------------------------
  // Runs in which deleted rows get in the way
  // ---------------------------------------------------------------------------------------------

  function RowAt(docType: string, version: nat, fields: Fields, deleted: bool): Row {
    Row(docType, version, fields, false, None, None, deleted)
  }

  lemma FirstCreation(docType: string, fields: Fields)
    requires fields != map[]
    ensures After(Empty(), Create(0, docType, fields, None)).schemas == map[0 := RowAt(docType, 1, fields, false)]
    ensures Inv(After(Empty(), Create(0, docType, fields, None)))
  {
    EmptyInv();
    CreateSucceedsIff(Empty(), 0, docType, fields, None);
    StepKeepsInv(Empty(), Create(0, docType, fields, None));
  }

  lemma Deletion(t: Tables, docType: string, fields: Fields, version: nat)
    requires Inv(t) && t.schemas == map[0 := RowAt(docType, version, fields, false)]
    ensures After(t, Delete(docType)).schemas == map[0 := RowAt(docType, version, fields, true)]
    ensures Inv(After(t, Delete(docType)))
  {
    StepKeepsInv(t, Delete(docType));
  }

  lemma FirstUpdate(t: Tables, docType: string, fields: Fields)
    requires Inv(t) && t.schemas == map[0 := RowAt(docType, 1, fields, false)] && fields != map[]
    ensures After(t, Update(docType, fields)).schemas == map[0 := RowAt(docType, 2, fields, false)]
    ensures Inv(After(t, Update(docType, fields)))
  {
    assert IsTop(t.schemas, docType, None, 0);
    assert HasCandidate(t.schemas, docType, None);
    UpdateSucceedsIff(t, docType, fields, 0);
    StepKeepsInv(t, Update(docType, fields));
  }

  /** Create, Delete, Create: the type is gone for good. */
  lemma DeletedTypeCannotReturn(docType: string, fields: Fields)
    requires fields != map[]
    ensures var t := Run(Empty(), [Create(0, docType, fields, None), Delete(docType)]);
            !HasCandidate(t.schemas, docType, None)
            && Step(t, Create(1, docType, fields, None)) == Err(UniqueViolation)
  {
    FirstCreation(docType, fields);
    var t1 := After(Empty(), Create(0, docType, fields, None));
    Deletion(t1, docType, fields, 1);
    var t2 := After(t1, Delete(docType));
    RunTwo(Empty(), Create(0, docType, fields, None), Delete(docType));
    var s := t2.schemas[1 := RowAt(docType, 1, fields, false)];
    assert s[0].docType == s[1].docType && s[0].version == s[1].version;
  }

  lemma RunTwo(t: Tables, a: Op, b: Op)
    ensures Run(t, [a, b]) == After(After(t, a), b)
  {
    assert [a, b][1..] == [b] && [b][1..] == [];
    assert Run(After(t, a), [b]) == Run(After(After(t, a), b), []);
  }

  /** Create, Update, Delete, Create. */
  function CreatedAnew(docType: string, fields: Fields): seq<Op> {
    [Create(0, docType, fields, None), Update(docType, fields)] + [Delete(docType), Create(1, docType, fields, None)]
  }

  lemma {:induction false} RunConcat(t: Tables, a: seq<Op>, b: seq<Op>)
    ensures Run(t, a + b) == Run(Run(t, a), b)
    decreases |a|
  {
    if a == [] {
      assert a + b == b;
    } else {
      RunConcat(After(t, a[0]), a[1..], b);
      assert (a + b)[1..] == a[1..] + b;
    }
  }

  lemma AfterCreatedAnew(docType: string, fields: Fields)
    requires fields != map[]
    ensures var t := Run(Empty(), CreatedAnew(docType, fields));
            && Inv(t)
            && t.schemas == map[0 := RowAt(docType, 2, fields, true), 1 := RowAt(docType, 1, fields, false)]
  {
    var c0, u := Create(0, docType, fields, None), Update(docType, fields);
    var d, c1 := Delete(docType), Create(1, docType, fields, None);
    FirstCreation(docType, fields);
    var t1 := After(Empty(), c0);
    FirstUpdate(t1, docType, fields);
    var t2 := After(t1, u);
    Deletion(t2, docType, fields, 2);
    var t3 := After(t2, d);
    CreateSucceedsIff(t3, 1, docType, fields, None);
    StepKeepsInv(t3, c1);
    RunTwo(Empty(), c0, u);
    RunTwo(t2, d, c1);
    RunConcat(Empty(), [c0, u], [d, c1]);
  }

  /** .. then Update: the deleted row still holds the next version number. */
  lemma DeletedRowBlocksUpdate(docType: string, fields: Fields)
    requires fields != map[]
    ensures Step(Run(Empty(), CreatedAnew(docType, fields)), Update(docType, fields)) == Err(UniqueViolation)
  {
    AfterCreatedAnew(docType, fields);
    var t := Run(Empty(), CreatedAnew(docType, fields));
    assert Candidate(t.schemas[1], docType, None);
    TopUnique(t, docType, None, 1, Top(t.schemas, docType, None));
    var s := t.schemas[1 := Bumped(t.schemas[1], fields)];
    assert s[0].docType == s[1].docType && s[0].version == s[1].version;
  }

  /** .. then Restore: two live rows of one type. */
  lemma RestoreRevivesSecondRow(docType: string, fields: Fields)
    requires fields != map[]
    ensures !OneLive(After(Run(Empty(), CreatedAnew(docType, fields)), Restore(docType)), docType)
  {
    AfterCreatedAnew(docType, fields);
    var t := Run(Empty(), CreatedAnew(docType, fields));
    assert t.schemas[0].docType == docType == t.schemas[1].docType;
    RestoreOneLiveIff(t, docType);
  }

  // ---------------------------------------------------------------------------------------------
  // The repository
  // ---------------------------------------------------------------------------------------------

  ghost predicate Did(before: Tables, after: Tables, op: Op, error: Option<Error>) {
    match Step(before, op)
    case Ok(t) => after == t && error == None
    case Err(e) => after == before && error == Some(e)
  }

  class ExtractionSchemaRepository {
    var schemas: map<SchemaId, Row>
    var versions: seq<Entry>

    ghost function State(): Tables
      reads this
    {
      Tables(schemas, versions)
    }

    constructor ()
      ensures State() == Tables(map[], []) && Inv(State())
    {
      schemas, versions := map[], [];
      new;
      EmptyInv();
    }

    method FindTop(docType: string, scope: Option<ScopeId>) returns (id: Option<SchemaId>)
      requires UniqueVersions(schemas)
      ensures id.Some? <==> HasCandidate(schemas, docType, scope)
      ensures id.Some? ==> id.value == Top(schemas, docType, scope)
    {
      if !(exists g | g in schemas :: Candidate(schemas[g], docType, scope)) { return None; }
      assert IsTop(schemas, docType, scope, Top(schemas, docType, scope));
      var found :| found in schemas && IsTop(schemas, docType, scope, found);
      TopUnique(State(), docType, scope, found, Top(schemas, docType, scope));
      id := Some(found);
    }

    /** The two statements that create a version, and the conversion of the new row. */
    method WriteVersion(id: SchemaId, row: Row, e: Entry) returns (error: Option<Error>)
      modifies this
      ensures match Write(old(State()), id, row, e)
              case Ok(t) => State() == t && error == None
              case Err(x) => State() == old(State()) && error == Some(x)
    {
      var rows := schemas[id := row];
      if !UniqueVersions(rows) { return Some(UniqueViolation); }
      if Fetch(versions, e.schemaId, e.version).Some? { return Some(HistoryViolation); }
      if row.fields == map[] { return Some(Refused); }
      schemas := rows;
      versions := versions + [e];
      error := None;
    }

    method Create(id: SchemaId, docType: string, fields: Fields, scope: Option<ScopeId>) returns (error: Option<Error>)
      requires Inv(State())
      modifies this
      ensures Did(old(State()), State(), Op.Create(id, docType, fields, scope), error)
    {
      if exists g | g in schemas :: Candidate(schemas[g], docType, None) { return Some(AlreadyExists); }
      if id in schemas { return Some(UniqueViolation); }
      error := WriteVersion(id, Row(docType, 1, fields, false, None, scope, false), Entry(id, 1, fields, {}, None));
    }

    method Update(docType: string, fields: Fields) returns (error: Option<Error>)
      requires Inv(State())
      modifies this
      ensures Did(old(State()), State(), Op.Update(docType, fields), error)
    {
      var found := FindTop(docType, None);
      if found.None? { return Some(NotFound); }
      var id, row := found.value, schemas[found.value];
      var changed := SymmetricDifference(row.fields.Keys, fields.Keys);
      error := WriteVersion(id, row.(version := row.version + 1, fields := fields),
                            Entry(id, row.version + 1, fields, changed, None));
    }

    method RollbackToVersion(docType: string, target: int, scope: Option<ScopeId>) returns (error: Option<Error>)
      requires Inv(State())
      modifies this
      ensures Did(old(State()), State(), Op.Rollback(docType, target, scope), error)
    {
      var found := FindTop(docType, scope);
      if found.None? { return Some(NotFound); }
      var id, row := found.value, schemas[found.value];
      if row.deprecated { return Some(Refused); }
      if target < 1 || target >= row.version { return Some(Refused); }
      var entry := Fetch(versions, id, target);
      if entry.None? { return Some(NotFound); }
      var fields := entry.value.fields;
      if fields == map[] { return Some(Refused); }
      var prev := Fetch(versions, id, row.version);
      var prevKeys := if prev.Some? then prev.value.fields.Keys else {};
      var changed := SymmetricDifference(prevKeys, fields.Keys);
      error := WriteVersion(id, row.(version := row.version + 1, fields := fields),
                            Entry(id, row.version + 1, fields, changed, Some(target)));
    }

    method Delete(docType: string) returns (any: bool)
      modifies this
      ensures Step(old(State()), Op.Delete(docType)) == Ok(State())
      ensures any <==> HasCandidate(old(schemas), docType, None)
    {
      any := exists g | g in schemas :: Candidate(schemas[g], docType, None);
      schemas := MarkAll(schemas, docType, false, SetDeleted(true));
    }

    method Restore(docType: string) returns (any: bool)
      modifies this
      ensures Step(old(State()), Op.Restore(docType)) == Ok(State())
      ensures any <==> exists g | g in old(schemas) :: old(schemas)[g].docType == docType && old(schemas)[g].deleted
    {
      any := exists g | g in schemas :: schemas[g].docType == docType && schemas[g].deleted;
      schemas := MarkAll(schemas, docType, true, SetDeleted(false));
    }

    method Deprecate(docType: string, reason: string) returns (error: Option<Error>)
      modifies this
      ensures Did(old(State()), State(), Op.Deprecate(docType, reason), error)
    {
      if !(exists g | g in schemas :: Candidate(schemas[g], docType, None)) { return Some(NotFound); }
      if !ValidReason(reason) { return Some(Refused); }
      schemas := MarkAll(schemas, docType, false, SetDeprecated(reason));
      error := None;
    }

    /** A version of the type's current schema: entry v of its history, and nothing outside 1..current. */
    method GetVersion(docType: string, version: int, scope: Option<ScopeId>) returns (r: Option<Entry>)
      requires Inv(State())
      ensures !HasCandidate(schemas, docType, scope) ==> r == None
      ensures HasCandidate(schemas, docType, scope) ==>
                var id := Top(schemas, docType, scope);
                var h := HistoryOf(versions, id);
                && |h| == schemas[id].version
                && r == if 1 <= version <= |h| then Some(h[version - 1]) else None
    {
      var found := FindTop(docType, scope);
      if found.None? { return None; }
      r := Fetch(versions, found.value, version);
      assert RowAgrees(State(), found.value);
      if version >= 1 {
        FetchVersion(State(), found.value, version);
      } else {
        NoVersionBelowOne(versions, found.value, version);
      }
    }
  }

  lemma {:induction false} NoVersionBelowOne(versions: seq<Entry>, id: SchemaId, version: int)
    requires version < 1 && Numbered(HistoryOf(versions, id))
    ensures Fetch(versions, id, version) == None
  {
    BelowOne(versions, id, version, []);
    assert [] + HistoryOf(versions, id) == HistoryOf(versions, id);
  }

  lemma {:induction false} BelowOne(versions: seq<Entry>, id: SchemaId, version: int, done: seq<Entry>)
    requires version < 1 && Numbered(done + HistoryOf(versions, id))
    ensures Fetch(versions, id, version) == None
    decreases |versions|
  {
    if versions == [] {
    } else {
      var first, rest := versions[0], versions[1..];
      assert versions == [first] + rest;
      HistoryConcat([first], rest, id);
      assert [first][..0] == [];
      var h := done + HistoryOf(versions, id);
      if first.schemaId == id {
        assert HistoryOf([first], id) == [first];
        assert h == (done + [first]) + HistoryOf(rest, id);
        assert h[|done|] == first;
        BelowOne(rest, id, version, done + [first]);
      } else {
        assert HistoryOf([first], id) == [];
        assert h == done + HistoryOf(rest, id);
        BelowOne(rest, id, version, done);
      }
    }
  }
}
