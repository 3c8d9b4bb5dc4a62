/**
 What each call on extraction schemas does to the two tables, written out column by column, and which
 error it reports when it does nothing.
 */
module SchemaEffects {
  import opened Wrappers
  import opened SchemaHistory

  predicate LiveOf(r: Row, docType: string) { r.docType == docType && !r.deleted }

  predicate DeletedOf(r: Row, docType: string) { r.docType == docType && r.deleted }

  /** Of the type's live rows in the scope, if one is given, id has the highest version. */
  predicate Newest(t: Tables, docType: string, scope: Option<ScopeId>, id: SchemaId) {
    && InReach(t, docType, scope, id)
    && forall g | g in t.schemas && InReach(t, docType, scope, g) :: t.schemas[g].version <= t.schemas[id].version
  }

  predicate InReach(t: Tables, docType: string, scope: Option<ScopeId>, id: SchemaId) {
    id in t.schemas && LiveOf(t.schemas[id], docType) && (scope == None || t.schemas[id].scope == scope)
  }

  lemma NewestIsTop(t: Tables, docType: string, scope: Option<ScopeId>, id: SchemaId)
    ensures Newest(t, docType, scope, id) <==> IsTop(t.schemas, docType, scope, id)
  {
    forall g | g in t.schemas
      ensures InReach(t, docType, scope, g) <==> Candidate(t.schemas[g], docType, scope)
    {
    }
  }

  /** Creation adds the row and its first entry. */
  lemma CreateEffect(t: Tables, id: SchemaId, docType: string, fields: Fields, scope: Option<ScopeId>)
    requires Step(t, Create(id, docType, fields, scope)).Ok?
    ensures id !in t.schemas
    ensures Step(t, Create(id, docType, fields, scope)).value
         == Tables(t.schemas[id := Row(docType, 1, fields, false, None, scope, false)],
                   t.versions + [Entry(id, 1, fields, {}, None)])
  {
  }

  /** An update gives the live row with the highest version the new fields and the next version, and
      appends one entry that names the keys in which old and new fields differ. */
  lemma UpdateEffect(t: Tables, docType: string, fields: Fields, id: SchemaId)
    requires Inv(t) && Newest(t, docType, None, id) && Step(t, Update(docType, fields)).Ok?
    ensures var row, t' := t.schemas[id], Step(t, Update(docType, fields)).value;
            var changed := set k | k in row.fields.Keys + fields.Keys && (k in row.fields <==> k !in fields);
            && t'.schemas == t.schemas[id := Row(docType, row.version + 1, fields, row.deprecated, row.reason,
                                                 row.scope, false)]
            && t'.versions == t.versions + [Entry(id, row.version + 1, fields, changed, None)]
  {
    NewestIsTop(t, docType, None, id);
    TopUnique(t, docType, None, id, Top(t.schemas, docType, None));
    KeysThatDiffer(t.schemas[id].fields.Keys, fields.Keys);
  }

  lemma KeysThatDiffer(a: set<string>, b: set<string>)
    ensures SymmetricDifference(a, b) == set k | k in a + b && (k in a <==> k !in b)
  {
  }

  /** A rollback does the same with the fields of the target version, and marks the entry with it. */
  lemma RollbackEffect(t: Tables, docType: string, target: int, scope: Option<ScopeId>, id: SchemaId)
    requires Inv(t) && Newest(t, docType, scope, id) && Step(t, Rollback(docType, target, scope)).Ok?
    ensures var row, t' := t.schemas[id], Step(t, Rollback(docType, target, scope)).value;
            var h := HistoryOf(t.versions, id);
            && 1 <= target < |h| == row.version
            && var fields := h[target - 1].fields;
               var changed := set k | k in row.fields.Keys + fields.Keys && (k in row.fields <==> k !in fields);
               && t'.schemas == t.schemas[id := Row(docType, row.version + 1, fields, row.deprecated, row.reason,
                                                    row.scope, false)]
               && t'.versions == t.versions + [Entry(id, row.version + 1, fields, changed, Some(target))]
  {
    NewestIsTop(t, docType, scope, id);
    TopUnique(t, docType, scope, id, Top(t.schemas, docType, scope));
    RollbackEntries(t, id, target);
    KeysThatDiffer(t.schemas[id].fields.Keys, HistoryOf(t.versions, id)[target - 1].fields.Keys);
  }

  /** Deletion, restoration and deprecation touch one flag of the type's live (or deleted) rows. */
  lemma MarkEffects(t: Tables, docType: string, reason: string)
    ensures var d, r := Step(t, Delete(docType)), Step(t, Restore(docType));
            && d.Ok? && d.value.versions == t.versions && d.value.schemas.Keys == t.schemas.Keys
            && r.Ok? && r.value.versions == t.versions && r.value.schemas.Keys == t.schemas.Keys
            && forall g | g in t.schemas ::
                 && d.value.schemas[g] == (if LiveOf(t.schemas[g], docType) then t.schemas[g].(deleted := true)
                                           else t.schemas[g])
                 && r.value.schemas[g] == (if DeletedOf(t.schemas[g], docType) then t.schemas[g].(deleted := false)
                                           else t.schemas[g])
    ensures var p := Step(t, Deprecate(docType, reason));
            p.Ok? ==>
              && p.value.versions == t.versions && p.value.schemas.Keys == t.schemas.Keys
              && forall g | g in t.schemas ::
                   p.value.schemas[g] == if LiveOf(t.schemas[g], docType)
                                         then t.schemas[g].(deprecated := true, reason := Some(reason))
                                         else t.schemas[g]
  {
  }

  /** Which errors are reported. */
  lemma Errors(t: Tables, docType: string, fields: Fields, id: SchemaId, scope: Option<ScopeId>, reason: string)
    requires Inv(t)
    ensures var live := exists g | g in t.schemas :: LiveOf(t.schemas[g], docType);
            var create, update := Step(t, Create(id, docType, fields, scope)), Step(t, Update(docType, fields));
            var deprecate := Step(t, Deprecate(docType, reason));
            && (create == Err(AlreadyExists) <==> live)
            && (update == Err(NotFound) <==> !live)
            && (deprecate == Err(NotFound) <==> !live)
            && (deprecate == Err(Refused) <==> live && (reason == "" || |reason| > 1024))
            && (deprecate.Ok? <==> live && 1 <= |reason| <= 1024)
            && (create == Err(Refused) || update == Err(Refused) ==> fields == map[])
  {
    var live := exists g | g in t.schemas :: LiveOf(t.schemas[g], docType);
    assert live <==> HasCandidate(t.schemas, docType, None) by {
      if live {
        var g :| g in t.schemas && LiveOf(t.schemas[g], docType);
        assert Candidate(t.schemas[g], docType, None);
      }
      if HasCandidate(t.schemas, docType, None) {
        var g :| g in t.schemas && Candidate(t.schemas[g], docType, None);
        assert LiveOf(t.schemas[g], docType);
      }
    }
  }

  lemma RollbackErrors(t: Tables, docType: string, target: int, scope: Option<ScopeId>)
    requires Inv(t)
    ensures var r := Step(t, Rollback(docType, target, scope));
            && (r == Err(NotFound) <==> forall g | g in t.schemas :: !InReach(t, docType, scope, g))
            && forall id | Newest(t, docType, scope, id) ::
                 (r == Err(Refused) <==> t.schemas[id].deprecated || target < 1 || target >= t.schemas[id].version)
  {
    FoundIff(t, docType, scope);
    if HasCandidate(t.schemas, docType, scope) {
      var id := Top(t.schemas, docType, scope);
      RollbackRefusedIff(t, docType, target, scope, id);
      forall g | Newest(t, docType, scope, g) ensures g == id {
        NewestIsTop(t, docType, scope, g);
        TopUnique(t, docType, scope, g, id);
      }
    }
  }

  lemma FoundIff(t: Tables, docType: string, scope: Option<ScopeId>)
    ensures HasCandidate(t.schemas, docType, scope) <==> exists g | g in t.schemas :: InReach(t, docType, scope, g)
  {
    if HasCandidate(t.schemas, docType, scope) {
      var g :| g in t.schemas && Candidate(t.schemas[g], docType, scope);
      assert InReach(t, docType, scope, g);
    }
    if g :| g in t.schemas && InReach(t, docType, scope, g) {
      assert Candidate(t.schemas[g], docType, scope);
    }
  }

  lemma RollbackRefusedIff(t: Tables, docType: string, target: int, scope: Option<ScopeId>, id: SchemaId)
    requires Inv(t) && HasCandidate(t.schemas, docType, scope) && id == Top(t.schemas, docType, scope)
    ensures var r := Step(t, Rollback(docType, target, scope));
            && (r == Err(Refused) <==> t.schemas[id].deprecated || target < 1 || target >= t.schemas[id].version)
            && r != Err(NotFound)
  {
    var row := t.schemas[id];
    if !row.deprecated && 1 <= target < row.version { RollbackEntries(t, id, target); }
  }
}
