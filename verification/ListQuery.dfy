/**
 The compiler from a structured document query to SQL clauses with positional parameters.

 Clauses are kept as an abstract syntax; evaluating them consumes the parameter list from the left,
 as the driver does with `%s`.  The main result: the generated clauses consume exactly the generated
 parameters and select exactly the documents that the query asks for.
 */
module ListQuery {
  import opened Wrappers
  import opened FolderForest
  import opened FolderFilter
  import opened Paging
  import Like
  import Sequences
  import Text

  type CollectionId = nat

  /** Filter values as the request parser delivers them, and the numbers of LIMIT and OFFSET. */
  datatype Value = Str(s: string) | Flag(b: bool) | Id(id: nat) | Num(n: int)

  /** A document row: an absent column is NULL; `rank` places each sortable column in its order. */
  datatype Document = Document(id: DocId, title: string, columns: map<string, Value>, rank: map<string, int>)

  datatype Database = Database(
    documents: set<Document>,
    tags: set<(DocId, string)>,
    collections: set<(DocId, CollectionId)>,
    folders: Table,
    placements: Placements)

  datatype SortOrder = SortOrder(field: string, ascending: bool)

  datatype Query = Query(filters: seq<(string, Value)>, sortOrders: seq<SortOrder>,
                         page: Option<int>, pageSize: Option<int>)

  /** What the surroundings supply: the case folding of ILIKE and the tag normalisation. */
  datatype Env = Env(fold: char -> char, normalizeTag: string -> Option<string>)

  const SPECIAL_KEYS := {"collection", "folder", "include_subfolders", "q", "tag"}
  const FILTER_COLUMNS := map["status" := "status", "document_type" := "document_type",
                              "owner_id" := "created_by", "scope_profile_id" := "scope_profile_id"]
  const SORT_COLUMNS := {"created_at", "updated_at", "title", "status"}

  /** `query.filters.get(key)` */
  function Get(filters: seq<(string, Value)>, key: string): (r: Option<Value>)
    ensures r.Some? ==> (key, r.value) in filters
    ensures r.None? ==> forall v :: (key, v) !in filters
  {
    if filters == [] then None
    else if filters[0].0 == key then Some(filters[0].1)
    else Get(filters[1..], key)
  }

  function Truthy(v: Option<Value>): bool {
    match v
    case None => false
    case Some(Str(s)) => s != ""
    case Some(Flag(b)) => b
    case Some(Id(_)) => true
    case Some(Num(n)) => n != 0
  }

  function Lower(s: string): string {
    seq(|s|, i requires 0 <= i < |s| => if 'A' <= s[i] <= 'Z' then s[i] - 'A' + 'a' else s[i])
  }

  /** `str(raw).lower() in {"1", "true", "yes"}` */
  function Affirmative(v: Option<Value>): bool {
    match v
    case Some(Str(s)) => Lower(s) in {"1", "true", "yes"}
    case Some(Flag(b)) => b
    case Some(Num(n)) => n == 1
    case _ => false
  }

  // ---------------------------------------------------------------------------------------------
  // Clauses
  // ---------------------------------------------------------------------------------------------

  datatype Clause =
    | ColumnEquals(column: string)     // <column> = %s
    | TitleLike                        // title ILIKE %s ESCAPE '\'
    | HasTag                           // id IN (.. document_tags .. name_normalized = %s)
    | InCollection                     // id IN (.. collection_documents .. collection_id = %s)
    | InFolder                         // id IN (.. document_folder .. folder_id = %s)
    | InSubtree                        // id IN (.. folders .. path LIKE (SELECT path || '%' .. id = %s))
    | Never                            // 1 = 0
    | ScopeIn(n: nat)                  // scope_profile_id IN (%s, .., %s)

  function Arity(c: Clause): nat {
    match c case Never => 0 case ScopeIn(n) => n case _ => 1
  }

  predicate Holds(c: Clause, args: seq<Value>, env: Env, db: Database, d: Document)
    requires |args| == Arity(c)
  {
    match c
    case ColumnEquals(column) => column in d.columns && d.columns[column] == args[0]
    case TitleLike => args[0].Str? && Like.Matches(env.fold, args[0].s, d.title)
    case HasTag => args[0].Str? && (d.id, args[0].s) in db.tags
    case InCollection => args[0].Id? && (d.id, args[0].id) in db.collections
    case InFolder => args[0].Id? && d.id in db.placements && db.placements[d.id] == args[0].id
    case InSubtree => args[0].Id? && d.id in SubtreeDocs(db.folders, db.placements, args[0].id)
    case Never => false
    case ScopeIn(_) => "scope_profile_id" in d.columns && d.columns["scope_profile_id"] in args
  }

  /** `WHERE c1 AND c2 AND ..` on one row, taking arguments from the left; None if they do not come out even. */
  function Where(cs: seq<Clause>, params: seq<Value>, env: Env, db: Database, d: Document): Option<bool> {
    if cs == [] then
      if params == [] then Some(true) else None
    else if |params| < Arity(cs[0]) then None
    else
      match Where(cs[1..], params[Arity(cs[0])..], env, db, d)
      case None => None
      case Some(b) => Some(Holds(cs[0], params[..Arity(cs[0])], env, db, d) && b)
  }

  // ---------------------------------------------------------------------------------------------
  // The compiler
  // ---------------------------------------------------------------------------------------------

  /** The escaped pattern of the title search, if there is anything to search for. */
  function TitlePattern(q: Option<Value>): Option<string> {
    match q
    case Some(Str(s)) => if Text.Strip(s) == "" then None else Some("%" + Like.Escape(Text.Strip(s)) + "%")
    case _ => None
  }

  function TagFilter(env: Env, tag: Option<Value>): Option<string> {
    match tag case Some(Str(s)) => env.normalizeTag(s) case _ => None
  }

  /** Clauses and parameters gathered so far; `atoms` says which parameter belongs to which clause. */
  class WhereBuilder {
    var clauses: seq<Clause>
    var params: seq<Value>
    ghost var atoms: seq<Atom>

    ghost predicate Valid()
      reads this
    {
      clauses == Clauses(atoms) && params == Params(atoms)
    }

    constructor ()
      ensures Valid() && atoms == []
    {
      clauses, params, atoms := [], [], [];
    }

    method Add(clause: Clause, args: seq<Value>)
      requires Valid()
      modifies this
      ensures Valid() && atoms == old(atoms) + [Atom(clause, args)]
    {
      AtomsSnoc(atoms, Atom(clause, args));
      clauses := clauses + [clause];
      params := params + args;
      atoms := atoms + [Atom(clause, args)];
    }

    method AddColumns(filters: seq<(string, Value)>)
      requires Valid()
      modifies this
      ensures Valid() && atoms == old(atoms) + ColumnAtoms(filters)
    {
      var i := 0;
      while i < |filters|
        invariant 0 <= i <= |filters|
        invariant Valid() && atoms == old(atoms) + ColumnAtoms(filters[..i])
      {
        var (name, value) := filters[i];
        assert filters[..i + 1][..i] == filters[..i];
        if name !in SPECIAL_KEYS && name in FILTER_COLUMNS {
          Add(ColumnEquals(FILTER_COLUMNS[name]), [value]);
        }
        i := i + 1;
      }
      assert filters[..|filters|] == filters;
    }

    method AddTitle(pattern: Option<string>)
      requires Valid()
      modifies this
      ensures Valid() && atoms == old(atoms) + TitleAtoms(pattern)
    {
      if pattern.Some? { Add(TitleLike, [Str(pattern.value)]); }
    }

    method AddTag(tag: Option<string>)
      requires Valid()
      modifies this
      ensures Valid() && atoms == old(atoms) + TagAtoms(tag)
    {
      if tag.Some? && tag.value != "" { Add(HasTag, [Str(tag.value)]); }
    }

    method AddPlace(place: Option<Value>, clause: Clause)
      requires Valid()
      modifies this
      ensures Valid() && atoms == old(atoms) + PlaceAtoms(place, clause)
    {
      if Truthy(place) { Add(clause, [place.value]); }
    }

    method AddAll(fs: seq<(string, Value)>, title: Option<string>, tag: Option<string>, collection: Option<Value>,
                  folder: Option<Value>, folderClause: Clause, viewer: Option<seq<Value>>)
      requires Valid() && atoms == []
      modifies this
      ensures Valid() && atoms == AllAtoms(fs, title, tag, collection, folder, folderClause, viewer)
    {
      AddColumns(fs);
      assert atoms == ColumnAtoms(fs);
      AddTitle(title);
      AddTag(tag);
      AddPlace(collection, InCollection);
      AddPlace(folder, folderClause);
      AddScope(viewer);
    }

    method AddScope(viewer: Option<seq<Value>>)
      requires Valid()
      modifies this
      ensures Valid() && atoms == old(atoms) + ScopeAtoms(viewer)
    {
      if viewer.Some? {
        var ids := viewer.value;
        if ids == [] {
          Add(Never, []);
        } else {
          Add(ScopeIn(|ids|), ids);
        }
      }
    }
  }

  /** Columns in the order given, then title, tag, collection, folder and viewer scope. */
  ghost function AllAtoms(fs: seq<(string, Value)>, title: Option<string>, tag: Option<string>,
                          collection: Option<Value>, folder: Option<Value>, folderClause: Clause,
                          viewer: Option<seq<Value>>): seq<Atom>
  {
    ColumnAtoms(fs) + TitleAtoms(title) + TagAtoms(tag) + PlaceAtoms(collection, InCollection)
    + PlaceAtoms(folder, folderClause) + ScopeAtoms(viewer)
  }

  method BuildWhere(query: Query, viewer: Option<seq<Value>>, env: Env)
    returns (clauses: seq<Clause>, params: seq<Value>)
    ensures forall db: Database, d: Document ::
              Where(clauses, params, env, db, d) == Some(Selects(query, viewer, env, db, d))
    ensures forall db: Database, d: Document | Forest(db.folders) && FolderFilterFits(query, db) ::
              Where(clauses, params, env, db, d) == Some(Asks(query, viewer, env, db, d))
  {
    var fs := query.filters;
    var collection, folder := Get(fs, "collection"), Get(fs, "folder");
    var includeSubfolders := Affirmative(Get(fs, "include_subfolders"));
    var title := TitlePattern(Get(fs, "q"));
    var tag := TagFilter(env, Get(fs, "tag"));

    var w := new WhereBuilder();
    w.AddAll(fs, title, tag, collection, folder, if includeSubfolders then InSubtree else InFolder, viewer);
    CompiledWhereIsRight(query, viewer, env);
    clauses, params := w.clauses, w.params;
  }

  /** ORDER BY: known sort fields in the order given, newest first when none is left. */
  method BuildOrder(sortOrders: seq<SortOrder>) returns (order: seq<SortOrder>)
    ensures order == OrderOf(sortOrders)
    ensures (forall o | o in sortOrders :: !Sortable(o)) ==> order == [SortOrder("created_at", false)]
    ensures (exists o | o in sortOrders :: Sortable(o)) ==>
              exists at: seq<nat> :: IsSelection(sortOrders, order, at)
  {
    order := [];
    var i := 0;
    while i < |sortOrders|
      invariant 0 <= i <= |sortOrders|
      invariant order == KnownOrders(sortOrders[..i])
    {
      assert sortOrders[..i + 1][..i] == sortOrders[..i];
      if sortOrders[i].field in SORT_COLUMNS { order := order + [sortOrders[i]]; }
      i := i + 1;
    }
    assert sortOrders[..|sortOrders|] == sortOrders;
    var _ := KnownIsSelection(sortOrders);
    if order == [] { order := [SortOrder("created_at", false)]; }
  }

  /** The four columns a list can be sorted by. */
  predicate Sortable(o: SortOrder) {
    o.field == "created_at" || o.field == "updated_at" || o.field == "title" || o.field == "status"
  }

  /** `picked` are the sortable entries of `os`, in their order, directions included: `at` says where
      each comes from. */
  ghost predicate IsSelection(os: seq<SortOrder>, picked: seq<SortOrder>, at: seq<nat>) {
    && |at| == |picked|
    && (forall k | 0 <= k < |at| :: at[k] < |os| && picked[k] == os[at[k]] && Sortable(os[at[k]]))
    && (forall j, k | 0 <= j < k < |at| :: at[j] < at[k])
    && (forall i | 0 <= i < |os| && Sortable(os[i]) :: i in at)
  }

  lemma {:induction false} KnownIsSelection(os: seq<SortOrder>) returns (at: seq<nat>)
    ensures IsSelection(os, KnownOrders(os), at)
    ensures KnownOrders(os) == [] <==> forall o | o in os :: !Sortable(o)
  {
    if os == [] {
      at := [];
    } else {
      var n := |os| - 1;
      var before := KnownIsSelection(os[..n]);
      KnownLast(os);
      at := SelectionLast(os, KnownOrders(os[..n]), before, Sortable(os[n]));
    }
    SelectionEmptyIff(os, KnownOrders(os), at);
  }

  lemma SelectionLast(os: seq<SortOrder>, picked: seq<SortOrder>, before: seq<nat>, take: bool) returns (at: seq<nat>)
    requires os != [] && IsSelection(os[..|os| - 1], picked, before) && take == Sortable(os[|os| - 1])
    ensures IsSelection(os, picked + if take then [os[|os| - 1]] else [], at)
  {
    var n := |os| - 1;
    assert os == os[..n] + [os[n]];
    at := before + if take then [n] else [];
    SelectionSnoc(os[..n], picked, before, os[n]);
    if !take {
      assert picked + [] == picked && before + [] == before;
    }
  }

  lemma SortableIff(o: SortOrder)
    ensures o.field in SORT_COLUMNS <==> Sortable(o)
  {
  }

  lemma KnownLast(os: seq<SortOrder>)
    requires os != []
    ensures var n := |os| - 1; KnownOrders(os) == KnownOrders(os[..n]) + if Sortable(os[n]) then [os[n]] else []
  {
    SortableIff(os[|os| - 1]);
  }

  lemma SelectionEmptyIff(os: seq<SortOrder>, picked: seq<SortOrder>, at: seq<nat>)
    requires IsSelection(os, picked, at)
    ensures picked == [] <==> forall o | o in os :: !Sortable(o)
  {
    if picked != [] { assert os[at[0]] in os; }
  }

  lemma SelectionSnoc(os: seq<SortOrder>, picked: seq<SortOrder>, at: seq<nat>, o: SortOrder)
    requires IsSelection(os, picked, at)
    ensures Sortable(o) ==> IsSelection(os + [o], picked + [o], at + [|os|])
    ensures !Sortable(o) ==> IsSelection(os + [o], picked, at)
  {
    if Sortable(o) {
      forall i | 0 <= i < |os| + 1 && Sortable((os + [o])[i]) ensures i in at + [|os|] {
        if i < |os| { assert (os + [o])[i] == os[i]; }
      }
    }
  }

  function KnownOrders(os: seq<SortOrder>): seq<SortOrder> {
    if os == [] then []
    else KnownOrders(os[..|os| - 1]) + (if os[|os| - 1].field in SORT_COLUMNS then [os[|os| - 1]] else [])
  }

  function OrderOf(os: seq<SortOrder>): seq<SortOrder> {
    if KnownOrders(os) == [] then [SortOrder("created_at", false)] else KnownOrders(os)
  }

  /** `(page, page_size, offset)` for a query. */
  function PageOf(query: Query): (r: (int, int, int))
    ensures r.0 >= 1 && 1 <= r.1 <= 200 && r.2 == (r.0 - 1) * r.1
    ensures r.0 == if query.page.Some? && query.page.value >= 1 then query.page.value else 1
    ensures query.pageSize.Some? && 1 <= query.pageSize.value <= 200 ==> r.1 == query.pageSize.value
    ensures query.pageSize.Some? && query.pageSize.value > 200 ==> r.1 == 200
    ensures query.pageSize.None? || query.pageSize.value < 1 ==> r.1 == 20
  {
    var page := if query.page.Some? && query.page.value >= 1 then query.page.value else 1;
    var size := if query.pageSize.Some? && query.pageSize.value >= 1 then query.pageSize.value else 20;
    PaginatePage(Some(page), Some(size))
  }

  /** The whole statement pair: the data query carries two more parameters than the count query. */
  method BuildListQuery(query: Query, viewer: Option<seq<Value>>, env: Env)
    returns (clauses: seq<Clause>, order: seq<SortOrder>, dataParams: seq<Value>, countParams: seq<Value>)
    ensures forall db: Database, d: Document ::
              Where(clauses, countParams, env, db, d) == Some(Selects(query, viewer, env, db, d))
    ensures forall db: Database, d: Document | Forest(db.folders) && FolderFilterFits(query, db) ::
              Where(clauses, countParams, env, db, d) == Some(Asks(query, viewer, env, db, d))
    ensures order == OrderOf(query.sortOrders)
    ensures (forall o | o in query.sortOrders :: !Sortable(o)) ==> order == [SortOrder("created_at", false)]
    ensures (exists o | o in query.sortOrders :: Sortable(o)) ==>
              exists at: seq<nat> :: IsSelection(query.sortOrders, order, at)
    ensures dataParams == countParams + [Num(PageOf(query).1), Num(PageOf(query).2)]
  {
    var params;
    clauses, params := BuildWhere(query, viewer, env);
    order := BuildOrder(query.sortOrders);
    var (_, size, offset) := PageOf(query);
    dataParams := params + [Num(size), Num(offset)];
    countParams := params;
  }

  // ---------------------------------------------------------------------------------------------
  // What the query asks for
  // ---------------------------------------------------------------------------------------------

  /** The direct reading of filters and viewer scope, independent of any clause: a folder with its
      subfolders means what lies below it in the forest. */
  ghost predicate Asks(query: Query, viewer: Option<seq<Value>>, env: Env, db: Database, d: Document)
    requires Forest(db.folders)
  {
    var fs := query.filters;
    && AsksApart(query, viewer, env, db, d)
    && FolderMeant(Get(fs, "folder"), SubfoldersWanted(Get(fs, "include_subfolders")), db, d)
  }

  /** The same on any table, with paths in place of the forest. */
  ghost predicate Selects(query: Query, viewer: Option<seq<Value>>, env: Env, db: Database, d: Document) {
    var fs := query.filters;
    && AsksApart(query, viewer, env, db, d)
    && FolderAgrees(Get(fs, "folder"), SubfoldersWanted(Get(fs, "include_subfolders")), db, d)
  }

  /** Everything but the folder. */
  ghost predicate AsksApart(query: Query, viewer: Option<seq<Value>>, env: Env, db: Database, d: Document) {
    var fs := query.filters;
    && ColumnsAgree(fs, d)
    && TitleContains(env, Get(fs, "q"), d)
    && TagAgrees(env, Get(fs, "tag"), db, d)
    && CollectionAgrees(Get(fs, "collection"), db, d)
    && ScopeAgrees(viewer, d)
  }

  /** The flag is given as true, as 1, or as one of the words, in any case. */
  predicate SubfoldersWanted(v: Option<Value>) {
    match v
    case Some(Flag(b)) => b
    case Some(Num(n)) => n == 1
    case Some(Str(s)) => s == "1" || AnyCase(s, "true") || AnyCase(s, "yes")
    case _ => false
  }

  /** s is the lower-case word, some of its letters in upper case. */
  predicate AnyCase(s: string, word: string) {
    |s| == |word| && forall i | 0 <= i < |s| ::
      s[i] == word[i] || ('A' <= s[i] <= 'Z' && s[i] as int + 32 == word[i] as int)
  }

  /** A filter value that asks for something. */
  predicate Given(v: Option<Value>) {
    v != None && v != Some(Str("")) && v != Some(Flag(false)) && v != Some(Num(0))
  }

  /** Every filter that names a column equals it; NULL equals nothing. */
  ghost predicate ColumnsAgree(fs: seq<(string, Value)>, d: Document) {
    forall f | f in fs ::
      && (f.0 == "status" ==> ColumnIs(d, "status", f.1))
      && (f.0 == "document_type" ==> ColumnIs(d, "document_type", f.1))
      && (f.0 == "owner_id" ==> ColumnIs(d, "created_by", f.1))
      && (f.0 == "scope_profile_id" ==> ColumnIs(d, "scope_profile_id", f.1))
  }

  predicate ColumnIs(d: Document, column: string, v: Value) { column in d.columns && d.columns[column] == v }

  /** A search text that is not blank occurs in the title, up to case. */
  ghost predicate TitleContains(env: Env, q: Option<Value>, d: Document) {
    q.Some? && q.value.Str? && Text.Strip(q.value.s) != "" ==>
      Like.HasSubstring(env.fold, Text.Strip(q.value.s), d.title)
  }

  /** A tag that normalises to something is one of the document's. */
  ghost predicate TagAgrees(env: Env, tag: Option<Value>, db: Database, d: Document) {
    forall raw, name :: tag == Some(Str(raw)) && env.normalizeTag(raw) == Some(name) && name != "" ==>
      (d.id, name) in db.tags
  }

  ghost predicate CollectionAgrees(c: Option<Value>, db: Database, d: Document) {
    Given(c) ==> c.value.Id? && (d.id, c.value.id) in db.collections
  }

  ghost predicate FolderAgrees(f: Option<Value>, below: bool, db: Database, d: Document) {
    Given(f) ==>
      && f.value.Id?
      && if below then d.id in SubtreeDocs(db.folders, db.placements, f.value.id)
         else d.id in db.placements && db.placements[d.id] == f.value.id
  }

  ghost predicate FolderMeant(f: Option<Value>, below: bool, db: Database, d: Document)
    requires Forest(db.folders)
  {
    Given(f) ==>
      && f.value.Id?
      && if below then d.id in DocsBelow(db.folders, db.placements, f.value.id)
         else d.id in db.placements && db.placements[d.id] == f.value.id
  }

  /** If subfolders of a folder are asked for, its path filter picks exactly its descendants. */
  ghost predicate FolderFilterFits(query: Query, db: Database) {
    var f := Get(query.filters, "folder");
    Given(f) && f.value.Id? && SubfoldersWanted(Get(query.filters, "include_subfolders")) ==>
      FilterFits(db.folders, f.value.id)
  }

  /** No scope given means no limit; an empty scope admits nothing. */
  ghost predicate ScopeAgrees(viewer: Option<seq<Value>>, d: Document) {
    viewer.Some? ==> "scope_profile_id" in d.columns && d.columns["scope_profile_id"] in viewer.value
  }

  // ---------------------------------------------------------------------------------------------
  // Proof that the compiler is right
  // ---------------------------------------------------------------------------------------------

  /** A clause together with the parameters generated for it. */
  datatype Atom = Atom(clause: Clause, args: seq<Value>)

  ghost function Clauses(atoms: seq<Atom>): seq<Clause> {
    if atoms == [] then [] else [atoms[0].clause] + Clauses(atoms[1..])
  }

  ghost function Params(atoms: seq<Atom>): seq<Value> {
    if atoms == [] then [] else atoms[0].args + Params(atoms[1..])
  }

  ghost predicate Balanced(atoms: seq<Atom>) {
    forall i | 0 <= i < |atoms| :: |atoms[i].args| == Arity(atoms[i].clause)
  }

  ghost predicate AllHold(atoms: seq<Atom>, env: Env, db: Database, d: Document)
    requires Balanced(atoms)
  {
    forall i | 0 <= i < |atoms| :: Holds(atoms[i].clause, atoms[i].args, env, db, d)
  }

  lemma {:induction false} AtomsSnoc(atoms: seq<Atom>, a: Atom)
    ensures Clauses(atoms + [a]) == Clauses(atoms) + [a.clause] && Params(atoms + [a]) == Params(atoms) + a.args
  {
    if atoms == [] {
      assert [] + [a] == [a] && [a][1..] == [];
      assert a.args + [] == a.args;
    } else {
      AtomsSnoc(atoms[1..], a);
      Sequences.HeadOfConcat(atoms, [a]);
      Sequences.Tail(atoms[0].clause, Clauses(atoms[1..]), [a.clause]);
      Sequences.Assoc(atoms[0].args, Params(atoms[1..]), a.args);
    }
  }

  lemma {:induction false} WhereIsAllHold(atoms: seq<Atom>, env: Env, db: Database, d: Document)
    requires Balanced(atoms)
    ensures Where(Clauses(atoms), Params(atoms), env, db, d) == Some(AllHold(atoms, env, db, d))
  {
    if atoms == [] {
    } else {
      var rest := atoms[1..];
      WhereIsAllHold(rest, env, db, d);
      var cs, ps := Clauses(atoms), Params(atoms);
      assert cs[1..] == Clauses(rest);
      assert ps[..Arity(cs[0])] == atoms[0].args && ps[Arity(cs[0])..] == Params(rest);
      if AllHold(rest, env, db, d) && Holds(atoms[0].clause, atoms[0].args, env, db, d) {
        forall i | 0 <= i < |atoms| ensures Holds(atoms[i].clause, atoms[i].args, env, db, d) {
          if i > 0 { assert atoms[i] == rest[i - 1]; }
        }
      }
    }
  }

  ghost function ColumnAtom(f: (string, Value)): (r: seq<Atom>)
    ensures Balanced(r)
  {
    if f.0 !in SPECIAL_KEYS && f.0 in FILTER_COLUMNS then [Atom(ColumnEquals(FILTER_COLUMNS[f.0]), [f.1])] else []
  }

  ghost function ColumnAtoms(fs: seq<(string, Value)>): (r: seq<Atom>)
    ensures Balanced(r)
  {
    if fs == [] then [] else ColumnAtoms(fs[..|fs| - 1]) + ColumnAtom(fs[|fs| - 1])
  }

  ghost function TitleAtoms(p: Option<string>): seq<Atom> {
    if p.Some? then [Atom(TitleLike, [Str(p.value)])] else []
  }

  ghost function TagAtoms(t: Option<string>): seq<Atom> {
    if t.Some? && t.value != "" then [Atom(HasTag, [Str(t.value)])] else []
  }

  ghost function PlaceAtoms(v: Option<Value>, c: Clause): seq<Atom> {
    if Truthy(v) then [Atom(c, [v.value])] else []
  }

  ghost function ScopeAtoms(viewer: Option<seq<Value>>): seq<Atom> {
    if viewer.None? then []
    else if viewer.value == [] then [Atom(Never, [])]
    else [Atom(ScopeIn(|viewer.value|), viewer.value)]
  }

  ghost function FolderClause(fs: seq<(string, Value)>): Clause {
    if Affirmative(Get(fs, "include_subfolders")) then InSubtree else InFolder
  }

  lemma AllAtomsBalanced(fs: seq<(string, Value)>, title: Option<string>, tag: Option<string>,
                         collection: Option<Value>, folder: Option<Value>, folderClause: Clause,
                         viewer: Option<seq<Value>>)
    requires folderClause in {InFolder, InSubtree}
    ensures Balanced(AllAtoms(fs, title, tag, collection, folder, folderClause, viewer))
  {
    BalancedConcat(ColumnAtoms(fs), TitleAtoms(title));
    BalancedConcat(ColumnAtoms(fs) + TitleAtoms(title), TagAtoms(tag));
    BalancedConcat(ColumnAtoms(fs) + TitleAtoms(title) + TagAtoms(tag), PlaceAtoms(collection, InCollection));
    BalancedConcat(ColumnAtoms(fs) + TitleAtoms(title) + TagAtoms(tag) + PlaceAtoms(collection, InCollection),
                   PlaceAtoms(folder, folderClause));
    BalancedConcat(ColumnAtoms(fs) + TitleAtoms(title) + TagAtoms(tag) + PlaceAtoms(collection, InCollection)
                   + PlaceAtoms(folder, folderClause), ScopeAtoms(viewer));
  }

  lemma BalancedConcat(a: seq<Atom>, b: seq<Atom>)
    requires Balanced(a) && Balanced(b)
    ensures Balanced(a + b)
  {
  }

  ghost function QueryAtoms(query: Query, viewer: Option<seq<Value>>, env: Env): (r: seq<Atom>)
    ensures Balanced(r)
  {
    var fs := query.filters;
    AllAtomsBalanced(fs, TitlePattern(Get(fs, "q")), TagFilter(env, Get(fs, "tag")), Get(fs, "collection"),
                     Get(fs, "folder"), FolderClause(fs), viewer);
    AllAtoms(fs, TitlePattern(Get(fs, "q")), TagFilter(env, Get(fs, "tag")), Get(fs, "collection"), Get(fs, "folder"),
             FolderClause(fs), viewer)
  }

  lemma AllHoldConcat(a: seq<Atom>, b: seq<Atom>, env: Env, db: Database, d: Document)
    requires Balanced(a) && Balanced(b)
    ensures Balanced(a + b)
    ensures AllHold(a + b, env, db, d) <==> AllHold(a, env, db, d) && AllHold(b, env, db, d)
  {
    var s := a + b;
    forall i | 0 <= i < |a| ensures s[i] == a[i] {}
    forall i | 0 <= i < |b| ensures s[|a| + i] == b[i] {}
    if AllHold(s, env, db, d) {
      forall i | 0 <= i < |b| ensures Holds(b[i].clause, b[i].args, env, db, d) { assert s[|a| + i] == b[i]; }
      forall i | 0 <= i < |a| ensures Holds(a[i].clause, a[i].args, env, db, d) { assert s[i] == a[i]; }
    }
  }

  lemma ColumnNamesAreNotSpecial()
    ensures FILTER_COLUMNS.Keys !! SPECIAL_KEYS
  {
    assert |"status"| == 6 && |"tag"| == 3 && |"q"| == 1 && |"collection"| == 10 && |"include_subfolders"| == 18;
    assert "status"[0] == 's' && "folder"[0] == 'f' && |"document_type"| == 13 && |"owner_id"| == 8;
    assert |"scope_profile_id"| == 16;
  }

  /** The filter names its column, if any, through the table of columns. */
  ghost predicate MappedAgrees(f: (string, Value), d: Document) {
    f.0 in FILTER_COLUMNS ==> ColumnIs(d, FILTER_COLUMNS[f.0], f.1)
  }

  lemma {:induction false} ColumnAtomsMap(fs: seq<(string, Value)>, env: Env, db: Database, d: Document)
    ensures AllHold(ColumnAtoms(fs), env, db, d) <==> forall f | f in fs :: MappedAgrees(f, d)
  {
    if fs == [] {
    } else {
      var front, last := fs[..|fs| - 1], fs[|fs| - 1];
      ColumnNamesAreNotSpecial();
      ColumnAtomsMap(front, env, db, d);
      AllHoldConcat(ColumnAtoms(front), ColumnAtom(last), env, db, d);
      ColumnAtomMeans(last, env, db, d);
      assert fs == front + [last];
    }
  }

  lemma ColumnAtomMeans(f: (string, Value), env: Env, db: Database, d: Document)
    ensures AllHold(ColumnAtom(f), env, db, d) <==> MappedAgrees(f, d)
  {
    ColumnNamesAreNotSpecial();
    if ColumnAtom(f) != [] { OneAtom(ColumnAtom(f)[0], env, db, d); }
  }

  lemma MappedIs(f: (string, Value), d: Document)
    ensures MappedAgrees(f, d) <==>
            && (f.0 == "status" ==> ColumnIs(d, "status", f.1))
            && (f.0 == "document_type" ==> ColumnIs(d, "document_type", f.1))
            && (f.0 == "owner_id" ==> ColumnIs(d, "created_by", f.1))
            && (f.0 == "scope_profile_id" ==> ColumnIs(d, "scope_profile_id", f.1))
  {
    assert |"status"| == 6 && |"document_type"| == 13 && |"owner_id"| == 8 && |"scope_profile_id"| == 16;
  }

  lemma ColumnAtomsMean(fs: seq<(string, Value)>, env: Env, db: Database, d: Document)
    ensures AllHold(ColumnAtoms(fs), env, db, d) <==> ColumnsAgree(fs, d)
  {
    ColumnAtomsMap(fs, env, db, d);
    forall f | f in fs
      ensures MappedAgrees(f, d) <==>
              && (f.0 == "status" ==> ColumnIs(d, "status", f.1))
              && (f.0 == "document_type" ==> ColumnIs(d, "document_type", f.1))
              && (f.0 == "owner_id" ==> ColumnIs(d, "created_by", f.1))
              && (f.0 == "scope_profile_id" ==> ColumnIs(d, "scope_profile_id", f.1))
    {
      MappedIs(f, d);
    }
  }

  lemma TitleAtomsMean(q: Option<Value>, env: Env, db: Database, d: Document)
    ensures AllHold(TitleAtoms(TitlePattern(q)), env, db, d) <==> TitleContains(env, q, d)
  {
    if TitlePattern(q).Some? {
      Like.EscapedSubstringSearch(env.fold, Text.Strip(q.value.s), d.title);
      OneAtom(TitleAtoms(TitlePattern(q))[0], env, db, d);
    }
  }

  lemma OneAtom(a: Atom, env: Env, db: Database, d: Document)
    requires |a.args| == Arity(a.clause)
    ensures AllHold([a], env, db, d) <==> Holds(a.clause, a.args, env, db, d)
  {
    assert [a][0] == a;
  }

  lemma TruthyIsGiven(v: Option<Value>)
    ensures Truthy(v) <==> Given(v)
  {
  }

  lemma LowerIs(s: string, word: string)
    requires forall i | 0 <= i < |word| :: 'a' <= word[i] <= 'z'
    ensures Lower(s) == word <==> AnyCase(s, word)
  {
    if AnyCase(s, word) {
      forall i | 0 <= i < |s| ensures Lower(s)[i] == word[i] {}
    }
    if Lower(s) == word {
      forall i | 0 <= i < |s| ensures s[i] == word[i] || ('A' <= s[i] <= 'Z' && s[i] as int + 32 == word[i] as int) {
        assert Lower(s)[i] == word[i];
      }
    }
  }

  lemma LowerIsOne(s: string)
    ensures Lower(s) == "1" <==> s == "1"
  {
    if |s| == 1 { assert Lower(s)[0] == '1' <==> s[0] == '1'; }
  }

  lemma AffirmativeIsWanted(v: Option<Value>)
    ensures Affirmative(v) <==> SubfoldersWanted(v)
  {
    if v.Some? && v.value.Str? {
      LowerIsOne(v.value.s);
      LowerIs(v.value.s, "true");
      LowerIs(v.value.s, "yes");
    }
  }

  lemma PlaceAtomsMean(fs: seq<(string, Value)>, viewer: Option<seq<Value>>,
                       env: Env, db: Database, d: Document)
    ensures AllHold(TagAtoms(TagFilter(env, Get(fs, "tag"))), env, db, d) <==> TagAgrees(env, Get(fs, "tag"), db, d)
    ensures AllHold(PlaceAtoms(Get(fs, "collection"), InCollection), env, db, d) <==>
            CollectionAgrees(Get(fs, "collection"), db, d)
    ensures AllHold(PlaceAtoms(Get(fs, "folder"), FolderClause(fs)), env, db, d) <==>
            FolderAgrees(Get(fs, "folder"), SubfoldersWanted(Get(fs, "include_subfolders")), db, d)
    ensures AllHold(ScopeAtoms(viewer), env, db, d) <==> ScopeAgrees(viewer, d)
  {
    var c, f := PlaceAtoms(Get(fs, "collection"), InCollection), PlaceAtoms(Get(fs, "folder"), FolderClause(fs));
    var tag := TagFilter(env, Get(fs, "tag"));
    TruthyIsGiven(Get(fs, "collection"));
    TruthyIsGiven(Get(fs, "folder"));
    AffirmativeIsWanted(Get(fs, "include_subfolders"));
    if TagAtoms(tag) != [] { OneAtom(TagAtoms(tag)[0], env, db, d); }
    if c != [] { OneAtom(c[0], env, db, d); }
    if f != [] { OneAtom(f[0], env, db, d); }
    if ScopeAtoms(viewer) != [] { OneAtom(ScopeAtoms(viewer)[0], env, db, d); }
  }

  lemma AtomsSayWhatQueryAsks(query: Query, viewer: Option<seq<Value>>, env: Env, db: Database, d: Document)
    ensures AllHold(QueryAtoms(query, viewer, env), env, db, d) <==> Selects(query, viewer, env, db, d)
    ensures Forest(db.folders) && FolderFilterFits(query, db) ==>
              (AllHold(QueryAtoms(query, viewer, env), env, db, d) <==> Asks(query, viewer, env, db, d))
  {
    if Forest(db.folders) && FolderFilterFits(query, db) { SelectsIsAsked(query, viewer, env, db, d); }
    SelectsIsAllHold(query, viewer, env, db, d);
  }

  lemma SelectsIsAllHold(query: Query, viewer: Option<seq<Value>>, env: Env, db: Database, d: Document)
    ensures AllHold(QueryAtoms(query, viewer, env), env, db, d) <==> Selects(query, viewer, env, db, d)
  {
    var fs := query.filters;
    ColumnAtomsMean(fs, env, db, d);
    TitleAtomsMean(Get(fs, "q"), env, db, d);
    PlaceAtomsMean(fs, viewer, env, db, d);
    AtomsSplit(fs, TitlePattern(Get(fs, "q")), TagFilter(env, Get(fs, "tag")), Get(fs, "collection"), Get(fs, "folder"),
               FolderClause(fs), viewer, env, db, d);
  }

  lemma AtomsSplit(fs: seq<(string, Value)>, title: Option<string>, tag: Option<string>, collection: Option<Value>,
                   folder: Option<Value>, folderClause: Clause, viewer: Option<seq<Value>>,
                   env: Env, db: Database, d: Document)
    requires folderClause in {InFolder, InSubtree}
    ensures Balanced(AllAtoms(fs, title, tag, collection, folder, folderClause, viewer))
    ensures AllHold(AllAtoms(fs, title, tag, collection, folder, folderClause, viewer), env, db, d) <==>
            && AllHold(ColumnAtoms(fs), env, db, d) && AllHold(TitleAtoms(title), env, db, d)
            && AllHold(TagAtoms(tag), env, db, d) && AllHold(PlaceAtoms(collection, InCollection), env, db, d)
            && AllHold(PlaceAtoms(folder, folderClause), env, db, d) && AllHold(ScopeAtoms(viewer), env, db, d)
  {
    SixHold(ColumnAtoms(fs), TitleAtoms(title), TagAtoms(tag), PlaceAtoms(collection, InCollection),
            PlaceAtoms(folder, folderClause), ScopeAtoms(viewer), env, db, d);
  }

  lemma SixHold(a: seq<Atom>, b: seq<Atom>, c: seq<Atom>, e: seq<Atom>, f: seq<Atom>, g: seq<Atom>,
                env: Env, db: Database, d: Document)
    requires Balanced(a) && Balanced(b) && Balanced(c) && Balanced(e) && Balanced(f) && Balanced(g)
    ensures Balanced(a + b + c + e + f + g)
    ensures AllHold(a + b + c + e + f + g, env, db, d) <==>
            && AllHold(a, env, db, d) && AllHold(b, env, db, d) && AllHold(c, env, db, d)
            && AllHold(e, env, db, d) && AllHold(f, env, db, d) && AllHold(g, env, db, d)
  {
    AllHoldConcat(a, b, env, db, d);
    AllHoldConcat(a + b, c, env, db, d);
    AllHoldConcat(a + b + c, e, env, db, d);
    AllHoldConcat(a + b + c + e, f, env, db, d);
    AllHoldConcat(a + b + c + e + f, g, env, db, d);
  }

  /** The generated clauses consume exactly the generated parameters, in order, and select exactly
      the documents meeting the direct reading of the query. */
  lemma CompiledWhereIsRight(query: Query, viewer: Option<seq<Value>>, env: Env)
    ensures forall db: Database, d: Document ::
              Where(Clauses(QueryAtoms(query, viewer, env)), Params(QueryAtoms(query, viewer, env)), env, db, d)
              == Some(Selects(query, viewer, env, db, d))
    ensures forall db: Database, d: Document | Forest(db.folders) && FolderFilterFits(query, db) ::
              Where(Clauses(QueryAtoms(query, viewer, env)), Params(QueryAtoms(query, viewer, env)), env, db, d)
              == Some(Asks(query, viewer, env, db, d))
  {
    forall db: Database, d: Document
      ensures var atoms := QueryAtoms(query, viewer, env);
              var w := Where(Clauses(atoms), Params(atoms), env, db, d);
              && w == Some(Selects(query, viewer, env, db, d))
              && (Forest(db.folders) && FolderFilterFits(query, db) ==> w == Some(Asks(query, viewer, env, db, d)))
    {
      WhereIsAllHold(QueryAtoms(query, viewer, env), env, db, d);
      AtomsSayWhatQueryAsks(query, viewer, env, db, d);
    }
  }

  /** The folder filter with subfolders, in terms of the forest: where the path filter fits, it admits
      exactly the documents placed in the folder or below it. */
  lemma SubfolderFilterMeansBelow(f: FolderId, db: Database, d: Document)
    requires Forest(db.folders) && FilterFits(db.folders, f)
    ensures FolderAgrees(Some(Id(f)), true, db, d) <==> d.id in DocsBelow(db.folders, db.placements, f)
  {
    if f in db.folders {
      SubtreeFilterExactIff(db.folders, f);
    } else if d.id in DocsBelow(db.folders, db.placements, f) {
      ChainPrefix(db.folders, f, db.placements[d.id]);
    }
  }

  lemma SelectsIsAsked(query: Query, viewer: Option<seq<Value>>, env: Env, db: Database, d: Document)
    requires Forest(db.folders) && FolderFilterFits(query, db)
    ensures Selects(query, viewer, env, db, d) <==> Asks(query, viewer, env, db, d)
  {
    var f := Get(query.filters, "folder");
    if Given(f) && f.value.Id? && SubfoldersWanted(Get(query.filters, "include_subfolders")) {
      SubfolderFilterMeansBelow(f.value.id, db, d);
    }
  }

  // ---------------------------------------------------------------------------------------------
  // Pages of the result
  // ---------------------------------------------------------------------------------------------

  function Rank(d: Document, field: string): int { if field in d.rank then d.rank[field] else 0 }

  /** a may precede b under ORDER BY. */
  predicate AtMost(order: seq<SortOrder>, a: Document, b: Document) {
    if order == [] then true
    else
      var x, y := Rank(a, order[0].field), Rank(b, order[0].field);
      if x == y then AtMost(order[1..], a, b) else (x < y) == order[0].ascending
  }

  lemma {:induction false} AtMostIsPreorder(order: seq<SortOrder>, a: Document, b: Document, c: Document)
    ensures AtMost(order, a, b) || AtMost(order, b, a)
    ensures AtMost(order, a, b) && AtMost(order, b, c) ==> AtMost(order, a, c)
  {
    if order == [] {
    } else {
      AtMostIsPreorder(order[1..], a, b, c);
    }
  }

  ghost function SelectedDocuments(query: Query, viewer: Option<seq<Value>>, env: Env, db: Database): set<Document> {
    set d | d in db.documents && Selects(query, viewer, env, db, d)
  }

  /** In every ordering the database may give, two rows that differ in the first requested column
      stand in its direction. */
  lemma FirstColumnDecides(query: Query, sel: set<Document>, o: seq<Document>, first: SortOrder, i: nat, j: nat)
    requires Admissible(OrderRelation(query), sel, o) && i < j < |o|
    requires exists k: nat :: FirstSortable(query.sortOrders, k, first)
    requires Rank(o[i], first.field) != Rank(o[j], first.field)
    ensures Rank(o[i], first.field) < Rank(o[j], first.field) <==> first.ascending
  {
    var k: nat :| FirstSortable(query.sortOrders, k, first);
    var at := KnownIsSelection(query.sortOrders);
    assert k in at;
    assert OrderOf(query.sortOrders)[0] == first by {
      assert at[0] <= k;
    }
    assert OrderRelation(query)(o[i], o[j]);
  }

  /** Without a sortable column the newest documents come first. */
  lemma NewestFirst(query: Query, sel: set<Document>, o: seq<Document>, i: nat, j: nat)
    requires Admissible(OrderRelation(query), sel, o) && i < j < |o|
    requires forall s | s in query.sortOrders :: !Sortable(s)
    ensures Rank(o[i], "created_at") >= Rank(o[j], "created_at")
  {
    var _ := KnownIsSelection(query.sortOrders);
    assert OrderRelation(query)(o[i], o[j]);
  }

  /** The first sortable entry stands at k. */
  predicate FirstSortable(os: seq<SortOrder>, k: nat, o: SortOrder) {
    k < |os| && os[k] == o && Sortable(o) && forall i | 0 <= i < k :: !Sortable(os[i])
  }

  /** The rows the data query for page k cuts out of an ordering, by the LIMIT and OFFSET it carries. */
  function PageRows(query: Query, o: seq<Document>, k: nat): seq<Document> {
    var (_, size, offset) := PageOf(query.(page := Some(k)));
    Window(o, offset, size)
  }

  /** Pages 1..|os| of a query put together, each cut from an ordering of its own. */
  function PagesRows(query: Query, os: seq<seq<Document>>): seq<Document> {
    if os == [] then []
    else PagesRows(query, os[..|os| - 1]) + PageRows(query, os[|os| - 1], |os|)
  }

  /** What LIMIT and OFFSET of the data query cut out of an ordering is the requested page. */
  lemma DataQueryCutsPage(query: Query, o: seq<Document>, k: nat)
    requires k >= 1
    ensures PageRows(query, o, k) == Page(o, PageOf(query).1, k)
  {
  }

  lemma {:induction false} DataQueriesCutPages(query: Query, os: seq<seq<Document>>)
    ensures PagesRows(query, os) == Paging.Collected(os, PageOf(query).1)
  {
    if os == [] {
    } else {
      DataQueriesCutPages(query, os[..|os| - 1]);
      DataQueryCutsPage(query, os[|os| - 1], |os|);
    }
  }

  /** The order of a query's rows, as far as its sort keys fix it. */
  ghost function OrderRelation(query: Query): (Document, Document) -> bool {
    (a, b) => AtMost(OrderOf(query.sortOrders), a, b)
  }

  lemma OrderRelationIsPreorder(query: Query)
    ensures TotalPreorder(OrderRelation(query))
  {
    var le := OrderRelation(query);
    forall a, b, c ensures (le(a, b) || le(b, a)) && (le(a, b) && le(b, c) ==> le(a, c)) {
      AtMostIsPreorder(OrderOf(query.sortOrders), a, b, c);
    }
  }

  /** Paging through a query, by the LIMIT and OFFSET generated for each page, shows each selected
      document exactly once, for every order the database may give tied rows on each page, exactly when
      no tie of the sort keys straddles a page boundary.  The sort keys the code generates carry no tie
      breaker. */
  lemma DocumentPagesTileIff(query: Query, viewer: Option<seq<Value>>, env: Env, db: Database, o: seq<Document>)
    requires Admissible(OrderRelation(query), SelectedDocuments(query, viewer, env, db), o)
    ensures var le, size := OrderRelation(query), PageOf(query).1;
            var sel := SelectedDocuments(query, viewer, env, db);
            (forall os | |os| == PageCount(|sel|, size) && AllAdmissible(le, sel, os) ::
               multiset(PagesRows(query, os)) == multiset(sel))
            <==> NoTieAtBoundary(le, o, size)
  {
    var le, sel, size := OrderRelation(query), SelectedDocuments(query, viewer, env, db), PageOf(query).1;
    OrderRelationIsPreorder(query);
    PagesTileIff(le, sel, o, size);
    forall os: seq<seq<Document>> ensures PagesRows(query, os) == Paging.Collected(os, size) {
      DataQueriesCutPages(query, os);
    }
  }

  /** If the database keeps to one ordering, the pages concatenate to all of it. */
  lemma OneOrderingPages(query: Query, o: seq<Document>, os: seq<seq<Document>>)
    requires SameOrdering(os, o) && |os| == PageCount(|o|, PageOf(query).1)
    ensures PagesRows(query, os) == o
  {
    DataQueriesCutPages(query, os);
    OneOrderingTiles(os, o, PageOf(query).1);
  }

  /** Two documents that the sort keys do not tell apart, on pages of one: the first may be shown twice
      and the second never. */
  lemma TiedPairRepeats(query: Query, a: Document, b: Document) returns (os: seq<seq<Document>>)
    requires a != b && PageOf(query).1 == 1
    requires AtMost(OrderOf(query.sortOrders), a, b) && AtMost(OrderOf(query.sortOrders), b, a)
    ensures |os| == PageCount(2, 1) && AllAdmissible(OrderRelation(query), {a, b}, os)
    ensures PagesRows(query, os) == [a, a]
  {
    var le := OrderRelation(query);
    os := [[a, b], [b, a]];
    AtMostIsPreorder(OrderOf(query.sortOrders), a, a, a);
    AtMostIsPreorder(OrderOf(query.sortOrders), b, b, b);
    assert Admissible(le, {a, b}, [a, b]) && Admissible(le, {a, b}, [b, a]);
    DataQueryCutsPage(query, [a, b], 1);
    DataQueryCutsPage(query, [b, a], 2);
    assert os[..1] == [[a, b]] && os[..1][..0] == [];
    assert PagesRows(query, os[..1]) == [] + PageRows(query, [a, b], 1);
  }
}
