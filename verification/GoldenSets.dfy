/**
 Golden sets: a version counter on the set, versioned items, and a snapshot for every version of the
 set.  Every change of a set or of one of its items bumps the counter and then inserts a snapshot of
 the live items with `ON CONFLICT DO NOTHING`.
 */
module GoldenSets {
  import opened Wrappers
  import Sequences

  type SetId = nat
  type ItemId = nat
  type ScopeId = nat

  datatype GoldenSet = GoldenSet(scope: ScopeId, name: string, version: nat, deleted: bool)

  datatype Item = Item(id: ItemId, setId: SetId, version: nat, question: string, deleted: bool)

  datatype SnapshotItem = SnapshotItem(id: ItemId, version: nat, question: string)

  datatype Snapshot = Snapshot(name: string, items: seq<SnapshotItem>)

  /** `items` in order of creation. */
  datatype Tables = Tables(sets: map<SetId, GoldenSet>, items: seq<Item>, snapshots: map<(SetId, nat), Snapshot>)

  datatype Op =
    | CreateSet(newId: SetId, scope: ScopeId, name: string)
    | UpdateSet(id: SetId, scope: ScopeId, newName: Option<string>)
    | DeleteSet(id: SetId, scope: ScopeId)
    | CreateItem(newItem: ItemId, id: SetId, scope: ScopeId, question: string)
    | UpdateItem(item: ItemId, scope: ScopeId, newQuestion: Option<string>)
    | DeleteItem(item: ItemId, scope: ScopeId)

  /** `get_by_id`: a set of another scope is as good as missing. */
  predicate Visible(t: Tables, id: SetId, scope: ScopeId) {
    id in t.sets && t.sets[id].scope == scope && !t.sets[id].deleted
  }

  /** `SELECT .. FROM golden_items WHERE golden_set_id = .. AND is_deleted = FALSE ORDER BY created_at` */
  function LiveItems(items: seq<Item>, id: SetId): seq<SnapshotItem> {
    if items == [] then []
    else
      var i := items[|items| - 1];
      LiveItems(items[..|items| - 1], id) + Shown(i, id)
  }

  function Shown(i: Item, id: SetId): seq<SnapshotItem> {
    if i.setId == id && !i.deleted then [SnapshotItem(i.id, i.version, i.question)] else []
  }

  /** The index of a live item in a live set of the scope. */
  function FindItem(t: Tables, item: ItemId, scope: ScopeId, n: nat): (r: Option<nat>)
    requires n <= |t.items|
    ensures r.Some? ==> r.value < n && t.items[r.value].id == item && !t.items[r.value].deleted
                        && Visible(t, t.items[r.value].setId, scope)
    ensures r.None? ==> forall k | 0 <= k < n && t.items[k].id == item && !t.items[k].deleted ::
                          !Visible(t, t.items[k].setId, scope)
  {
    if n == 0 then None
    else if t.items[n - 1].id == item && !t.items[n - 1].deleted && Visible(t, t.items[n - 1].setId, scope)
    then Some(n - 1)
    else FindItem(t, item, scope, n - 1)
  }

  predicate UsedItem(items: seq<Item>, item: ItemId) { exists k | 0 <= k < |items| :: items[k].id == item }

  function BumpSet(s: GoldenSet): GoldenSet { s.(version := s.version + 1) }

  /** `_snapshot`: a snapshot that exists already is kept. */
  function WithSnapshot(t: Tables, id: SetId): Tables
    requires id in t.sets
  {
    var key := (id, t.sets[id].version);
    if key in t.snapshots then t
    else t.(snapshots := t.snapshots[key := Snapshot(t.sets[id].name, LiveItems(t.items, id))])
  }

  /** Items changed, the set bumped, the snapshot taken. */
  function Changed(t: Tables, id: SetId, items: seq<Item>, s: GoldenSet): Tables {
    WithSnapshot(t.(items := items, sets := t.sets[id := s]), id)
  }

  function MarkDeleted(items: seq<Item>, id: SetId): seq<Item> {
    seq(|items|, k requires 0 <= k < |items| => if items[k].setId == id then items[k].(deleted := true) else items[k])
  }

  /** None: the call finds nothing and changes nothing. */
  function Step(t: Tables, op: Op): Option<Tables> {
    match op
    case CreateSet(id, scope, name) =>
      if id in t.sets then None else Some(Changed(t, id, t.items, GoldenSet(scope, name, 1, false)))
    case UpdateSet(id, scope, newName) =>
      if !Visible(t, id, scope) then None
      else
        var s := BumpSet(t.sets[id]);
        Some(Changed(t, id, t.items, if newName.Some? then s.(name := newName.value) else s))
    case DeleteSet(id, scope) =>
      if !Visible(t, id, scope) then None
      else Some(t.(sets := t.sets[id := t.sets[id].(deleted := true)], items := MarkDeleted(t.items, id)))
    case CreateItem(item, id, scope, question) =>
      if !Visible(t, id, scope) || UsedItem(t.items, item) then None
      else Some(Changed(t, id, t.items + [Item(item, id, 1, question, false)], BumpSet(t.sets[id])))
    case UpdateItem(item, scope, newQuestion) =>
      (match FindItem(t, item, scope, |t.items|)
       case None => None
       case Some(k) =>
         var i := t.items[k].(version := t.items[k].version + 1);
         var i' := if newQuestion.Some? then i.(question := newQuestion.value) else i;
         Some(Changed(t, i.setId, t.items[k := i'], BumpSet(t.sets[i.setId]))))
    case DeleteItem(item, scope) =>
      (match FindItem(t, item, scope, |t.items|)
       case None => None
       case Some(k) =>
         var i := t.items[k].(deleted := true);
         Some(Changed(t, i.setId, t.items[k := i], BumpSet(t.sets[i.setId]))))
  }

  // ---------------------------------------------------------------------------------------------
  // The invariant
  // ---------------------------------------------------------------------------------------------

  /** A snapshot for each of the versions 1..current and for no other. */
  ghost predicate SnapshotsComplete(t: Tables) {
    forall id: SetId, v: nat {:trigger (id, v) in t.snapshots} ::
      (id, v) in t.snapshots <==> id in t.sets && 1 <= v <= t.sets[id].version
  }

  /** The newest snapshot of a live set shows its name and its live items, in order of creation. */
  ghost predicate NewestIsCurrent(t: Tables) {
    forall id: SetId | id in t.sets && !t.sets[id].deleted :: CurrentShown(t, id)
  }

  ghost predicate CurrentShown(t: Tables, id: SetId)
    requires id in t.sets
  {
    var key := (id, t.sets[id].version);
    key in t.snapshots && t.snapshots[key] == Snapshot(t.sets[id].name, LiveItems(t.items, id))
  }

  ghost predicate ItemsHaveSets(t: Tables) {
    forall k | 0 <= k < |t.items| :: t.items[k].setId in t.sets
  }

  ghost predicate Inv(t: Tables) {
    SnapshotsComplete(t) && NewestIsCurrent(t) && ItemsHaveSets(t)
  }

  /** Snapshots once taken stay as they are. */
  predicate SnapshotsKept(t: Tables, t': Tables) {
    forall key | key in t.snapshots :: key in t'.snapshots && t'.snapshots[key] == t.snapshots[key]
  }

  /** Only items of set id differ; new items belong to it. */
  ghost predicate OnlyItemsOf(a: seq<Item>, b: seq<Item>, id: SetId) {
    && |b| <= |a|
    && (forall k | 0 <= k < |b| :: a[k] == b[k] || a[k].setId == b[k].setId == id)
    && (forall k | |b| <= k < |a| :: a[k].setId == id)
  }

  lemma {:induction false} OtherItemsSame(a: seq<Item>, b: seq<Item>, id: SetId, other: SetId)
    requires OnlyItemsOf(a, b, id) && other != id
    ensures LiveItems(a, other) == LiveItems(b, other)
    decreases |a|
  {
    if |a| > |b| {
      OtherItemsSame(a[..|a| - 1], b, id, other);
    } else if a != [] {
      OtherItemsSame(a[..|a| - 1], b[..|b| - 1], id, other);
    }
  }

  /** A bumped set takes its new snapshot: the conflict clause does nothing. */
  lemma ChangedKeepsInv(t: Tables, id: SetId, items: seq<Item>, s: GoldenSet)
    requires Inv(t) && !s.deleted && OnlyItemsOf(items, t.items, id)
    requires s.version == if id in t.sets then t.sets[id].version + 1 else 1
    ensures (id, s.version) !in t.snapshots
    ensures Inv(Changed(t, id, items, s)) && SnapshotsKept(t, Changed(t, id, items, s))
  {
    var t' := Changed(t, id, items, s);
    assert (id, s.version) !in t.snapshots;
    forall g: SetId, v: nat
      ensures (g, v) in t'.snapshots <==> g in t'.sets && 1 <= v <= t'.sets[g].version
    {
      assert (g, v) in t.snapshots <==> g in t.sets && 1 <= v <= t.sets[g].version;
    }
    forall g: SetId | g in t'.sets && !t'.sets[g].deleted ensures CurrentShown(t', g) {
      if g != id {
        assert CurrentShown(t, g);
        OtherItemsSame(items, t.items, id, g);
      }
    }
  }

  /** The set whose version a call bumps, if it bumps one. */
  function Bumped(t: Tables, op: Op): Option<SetId> {
    match op
    case CreateSet(id, _, _) => Some(id)
    case UpdateSet(id, _, _) => Some(id)
    case DeleteSet(_, _) => None
    case CreateItem(_, id, _, _) => Some(id)
    case UpdateItem(item, scope, _) => ItemSet(t, item, scope)
    case DeleteItem(item, scope) => ItemSet(t, item, scope)
  }

  function ItemSet(t: Tables, item: ItemId, scope: ScopeId): Option<SetId> {
    match FindItem(t, item, scope, |t.items|) case None => None case Some(k) => Some(t.items[k].setId)
  }

  /** Every call keeps the invariant and all earlier snapshots, and its own snapshot never conflicts. */
  lemma StepKeepsInv(t: Tables, op: Op)
    requires Inv(t) && Step(t, op).Some?
    ensures Inv(Step(t, op).value) && SnapshotsKept(t, Step(t, op).value)
    ensures Bumped(t, op).Some? ==>
              var id := Bumped(t, op).value;
              var t' := Step(t, op).value;
              id in t'.sets && (id, t'.sets[id].version) !in t.snapshots
  {
    match op
    case CreateSet(id, scope, name) =>
      ChangedKeepsInv(t, id, t.items, GoldenSet(scope, name, 1, false));
    case UpdateSet(id, scope, newName) =>
      var s := BumpSet(t.sets[id]);
      ChangedKeepsInv(t, id, t.items, if newName.Some? then s.(name := newName.value) else s);
    case DeleteSet(id, scope) =>
      DeleteKeepsInv(t, id);
    case CreateItem(item, id, scope, question) =>
      ChangedKeepsInv(t, id, t.items + [Item(item, id, 1, question, false)], BumpSet(t.sets[id]));
    case UpdateItem(item, scope, newQuestion) =>
      UpdateItemKeepsInv(t, item, scope, newQuestion);
    case DeleteItem(item, scope) =>
      var k := FindItem(t, item, scope, |t.items|).value;
      ItemChangeKeepsInv(t, k, t.items[k].(deleted := true));
  }

  lemma UpdateItemKeepsInv(t: Tables, item: ItemId, scope: ScopeId, newQuestion: Option<string>)
    requires Inv(t) && Step(t, UpdateItem(item, scope, newQuestion)).Some?
    ensures var t' := Step(t, UpdateItem(item, scope, newQuestion)).value;
            && Inv(t') && SnapshotsKept(t, t')
            && ItemSet(t, item, scope).Some?
            && var id := ItemSet(t, item, scope).value;
               id in t'.sets && (id, t'.sets[id].version) !in t.snapshots
  {
    var k := FindItem(t, item, scope, |t.items|).value;
    var i := t.items[k].(version := t.items[k].version + 1);
    ItemChangeKeepsInv(t, k, if newQuestion.Some? then i.(question := newQuestion.value) else i);
  }

  lemma ItemChangeKeepsInv(t: Tables, k: nat, i: Item)
    requires Inv(t) && k < |t.items| && i.setId == t.items[k].setId
    requires i.setId in t.sets && !t.sets[i.setId].deleted
    ensures (i.setId, t.sets[i.setId].version + 1) !in t.snapshots
    ensures Inv(Changed(t, i.setId, t.items[k := i], BumpSet(t.sets[i.setId])))
    ensures SnapshotsKept(t, Changed(t, i.setId, t.items[k := i], BumpSet(t.sets[i.setId])))
  {
    ChangedKeepsInv(t, i.setId, t.items[k := i], BumpSet(t.sets[i.setId]));
  }

  lemma DeleteKeepsInv(t: Tables, id: SetId)
    requires Inv(t) && id in t.sets
    ensures Inv(t.(sets := t.sets[id := t.sets[id].(deleted := true)], items := MarkDeleted(t.items, id)))
  {
    var items := MarkDeleted(t.items, id);
    var t' := t.(sets := t.sets[id := t.sets[id].(deleted := true)], items := items);
    forall g: SetId, v: nat
      ensures (g, v) in t'.snapshots <==> g in t'.sets && 1 <= v <= t'.sets[g].version
    {
      assert (g, v) in t.snapshots <==> g in t.sets && 1 <= v <= t.sets[g].version;
    }
    forall g: SetId | g in t'.sets && !t'.sets[g].deleted ensures CurrentShown(t', g) {
      assert CurrentShown(t, g);
      OtherItemsSame(items, t.items, id, g);
    }
  }

  function Run(t: Tables, ops: seq<Op>): Tables
    decreases |ops|
  {
    if ops == [] then t else Run(match Step(t, ops[0]) case None => t case Some(t') => t', ops[1..])
  }

  /** Over every run: a snapshot for every version, the newest showing the live items, the older ones
      unchanged. */
  lemma {:induction false} RunKeepsInv(t: Tables, ops: seq<Op>)
    requires Inv(t)
    ensures Inv(Run(t, ops)) && SnapshotsKept(t, Run(t, ops))
    decreases |ops|
  {
    if ops == [] {
    } else {
      if Step(t, ops[0]).Some? {
        StepKeepsInv(t, ops[0]);
        RunKeepsInv(Step(t, ops[0]).value, ops[1..]);
      } else {
        RunKeepsInv(t, ops[1..]);
      }
    }
  }

  lemma LiveItemsSnoc(s: seq<Item>, x: Item, id: SetId)
    ensures LiveItems(s + [x], id) == LiveItems(s, id) + Shown(x, id)
  {
    Sequences.LastOfSnoc(s, x);
  }

  lemma {:induction false} LiveItemsConcat(a: seq<Item>, b: seq<Item>, id: SetId)
    ensures LiveItems(a + b, id) == LiveItems(a, id) + LiveItems(b, id)
    decreases |b|
  {
    if b == [] {
      assert a + b == a;
    } else {
      var front, last := b[..|b| - 1], b[|b| - 1];
      assert b == front + [last];
      Sequences.Assoc(a, front, [last]);
      LiveItemsSnoc(a + front, last, id);
      LiveItemsConcat(a, front, id);
      Sequences.Assoc(LiveItems(a, id), LiveItems(front, id), Shown(last, id));
    }
  }

  /** Replacing one item changes the list at that item's place only. */
  lemma LiveItemsUpdate(items: seq<Item>, k: nat, i: Item, id: SetId)
    requires k < |items|
    ensures LiveItems(items[k := i], id) == LiveItems(items[..k], id) + Shown(i, id) + LiveItems(items[k + 1..], id)
  {
    assert items[k := i] == (items[..k] + [i]) + items[k + 1..];
    LiveItemsConcat(items[..k] + [i], items[k + 1..], id);
    LiveItemsSnoc(items[..k], i, id);
  }

  /** The live items of the set of item k, before that item and after it. */
  function Around(items: seq<Item>, k: nat): (r: (seq<SnapshotItem>, seq<SnapshotItem>))
    requires k < |items|
  {
    (LiveItems(items[..k], items[k].setId), LiveItems(items[k + 1..], items[k].setId))
  }

  /** A live item is listed once, at its place. */
  lemma OwnEntry(items: seq<Item>, k: nat)
    requires k < |items| && !items[k].deleted
    ensures var (before, after) := Around(items, k);
            var i := items[k];
            LiveItems(items, i.setId) == before + [SnapshotItem(i.id, i.version, i.question)] + after
  {
    LiveItemsUpdate(items, k, items[k], items[k].setId);
    assert items[k := items[k]] == items;
  }

  /** Creation appends the item at version 1. */
  lemma CreateItemEffect(t: Tables, item: ItemId, id: SetId, scope: ScopeId, question: string)
    requires Step(t, CreateItem(item, id, scope, question)).Some?
    ensures LiveItems(Step(t, CreateItem(item, id, scope, question)).value.items, id)
         == LiveItems(t.items, id) + [SnapshotItem(item, 1, question)]
  {
    LiveItemsSnoc(t.items, Item(item, id, 1, question, false), id);
  }

  /** An update replaces the item's entry, at its place, by one a version higher. */
  lemma UpdateItemEffect(t: Tables, item: ItemId, scope: ScopeId, newQuestion: Option<string>, k: nat)
    requires FindItem(t, item, scope, |t.items|) == Some(k)
    requires Step(t, UpdateItem(item, scope, newQuestion)).Some?
    ensures var (before, after) := Around(t.items, k);
            var id, version, was := t.items[k].setId, t.items[k].version, t.items[k].question;
            var question := if newQuestion.Some? then newQuestion.value else was;
            && LiveItems(t.items, id) == before + [SnapshotItem(item, version, was)] + after
            && LiveItems(Step(t, UpdateItem(item, scope, newQuestion)).value.items, id)
               == before + [SnapshotItem(item, version + 1, question)] + after
  {
    OwnEntry(t.items, k);
    var i := t.items[k].(version := t.items[k].version + 1);
    LiveItemsUpdate(t.items, k, if newQuestion.Some? then i.(question := newQuestion.value) else i, i.setId);
  }

  lemma EntryRemoved(items: seq<Item>, k: nat)
    requires k < |items|
    ensures var (before, after) := Around(items, k);
            LiveItems(items[k := items[k].(deleted := true)], items[k].setId) == before + after
  {
    LiveItemsUpdate(items, k, items[k].(deleted := true), items[k].setId);
  }

  /** A deletion removes the item's entry. */
  lemma DeleteItemEffect(t: Tables, item: ItemId, scope: ScopeId, k: nat)
    requires FindItem(t, item, scope, |t.items|) == Some(k)
    requires Step(t, DeleteItem(item, scope)).Some?
    ensures var (before, after) := Around(t.items, k);
            var i := t.items[k];
            && LiveItems(t.items, i.setId) == before + [SnapshotItem(item, i.version, i.question)] + after
            && LiveItems(Step(t, DeleteItem(item, scope)).value.items, i.setId) == before + after
  {
    OwnEntry(t.items, k);
    EntryRemoved(t.items, k);
  }

  /** The snapshot list holds the live items of the set and nothing else. */
  lemma {:induction false} LiveItemsAreLive(items: seq<Item>, id: SetId)
    ensures |LiveItems(items, id)| <= |items|
    ensures forall x | x in LiveItems(items, id) ::
              exists k :: 0 <= k < |items| && items[k].setId == id && !items[k].deleted
                          && x == SnapshotItem(items[k].id, items[k].version, items[k].question)
    ensures forall k | 0 <= k < |items| && items[k].setId == id && !items[k].deleted ::
              SnapshotItem(items[k].id, items[k].version, items[k].question) in LiveItems(items, id)
  {
    if items == [] {
    } else {
      var front := items[..|items| - 1];
      LiveItemsAreLive(front, id);
      forall x | x in LiveItems(front, id)
        ensures exists k :: 0 <= k < |items| && items[k].setId == id && !items[k].deleted
                            && x == SnapshotItem(items[k].id, items[k].version, items[k].question)
      {
        var k :| 0 <= k < |front| && front[k].setId == id && !front[k].deleted
                 && x == SnapshotItem(front[k].id, front[k].version, front[k].question);
        assert items[k] == front[k];
      }
      forall k | 0 <= k < |front| && items[k].setId == id && !items[k].deleted
        ensures SnapshotItem(items[k].id, items[k].version, items[k].question) in LiveItems(front, id)
      {
        assert front[k] == items[k];
      }
    }
  }

  // ---------------------------------------------------------------------------------------------
  // The repositories
  // ---------------------------------------------------------------------------------------------

  class GoldenSetRepository {
    var sets: map<SetId, GoldenSet>
    var items: seq<Item>
    var snapshots: map<(SetId, nat), Snapshot>

    ghost function State(): Tables
      reads this
    {
      Tables(sets, items, snapshots)
    }

    constructor ()
      ensures State() == Tables(map[], [], map[])
    {
      sets, items, snapshots := map[], [], map[];
    }

    method TakeSnapshot(id: SetId)
      requires id in sets
      modifies this`snapshots
      ensures State() == WithSnapshot(old(State()), id)
    {
      var key := (id, sets[id].version);
      if key !in snapshots {
        snapshots := snapshots[key := Snapshot(sets[id].name, LiveItems(items, id))];
      }
    }

    method CreateSet(id: SetId, scope: ScopeId, name: string) returns (ok: bool)
      modifies this
      ensures Did(old(State()), State(), Op.CreateSet(id, scope, name), ok)
    {
      if id in sets { return false; }
      sets := sets[id := GoldenSet(scope, name, 1, false)];
      TakeSnapshot(id);
      ok := true;
    }

    method UpdateSet(id: SetId, scope: ScopeId, newName: Option<string>) returns (ok: bool)
      modifies this
      ensures Did(old(State()), State(), Op.UpdateSet(id, scope, newName), ok)
    {
      if !(id in sets && sets[id].scope == scope && !sets[id].deleted) { return false; }
      sets := sets[id := sets[id].(version := sets[id].version + 1)];
      if newName.Some? { sets := sets[id := sets[id].(name := newName.value)]; }
      TakeSnapshot(id);
      ok := true;
    }

    method SoftDelete(id: SetId, scope: ScopeId) returns (ok: bool)
      modifies this
      ensures Did(old(State()), State(), Op.DeleteSet(id, scope), ok)
    {
      if !(id in sets && sets[id].scope == scope && !sets[id].deleted) { return false; }
      sets := sets[id := sets[id].(deleted := true)];
      items := MarkDeleted(items, id);
      ok := true;
    }

    method CreateItem(item: ItemId, id: SetId, scope: ScopeId, question: string) returns (ok: bool)
      modifies this
      ensures Did(old(State()), State(), Op.CreateItem(item, id, scope, question), ok)
    {
      if !(id in sets && sets[id].scope == scope && !sets[id].deleted) { return false; }
      if UsedItem(items, item) { return false; }
      items := items + [Item(item, id, 1, question, false)];
      sets := sets[id := sets[id].(version := sets[id].version + 1)];
      TakeSnapshot(id);
      ok := true;
    }

    method UpdateItem(item: ItemId, scope: ScopeId, newQuestion: Option<string>) returns (ok: bool)
      modifies this
      ensures Did(old(State()), State(), Op.UpdateItem(item, scope, newQuestion), ok)
    {
      var found := FindItem(Tables(sets, items, snapshots), item, scope, |items|);
      if found.None? { return false; }
      var k := found.value;
      var id := items[k].setId;
      var i := items[k].(version := items[k].version + 1);
      if newQuestion.Some? { i := i.(question := newQuestion.value); }
      items := items[k := i];
      sets := sets[id := sets[id].(version := sets[id].version + 1)];
      TakeSnapshot(id);
      ok := true;
    }

    method SoftDeleteItem(item: ItemId, scope: ScopeId) returns (ok: bool)
      modifies this
      ensures Did(old(State()), State(), Op.DeleteItem(item, scope), ok)
    {
      var found := FindItem(Tables(sets, items, snapshots), item, scope, |items|);
      if found.None? { return false; }
      var k := found.value;
      var id := items[k].setId;
      items := items[k := items[k].(deleted := true)];
      sets := sets[id := sets[id].(version := sets[id].version + 1)];
      TakeSnapshot(id);
      ok := true;
    }
  }

  ghost predicate Did(before: Tables, after: Tables, op: Op, ok: bool) {
    match Step(before, op) case None => after == before && !ok case Some(t) => after == t && ok
  }
}
