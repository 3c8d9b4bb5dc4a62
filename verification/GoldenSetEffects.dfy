/**
 What each call on golden sets and items does to the tables, written out, and when it finds nothing.
 */
module GoldenSetEffects {
  import opened Wrappers
  import opened GoldenSets

  predicate InScope(t: Tables, id: SetId, scope: ScopeId) {
    id in t.sets && t.sets[id].scope == scope && !t.sets[id].deleted
  }

  /** Set `id` becomes `s`; its new version, and no older one, has a new snapshot of name and items. */
  ghost predicate SetBecame(t: Tables, t': Tables, id: SetId, s: GoldenSet) {
    && t'.sets == t.sets[id := s]
    && t'.snapshots == t.snapshots[(id, s.version) := Snapshot(s.name, LiveItems(t'.items, id))]
  }

  lemma CreateSetEffect(t: Tables, id: SetId, scope: ScopeId, name: string)
    requires Inv(t)
    ensures var r := Step(t, CreateSet(id, scope, name));
            && (r.Some? <==> id !in t.sets)
            && (r.Some? ==> r.value.items == t.items && SetBecame(t, r.value, id, GoldenSet(scope, name, 1, false)))
  {
    assert (id, 1) in t.snapshots ==> id in t.sets;
  }

  /** An update sets the name, if one is given, and bumps the version. */
  lemma UpdateSetEffect(t: Tables, id: SetId, scope: ScopeId, newName: Option<string>)
    requires Inv(t)
    ensures var r := Step(t, UpdateSet(id, scope, newName));
            && (r.Some? <==> InScope(t, id, scope))
            && (r.Some? ==>
                  var was := t.sets[id];
                  var name := if newName == None then was.name else newName.value;
                  && r.value.items == t.items
                  && SetBecame(t, r.value, id, GoldenSet(was.scope, name, was.version + 1, false)))
  {
    if id in t.sets { assert (id, t.sets[id].version + 1) !in t.snapshots; }
  }

  /** A deletion marks the set and all its items; versions and snapshots stay. */
  lemma DeleteSetEffect(t: Tables, id: SetId, scope: ScopeId)
    ensures var r := Step(t, DeleteSet(id, scope));
            && (r.Some? <==> InScope(t, id, scope))
            && (r.Some? ==>
                  && r.value.sets == t.sets[id := t.sets[id].(deleted := true)]
                  && r.value.snapshots == t.snapshots && |r.value.items| == |t.items|
                  && forall k | 0 <= k < |t.items| ::
                       r.value.items[k] == if t.items[k].setId == id then t.items[k].(deleted := true) else t.items[k])
  {
  }

  /** A set whose item changed is bumped and takes its snapshot. */
  ghost predicate Bumped(t: Tables, t': Tables, id: SetId) {
    id in t.sets && SetBecame(t, t', id, t.sets[id].(version := t.sets[id].version + 1))
  }

  lemma CreateItemTables(t: Tables, item: ItemId, id: SetId, scope: ScopeId, question: string)
    requires Inv(t)
    ensures var r := Step(t, CreateItem(item, id, scope, question));
            && (r.Some? <==> InScope(t, id, scope) && forall k | 0 <= k < |t.items| :: t.items[k].id != item)
            && (r.Some? ==> r.value.items == t.items + [Item(item, id, 1, question, false)] && Bumped(t, r.value, id))
  {
    if id in t.sets { assert (id, t.sets[id].version + 1) !in t.snapshots; }
  }

  /** The live item of that id in a live set of the scope stands at k. */
  predicate StandsAt(t: Tables, item: ItemId, scope: ScopeId, k: nat) {
    k < |t.items| && t.items[k].id == item && !t.items[k].deleted && InScope(t, t.items[k].setId, scope)
  }

  ghost predicate DistinctItems(t: Tables) {
    forall j, k | 0 <= j < k < |t.items| :: t.items[j].id != t.items[k].id
  }

  lemma FoundAt(t: Tables, item: ItemId, scope: ScopeId)
    requires DistinctItems(t)
    ensures FindItem(t, item, scope, |t.items|).None? <==> forall k: nat :: !StandsAt(t, item, scope, k)
    ensures forall k: nat | StandsAt(t, item, scope, k) :: FindItem(t, item, scope, |t.items|) == Some(k)
  {
    var f := FindItem(t, item, scope, |t.items|);
    if f.Some? { assert StandsAt(t, item, scope, f.value); }
  }

  /** An update bumps the item and sets its question, if one is given. */
  lemma UpdateItemTables(t: Tables, item: ItemId, scope: ScopeId, newQuestion: Option<string>, k: nat)
    requires Inv(t) && DistinctItems(t) && StandsAt(t, item, scope, k)
    ensures var r := Step(t, UpdateItem(item, scope, newQuestion));
            var was := t.items[k];
            var question := if newQuestion == None then was.question else newQuestion.value;
            && r.Some? && Bumped(t, r.value, was.setId)
            && r.value.items == t.items[k := Item(item, was.setId, was.version + 1, question, false)]
  {
    FoundAt(t, item, scope);
    var id := t.items[k].setId;
    assert (id, t.sets[id].version + 1) !in t.snapshots;
  }

  lemma DeleteItemTables(t: Tables, item: ItemId, scope: ScopeId, k: nat)
    requires Inv(t) && DistinctItems(t) && StandsAt(t, item, scope, k)
    ensures var r := Step(t, DeleteItem(item, scope));
            && r.Some? && Bumped(t, r.value, t.items[k].setId)
            && r.value.items == t.items[k := t.items[k].(deleted := true)]
  {
    FoundAt(t, item, scope);
    var id := t.items[k].setId;
    assert (id, t.sets[id].version + 1) !in t.snapshots;
  }

  lemma MissingItem(t: Tables, item: ItemId, scope: ScopeId, newQuestion: Option<string>)
    requires DistinctItems(t) && forall k: nat :: !StandsAt(t, item, scope, k)
    ensures Step(t, UpdateItem(item, scope, newQuestion)) == None == Step(t, DeleteItem(item, scope))
  {
    FoundAt(t, item, scope);
  }

  /** Item ids stay distinct over every run, so an id names one item. */
  lemma {:induction false} RunKeepsDistinct(t: Tables, ops: seq<Op>)
    requires Inv(t) && DistinctItems(t)
    ensures DistinctItems(Run(t, ops))
    decreases |ops|
  {
    if ops == [] {
    } else {
      if Step(t, ops[0]).Some? {
        StepKeepsInv(t, ops[0]);
        StepKeepsDistinct(t, ops[0]);
        RunKeepsDistinct(Step(t, ops[0]).value, ops[1..]);
      } else {
        RunKeepsDistinct(t, ops[1..]);
      }
    }
  }

  lemma StepKeepsDistinct(t: Tables, op: Op)
    requires Inv(t) && DistinctItems(t) && Step(t, op).Some?
    ensures DistinctItems(Step(t, op).value)
  {
    match op
    case CreateSet(id, scope, name) => CreateSetEffect(t, id, scope, name);
    case UpdateSet(id, scope, newName) => UpdateSetEffect(t, id, scope, newName);
    case DeleteSet(id, scope) => DeleteSetEffect(t, id, scope);
    case CreateItem(item, id, scope, question) => CreateItemTables(t, item, id, scope, question);
    case UpdateItem(item, scope, newQuestion) =>
      var k := FindItem(t, item, scope, |t.items|).value;
      UpdateItemTables(t, item, scope, newQuestion, k);
    case DeleteItem(item, scope) =>
      var k := FindItem(t, item, scope, |t.items|).value;
      DeleteItemTables(t, item, scope, k);
  }
}
