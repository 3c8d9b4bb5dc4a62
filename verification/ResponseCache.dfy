/**
 The two-tier cache: Valkey, and a process-local dictionary that takes over when Valkey fails.  Every
 call finds Valkey up or down; which tier an entry lives in depends on what it was when the entry was
 written.
 */
module ResponseCache {
  import opened Wrappers
  import opened ExpiryCache

  const NAMESPACE := "mimir:"

  /** What has happened so far, in order.  `up` says which tier took a write, `reached` whether Valkey
      took part in an invalidation. */
  datatype Event =
    | Wrote(key: string, item: Item, up: bool)
    | Invalidated(prefix: string, reached: bool)

  /** Glob characters other than the trailing star have a meaning of their own to Valkey's SCAN. */
  predicate GlobPlain(s: string) {
    forall i | 0 <= i < |s| :: s[i] !in {'*', '?', '[', ']', '\\'}
  }

  predicate ServerMatch(prefix: string, key: string) { NAMESPACE + prefix <= key }

  predicate LocalMatch(prefix: string, key: string) { prefix <= key || NAMESPACE + prefix <= key }

  /** The write at i is the last one of the key to the given tier, and no invalidation of that tier has
      covered the key since. */
  ghost predicate WrittenAt(log: seq<Event>, i: nat, key: string, item: Item, server: bool) {
    && i < |log| && log[i] == Wrote(key, item, server)
    && (forall j | i < j < |log| && log[j].Wrote? :: !(log[j].key == key && log[j].up == server))
    && forall j | i < j < |log| && log[j].Invalidated? ::
         if server then !(log[j].reached && ServerMatch(log[j].prefix, key)) else !LocalMatch(log[j].prefix, key)
  }

  ghost predicate Justified(log: seq<Event>, store: Store, server: bool) {
    forall k | k in store :: exists i: nat :: WrittenAt(log, i, k, store[k], server)
  }

  /** Whatever was last written to the tier and not invalidated is there, unless its time had come when
      it was looked up. */
  ghost predicate Complete(log: seq<Event>, store: Store, server: bool, latest: int) {
    forall i: nat, k, item | WrittenAt(log, i, k, item, server) ::
      (k in store && store[k] == item) || (!server && item.expires < latest)
  }

  lemma CompleteAfterWrite(log: seq<Event>, store: Store, key: string, item: Item, up: bool, server: bool, latest: int)
    requires Complete(log, store, server, latest)
    ensures Complete(log + [Wrote(key, item, up)], if up == server then store[key := item] else store, server, latest)
  {
    var log' := log + [Wrote(key, item, up)];
    forall i: nat, k, x | WrittenAt(log', i, k, x, server) && i < |log| ensures WrittenAt(log, i, k, x, server) {
      forall j | i < j < |log| ensures log'[j] == log[j] {}
    }
    forall i: nat, k, x | WrittenAt(log', i, k, x, server) && i < |log| ensures !(up == server && k == key) {
      assert log'[|log|] == Wrote(key, item, up);
    }
  }

  lemma CompleteAfterInvalidation(log: seq<Event>, store: Store, left: Store, e: Event, server: bool, latest: int)
    requires Complete(log, store, server, latest) && e.Invalidated?
    requires forall k | k in store ::
               (if server then !(e.reached && ServerMatch(e.prefix, k)) else !LocalMatch(e.prefix, k)) ==>
               k in left && left[k] == store[k]
    ensures Complete(log + [e], left, server, latest)
  {
    var log' := log + [e];
    forall i: nat, k, x | WrittenAt(log', i, k, x, server)
      ensures (k in left && left[k] == x) || (!server && x.expires < latest)
    {
      assert log'[|log|] == e && i != |log|;
      assert WrittenAt(log, i, k, x, server) by {
        forall j | i < j < |log| ensures log'[j] == log[j] {}
      }
    }
  }

  lemma JustifiedAfterWrite(log: seq<Event>, store: Store, key: string, item: Item, up: bool, server: bool)
    requires Justified(log, store, server)
    ensures Justified(log + [Wrote(key, item, up)], if up == server then store[key := item] else store, server)
  {
    var log' := log + [Wrote(key, item, up)];
    forall k | k in store && !(up == server && k == key)
      ensures exists i: nat :: WrittenAt(log', i, k, store[k], server)
    {
      var i: nat :| WrittenAt(log, i, k, store[k], server);
      assert WrittenAt(log', i, k, store[k], server);
    }
    if up == server { assert WrittenAt(log', |log|, key, item, server); }
  }

  lemma JustifiedAfterInvalidation(log: seq<Event>, store: Store, e: Event, server: bool)
    requires Justified(log, store, server) && e.Invalidated?
    requires forall k | k in store ::
               if server then !(e.reached && ServerMatch(e.prefix, k)) else !LocalMatch(e.prefix, k)
    ensures Justified(log + [e], store, server)
  {
    forall k | k in store ensures exists i: nat :: WrittenAt(log + [e], i, k, store[k], server) {
      var i: nat :| WrittenAt(log, i, k, store[k], server);
      assert WrittenAt(log + [e], i, k, store[k], server);
    }
  }

  /** The place of the last write to the key, whichever tier took it. */
  ghost function LastWrite(log: seq<Event>, key: string): (r: Option<nat>)
    ensures r.Some? ==> r.value < |log| && log[r.value].Wrote? && log[r.value].key == key
    ensures forall j | (if r.Some? then r.value + 1 else 0) <= j < |log| && log[j].Wrote? :: log[j].key != key
  {
    if log == [] then None
    else
      var last := log[|log| - 1];
      if last.Wrote? && last.key == key then Some(|log| - 1) else LastWrite(log[..|log| - 1], key)
  }

  /** A read answers with the last written value exactly when the last write went to the tier that
      answers; otherwise with the last value written to that tier. */
  lemma AnswerCurrentIff(log: seq<Event>, server: Store, local: Store, key: string, now: int, up: bool)
    returns (i: nat)
    requires Justified(log, server, true) && Justified(log, local, false)
    requires Answer(server, local, key, now, up).Some?
    ensures i < |log| && log[i].Wrote? && log[i].key == key && log[i].up == Hit(server, key, now, up)
    ensures Answer(server, local, key, now, up) == Some(log[i].item.value)
    ensures forall j | i < j < |log| && log[j].Wrote? && log[j].key == key :: log[j].up != log[i].up
    ensures LastWrite(log, key) == Some(i) <==> log[LastWrite(log, key).value].up == Hit(server, key, now, up)
  {
    if Hit(server, key, now, up) {
      i :| WrittenAt(log, i, key, server[key], true);
    } else {
      i :| WrittenAt(log, i, key, local[key], false);
    }
  }

  /** An invalidation that reached Valkey covers the key, and nothing was written to it since. */
  ghost predicate Cleared(log: seq<Event>, key: string) {
    exists j: nat :: ClearedAt(log, key, j)
  }

  ghost predicate ClearedAt(log: seq<Event>, key: string, j: nat) {
    && j < |log| && log[j].Invalidated? && log[j].reached && ServerMatch(log[j].prefix, key)
    && forall i | j < i < |log| && log[i].Wrote? :: log[i].key != key
  }

  /** A cleared key is in neither tier, so no read answers it. */
  lemma ClearedUnanswered(log: seq<Event>, server: Store, local: Store, key: string, now: int, up: bool)
    requires Justified(log, server, true) && Justified(log, local, false) && Cleared(log, key)
    ensures key !in server && key !in local
    ensures Answer(server, local, key, now, up) == None
  {
    var j: nat :| ClearedAt(log, key, j);
    forall i: nat, item: Item, tier: bool ensures !WrittenAt(log, i, key, item, tier) {}
  }

  class ResponseCache {
    /** The server's entries; one whose time has come is invisible. */
    var server: Store
    var local: Store
    ghost var log: seq<Event>
    /** The latest time at which a read took place. */
    ghost var latest: int

    ghost predicate Valid()
      reads this
    {
      && Justified(log, server, true) && Justified(log, local, false)
      && Complete(log, server, true, latest) && Complete(log, local, false, latest)
    }

    constructor ()
      ensures Valid() && server == map[] && local == map[] && log == [] && latest == 0
    {
      server, local, log, latest := map[], map[], [], 0;
    }

    /** Any value returned was written to this key, is within its time to live, and was written after
        the last invalidation that covers the key and reached Valkey. */
    method GetCached(key: string, now: int, up: bool) returns (r: Option<Value>)
      requires Valid()
      modifies this`local, this`latest
      ensures Valid() && log == old(log) && latest == if now > old(latest) then now else old(latest)
      ensures r.Some? ==> exists i: nat, item: Item ::
                && item.value == r.value && Live(item, now)
                && WrittenAt(log, i, key, item, Hit(server, key, now, up))
                && forall j | i < j < |log| && log[j].Invalidated? && log[j].reached :: !ServerMatch(log[j].prefix, key)
      ensures Cleared(log, key) ==> r == None
      ensures forall i: nat, item | WrittenAt(log, i, key, item, true) && up && now < item.expires ::
                r == Some(item.value)
      ensures forall i: nat, item | WrittenAt(log, i, key, item, false) && old(latest) <= now <= item.expires ::
                r.Some? && (!Hit(server, key, now, up) ==> r == Some(item.value))
      ensures r == Answer(server, old(local), key, now, up)
      ensures forall k | k in local :: k in old(local) && local[k] == old(local)[k]
    {
      if Cleared(log, key) { ClearedUnanswered(log, server, local, key, now, up); }
      latest := if now > latest then now else latest;
      if Hit(server, key, now, up) {
        ghost var i: nat :| WrittenAt(log, i, key, server[key], true);
        return Some(server[key].value);
      }
      if key !in local { return None; }
      var item := local[key];
      if now > item.expires {
        local := Removed(local, {key});
        return None;
      }
      ghost var i: nat :| WrittenAt(log, i, key, item, false);
      r := Some(item.value);
    }

    method SetCached(key: string, value: Value, ttl: int, now: int, up: bool)
      requires Valid()
      modifies this
      ensures Valid() && log == old(log) + [Wrote(key, Item(value, now + ttl), up)] && latest == old(latest)
      ensures server == if up then old(server)[key := Item(value, now + ttl)] else old(server)
      ensures local == if up then old(local) else old(local)[key := Item(value, now + ttl)]
    {
      var item := Item(value, now + ttl);
      CompleteAfterWrite(log, server, key, item, up, true, latest);
      CompleteAfterWrite(log, local, key, item, up, false, latest);
      JustifiedAfterWrite(log, server, key, item, up, true);
      JustifiedAfterWrite(log, local, key, item, up, false);
      if up {
        server := server[key := item];
      } else {
        local := local[key := item];
      }
      log := log + [Wrote(key, item, up)];
    }

    /** Entries already expired are gone for the server and do not count. */
    method DeleteOnServer(prefix: string, now: int) returns (deleted: nat)
      modifies this`server
      ensures server == ServerLeft(old(server), prefix) && deleted == |Visible(old(server), prefix, now)|
    {
      deleted := |Visible(server, prefix, now)|;
      server := ServerLeft(server, prefix);
    }

    method DeleteLocally(prefix: string) returns (deleted: nat)
      modifies this`local
      ensures local == LocalLeft(old(local), prefix) && deleted == |old(local)| - |local|
    {
      var keys := set k | k in local && LocalMatch(prefix, k);
      RemovedSize(local, keys);
      local := Removed(local, keys);
      deleted := |keys|;
    }

    /** `invalidate_pattern(prefix + "*")`: the local tier always, the server only if it is up. */
    method InvalidatePrefix(prefix: string, now: int, up: bool) returns (deleted: nat)
      requires Valid() && GlobPlain(prefix)
      modifies this
      ensures Valid() && log == old(log) + [Invalidated(prefix, up)] && latest == old(latest)
      ensures server == if up then map k | k in old(server) && !("mimir:" + prefix <= k) :: old(server)[k]
                        else old(server)
      ensures local == map k | k in old(local) && !(prefix <= k) && !("mimir:" + prefix <= k) :: old(local)[k]
      ensures deleted == (if up then |Visible(old(server), prefix, now)| else 0) + |old(local)| - |local|
    {
      ServerLeftKeeps(log, server, prefix, up, latest);
      LocalLeftKeeps(log, local, prefix, up, latest);
      deleted := 0;
      if up {
        deleted := DeleteOnServer(prefix, now);
      }
      var n := DeleteLocally(prefix);
      deleted := deleted + n;
      log := log + [Invalidated(prefix, up)];
    }
  }

  /** Valkey goes down for one write and comes back: the read gives the older value. */
  method StaleRead(key: string, older: Value, newer: Value, now: int) returns (r: Option<Value>)
    ensures r == Some(older)
  {
    var cache := new ResponseCache();
    cache.SetCached(key, older, 60, now, true);
    cache.SetCached(key, newer, 60, now + 1, false);
    r := cache.GetCached(key, now + 2, true);
  }

  function ServerLeft(s: Store, prefix: string): Store { Removed(s, set k | k in s && ServerMatch(prefix, k)) }

  /** The keys a SCAN for the prefix returns. */
  function Visible(s: Store, prefix: string, now: int): set<string> {
    set k | k in s && ServerMatch(prefix, k) && now < s[k].expires
  }

  function LocalLeft(s: Store, prefix: string): Store { Removed(s, set k | k in s && LocalMatch(prefix, k)) }

  /** What is left is what the prefix does not cover. */
  lemma LeftIs(s: Store, prefix: string)
    ensures ServerLeft(s, prefix) == map k | k in s && !("mimir:" + prefix <= k) :: s[k]
    ensures LocalLeft(s, prefix) == map k | k in s && !(prefix <= k) && !("mimir:" + prefix <= k) :: s[k]
  {
  }

  lemma ServerComplete(log: seq<Event>, s: Store, prefix: string, up: bool, latest: int)
    requires Complete(log, s, true, latest)
    ensures Complete(log + [Invalidated(prefix, up)], if up then ServerLeft(s, prefix) else s, true, latest)
  {
    CompleteAfterInvalidation(log, s, if up then ServerLeft(s, prefix) else s, Invalidated(prefix, up), true, latest);
  }

  lemma LocalComplete(log: seq<Event>, s: Store, prefix: string, up: bool, latest: int)
    requires Complete(log, s, false, latest)
    ensures Complete(log + [Invalidated(prefix, up)], LocalLeft(s, prefix), false, latest)
  {
    CompleteAfterInvalidation(log, s, LocalLeft(s, prefix), Invalidated(prefix, up), false, latest);
  }

  /** What an invalidation leaves in a tier is still justified. */
  lemma ServerJustified(log: seq<Event>, s: Store, prefix: string, up: bool)
    requires Justified(log, s, true)
    ensures Justified(log + [Invalidated(prefix, up)], if up then ServerLeft(s, prefix) else s, true)
  {
    var left := if up then ServerLeft(s, prefix) else s;
    assert Justified(log, left, true);
    JustifiedAfterInvalidation(log, left, Invalidated(prefix, up), true);
  }

  lemma LocalJustified(log: seq<Event>, s: Store, prefix: string, up: bool)
    requires Justified(log, s, false)
    ensures Justified(log + [Invalidated(prefix, up)], LocalLeft(s, prefix), false)
  {
    assert Justified(log, LocalLeft(s, prefix), false);
    JustifiedAfterInvalidation(log, LocalLeft(s, prefix), Invalidated(prefix, up), false);
  }

  /** Whether the server answers a read. */
  predicate Hit(server: Store, key: string, now: int, up: bool) {
    up && key in server && now < server[key].expires
  }

  lemma ServerLeftKeeps(log: seq<Event>, s: Store, prefix: string, up: bool, latest: int)
    requires Justified(log, s, true) && Complete(log, s, true, latest)
    ensures var left := if up then ServerLeft(s, prefix) else s;
            && Justified(log + [Invalidated(prefix, up)], left, true)
            && Complete(log + [Invalidated(prefix, up)], left, true, latest)
            && (up ==> left == map k | k in s && !("mimir:" + prefix <= k) :: s[k])
  {
    LeftIs(s, prefix);
    ServerComplete(log, s, prefix, up, latest);
    ServerJustified(log, s, prefix, up);
  }

  lemma LocalLeftKeeps(log: seq<Event>, s: Store, prefix: string, up: bool, latest: int)
    requires Justified(log, s, false) && Complete(log, s, false, latest)
    ensures var left := LocalLeft(s, prefix);
            && Justified(log + [Invalidated(prefix, up)], left, false)
            && Complete(log + [Invalidated(prefix, up)], left, false, latest)
            && left == map k | k in s && !(prefix <= k) && !("mimir:" + prefix <= k) :: s[k]
  {
    LeftIs(s, prefix);
    LocalComplete(log, s, prefix, up, latest);
    LocalJustified(log, s, prefix, up);
  }

  /** What a read gives: the server's entry if it is up and has one, else the local one. */
  function Answer(server: Store, local: Store, key: string, now: int, up: bool): Option<Value> {
    if Hit(server, key, now, up) then Some(server[key].value)
    else if key in local && Live(local[key], now) then Some(local[key].value)
    else None
  }

  // ---------------------------------------------------------------------------------------------
  // The retrieval layer on top
  // ---------------------------------------------------------------------------------------------

  /** `_ns`: keys get the namespace exactly once. */
  function Namespaced(key: string): (r: string)
    ensures "mimir:" <= key ==> r == key
    ensures !("mimir:" <= key) ==> r == "mimir:" + key
    ensures NAMESPACE <= r
  {
    if NAMESPACE <= key then key else NAMESPACE + key
  }

  /** An invalidation of a prefix covers every key of the retrieval layer that starts with it. */
  lemma PrefixCoversNamespaced(prefix: string, key: string)
    requires prefix <= key && !(NAMESPACE <= key)
    ensures ServerMatch(prefix, Namespaced(key))
  {
  }

  class RagCache {
    const external: bool
    const shared: ResponseCache
    const lru: LruCache

    constructor (external: bool, maxSize: nat)
      requires maxSize >= 1
      ensures this.external == external && fresh(shared) && fresh(lru) && shared.Valid() && lru.Valid()
    {
      this.external := external;
      shared := new ResponseCache();
      lru := new LruCache(maxSize);
    }

    method Get(key: string, now: int, up: bool) returns (r: Option<Value>)
      requires shared.Valid() && lru.Valid()
      modifies shared, lru
      ensures shared.Valid() && lru.Valid()
      ensures r == if external then Answer(old(shared.server), old(shared.local), Namespaced(key), now, up)
                   else if key in old(lru.store) && now <= old(lru.store)[key].expires
                   then Some(old(lru.store)[key].value) else None
      ensures shared.log == old(shared.log)
      ensures external && r.Some? ==> exists i: nat, item: Item ::
                && item.value == r.value && Live(item, now)
                && WrittenAt(shared.log, i, Namespaced(key), item, Hit(old(shared.server), Namespaced(key), now, up))
      ensures external && Cleared(shared.log, Namespaced(key)) ==> r == None
    {
      if external {
        r := shared.GetCached(Namespaced(key), now, up);
      } else {
        r := lru.Get(key, now);
      }
    }

    method Set(key: string, value: Value, ttl: int, now: int, up: bool)
      requires shared.Valid() && lru.Valid()
      modifies shared, lru
      ensures shared.Valid() && lru.Valid()
      ensures external ==>
                && lru.store == old(lru.store)
                && shared.log == old(shared.log) + [Wrote(Namespaced(key), Item(value, now + ttl), up)]
      ensures !external ==> shared.server == old(shared.server) && shared.local == old(shared.local)
                            && SetOutcome(old(lru.store), lru.store, key, Item(value, now + ttl), now, lru.maxSize)
    {
      if external {
        shared.SetCached(Namespaced(key), value, ttl, now, up);
      } else {
        lru.Set(key, value, ttl, now);
      }
    }

    /** After an invalidation no tier of this process answers for the prefix; Valkey itself does
        exactly if it was down: then its entries come back when it does. */
    method DeletePrefix(prefix: string, now: int, up: bool) returns (count: nat)
      requires shared.Valid() && lru.Valid() && GlobPlain(prefix)
      modifies shared, lru
      ensures shared.Valid() && lru.Valid()
      ensures forall k | prefix <= k :: k !in lru.store
      ensures external ==> forall k | prefix <= k :: k !in shared.local && NAMESPACE + k !in shared.local
      ensures external && up ==> forall k | prefix <= k :: NAMESPACE + k !in shared.server
      ensures lru.store == map k | k in old(lru.store) && !(prefix <= k) :: old(lru.store)[k]
      ensures shared.server == if external && up
                               then map k | k in old(shared.server) && !("mimir:" + prefix <= k) ::
                                      old(shared.server)[k]
                               else old(shared.server)
      ensures shared.local == if external
                              then map k | k in old(shared.local) && !(prefix <= k) && !("mimir:" + prefix <= k) ::
                                     old(shared.local)[k]
                              else old(shared.local)
      ensures external ==> shared.log == old(shared.log) + [Invalidated(prefix, up)]
      ensures external && up ==> forall k | prefix <= k && !(NAMESPACE <= k) :: Cleared(shared.log, Namespaced(k))
    {
      count := 0;
      if external {
        count := shared.InvalidatePrefix(prefix, now, up);
        forall k | prefix <= k ensures k !in shared.local && NAMESPACE + k !in shared.local {
          assert NAMESPACE + prefix <= NAMESPACE + k;
        }
        forall k | prefix <= k && up ensures NAMESPACE + k !in shared.server {
          assert NAMESPACE + prefix <= NAMESPACE + k;
        }
      }
      forall k | external && up && prefix <= k && !(NAMESPACE <= k) ensures Cleared(shared.log, Namespaced(k)) {
        PrefixCoversNamespaced(prefix, k);
        assert ClearedAt(shared.log, Namespaced(k), |shared.log| - 1);
      }
      var n := lru.DeletePrefix(prefix);
      count := count + n;
    }
  }
}
