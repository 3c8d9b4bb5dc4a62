/**
 The in-process cache of the retrieval layer: entries with an expiry time, bounded in number.  A full
 cache first drops what has expired, and only if nothing has, one entry that expires earliest.
 */
module ExpiryCache {
  import opened Wrappers
  import Sets

  type Value = string

  datatype Item = Item(value: Value, expires: int)

  type Store = map<string, Item>

  predicate Live(i: Item, now: int) { now <= i.expires }

  function LiveOnly(s: Store, now: int): (r: Store)
    ensures forall k :: k in r <==> k in s && now <= s[k].expires
    ensures forall k | k in r :: r[k] == s[k]
  {
    map k | k in s && Live(s[k], now) :: s[k]
  }

  predicate IsOldest(s: Store, k: string) {
    k in s && forall x | x in s :: s[k].expires <= s[x].expires
  }

  /** What one `set` may do; only the choice among equally old entries is open. */
  ghost predicate SetOutcome(s: Store, t: Store, key: string, item: Item, now: int, max: nat) {
    if |s| < max then t == s[key := item]
    else if |LiveOnly(s, now)| < max then t == LiveOnly(s, now)[key := item]
    else exists k :: IsOldest(LiveOnly(s, now), k) && t == (LiveOnly(s, now) - {k})[key := item]
  }

  lemma {:induction false} OldestExists(s: Store)
    requires s != map[]
    ensures exists k :: IsOldest(s, k)
    decreases |s|
  {
    var x :| x in s;
    var rest := s - {x};
    assert rest.Keys == s.Keys - {x};
    if rest == map[] {
      assert s.Keys == {x} + rest.Keys;
      assert IsOldest(s, x);
    } else {
      assert |rest.Keys| < |s.Keys|;
      OldestExists(rest);
      var y :| IsOldest(rest, y);
      var z := if s[x].expires <= s[y].expires then x else y;
      forall w | w in s ensures s[z].expires <= s[w].expires {
        if w != x { assert w in rest && rest[w] == s[w]; }
      }
      assert IsOldest(s, z);
    }
  }

  class LruCache {
    const maxSize: nat
    var store: Store
    /** What a cache without a bound would hold. */
    ghost var unbounded: Store

    ghost predicate Valid()
      reads this
    {
      && maxSize >= 1 && |store| <= maxSize
      && forall k | k in store :: k in unbounded && store[k] == unbounded[k]
    }

    constructor (maxSize: nat)
      requires maxSize >= 1
      ensures Valid() && store == map[] && unbounded == map[] && this.maxSize == maxSize
    {
      this.maxSize := maxSize;
      store, unbounded := map[], map[];
    }

    /** A hit is a live entry that the unbounded cache holds as well. */
    method Get(key: string, now: int) returns (r: Option<Value>)
      requires Valid()
      modifies this
      ensures Valid() && unbounded == old(unbounded)
      ensures r.Some? <==> key in old(store) && now <= old(store)[key].expires
      ensures r.Some? ==> key in unbounded && now <= unbounded[key].expires && r.value == unbounded[key].value
      ensures store == if key in old(store) && now > old(store)[key].expires then old(store) - {key} else old(store)
    {
      if key !in store { return None; }
      var item := store[key];
      if now > item.expires {
        store := store - {key};
        return None;
      }
      r := Some(item.value);
    }

    method DropExpired(now: int)
      requires Valid()
      modifies this`store
      ensures Valid() && store == LiveOnly(old(store), now)
    {
      ghost var before := store;
      var expired := set k | k in store && store[k].expires < now;
      while expired != {}
        invariant expired <= store.Keys && store.Keys <= before.Keys && |store| <= |before|
        invariant forall k | k in store :: store[k] == before[k]
        invariant forall k | k in before :: k in store <==> Live(before[k], now) || k in expired
        invariant forall k | k in expired :: !Live(before[k], now)
        decreases expired
      {
        var k :| k in expired;
        RemoveSize(store, k);
        store := store - {k};
        expired := expired - {k};
      }
      assert store == LiveOnly(before, now);
    }

    method DropOldest() returns (ghost oldest: string)
      requires Valid() && store != map[]
      modifies this`store
      ensures Valid() && IsOldest(old(store), oldest) && store == old(store) - {oldest} && |store| < |old(store)|
    {
      OldestExists(store);
      var found :| found in store && IsOldest(store, found);
      RemoveSize(store, found);
      store := store - {found};
      oldest := found;
    }

    method Set(key: string, value: Value, ttl: int, now: int)
      requires Valid()
      modifies this
      ensures Valid() && unbounded == old(unbounded)[key := Item(value, now + ttl)]
      ensures SetOutcome(old(store), store, key, Item(value, now + ttl), now, maxSize)
    {
      var item := Item(value, now + ttl);
      if |store| >= maxSize {
        DropExpired(now);
        if |store| >= maxSize {
          ghost var oldest := DropOldest();
        }
      }
      AddSize(store, key, item);
      store := store[key := item];
      unbounded := unbounded[key := item];
    }

    method Delete(key: string)
      requires Valid()
      modifies this
      ensures Valid() && store == old(store) - {key} && unbounded == old(unbounded) - {key}
    {
      if key in store { RemoveSize(store, key); } else { assert store - {key} == store; }
      store := store - {key};
      unbounded := unbounded - {key};
    }

    method DeletePrefix(prefix: string) returns (count: nat)
      requires Valid()
      modifies this
      ensures Valid()
      ensures store == map k | k in old(store) && !(prefix <= k) :: old(store)[k]
      ensures unbounded == map k | k in old(unbounded) && !(prefix <= k) :: old(unbounded)[k]
      ensures count == |old(store)| - |store|
    {
      var keys := set k | k in store && prefix <= k;
      count := |keys|;
      RemovedSize(store, keys);
      store := Removed(store, keys);
      unbounded := map k | k in unbounded && !(prefix <= k) :: unbounded[k];
    }
  }

  /** Keys deleted from a store. */
  function Removed(s: Store, keys: set<string>): Store { s - keys }

  lemma RemovedSize(s: Store, keys: set<string>)
    requires keys <= s.Keys
    ensures |Removed(s, keys)| == |s| - |keys|
  {
    assert (s - keys).Keys == s.Keys - keys;
    assert s.Keys == keys + (s.Keys - keys);
  }

  lemma RemoveSize(s: Store, k: string)
    requires k in s
    ensures |s - {k}| == |s| - 1
  {
    assert (s - {k}).Keys == s.Keys - {k};
  }

  lemma AddSize(s: Store, k: string, item: Item)
    ensures |s[k := item]| <= |s| + 1
  {
    assert s[k := item].Keys == s.Keys + {k};
  }

  /** A `set` loses a live entry of another key only when the cache is full of live entries, and then
      exactly one, with the earliest expiry. */
  lemma SetDropsOnlyWhenFull(s: Store, t: Store, key: string, item: Item, now: int, max: nat, k: string)
    requires |s| <= max && SetOutcome(s, t, key, item, now, max)
    requires k in s && k != key && now <= s[k].expires && k !in t
    ensures |s| == max && (forall x | x in s :: now <= s[x].expires && s[k].expires <= s[x].expires)
    ensures t == (s - {k})[key := item]
  {
    var live := LiveOnly(s, now);
    assert live.Keys <= s.Keys;
    Sets.SubsetSize(live.Keys, s.Keys);
    assert k in live;
    if |live| >= max {
      Sets.SubsetSameSize(live.Keys, s.Keys);
      assert live == s;
    }
  }
}
