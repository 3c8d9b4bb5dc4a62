/**
 The per-worker tier of the view throttle: an ordered dictionary from viewed key to time of last
 emission, oldest first, cut to a maximum size after every insertion.
 */
module LruThrottle {
  import opened Wrappers
  import Sequences
  import Sets

  /** An authenticated actor looking at a document. */
  datatype View = View(actor: string, document: string)

  datatype Entry = Entry(key: View, at: int)

  // ---------------------------------------------------------------------------------------------
  // Ordered dictionaries as sequences
  // ---------------------------------------------------------------------------------------------

  function Lookup(s: seq<Entry>, k: View): (r: Option<int>)
    ensures r.Some? <==> k in Keys(s)
    ensures r.Some? ==> Entry(k, r.value) in s
  {
    if s == [] then None else if s[0].key == k then Some(s[0].at) else Lookup(s[1..], k)
  }

  function Keys(s: seq<Entry>): set<View> {
    if s == [] then {} else {s[0].key} + Keys(s[1..])
  }

  function Without(s: seq<Entry>, k: View): (r: seq<Entry>)
    ensures |r| <= |s|
  {
    if s == [] then [] else if s[0].key == k then Without(s[1..], k) else [s[0]] + Without(s[1..], k)
  }

  ghost predicate Distinct(s: seq<Entry>) {
    s == [] || (s[0].key !in Keys(s[1..]) && Distinct(s[1..]))
  }

  /** Assignment followed by `move_to_end`. */
  function Touched(s: seq<Entry>, k: View, now: int): seq<Entry> {
    Without(s, k) + [Entry(k, now)]
  }

  function LastN<T>(s: seq<T>, n: nat): seq<T> {
    if |s| > n then s[|s| - n..] else s
  }

  function Known(previous: Option<int>, now: int, window: int): bool {
    previous.Some? && now - previous.value < window
  }

  /** One fallback call: the new cache and whether to emit. */
  function FallbackStep(s: seq<Entry>, k: View, now: int, window: int, max: nat): (seq<Entry>, bool) {
    if Known(Lookup(s, k), now, window) then (s, false) else (LastN(Touched(s, k, now), max), true)
  }

  class LruThrottle {
    var cache: seq<Entry>

    constructor ()
      ensures cache == []
    {
      cache := [];
    }

    method ShouldEmit(k: View, now: int, window: int, max: nat) returns (emit: bool)
      requires max >= 1
      modifies this
      ensures (cache, emit) == FallbackStep(old(cache), k, now, window, max)
    {
      var previous := Lookup(cache, k);
      if previous.Some? && now - previous.value < window { return false; }
      cache := Without(cache, k) + [Entry(k, now)];
      ghost var touched := cache;
      while |cache| > max
        invariant |cache| >= LastLen(|touched|, max) && |cache| <= |touched|
        invariant cache == touched[|touched| - |cache|..]
      {
        cache := cache[1..];
      }
      emit := true;
    }
  }

  ghost function LastLen(n: nat, max: nat): nat { if n > max then max else n }

  lemma {:induction false} KeysConcat(a: seq<Entry>, b: seq<Entry>)
    ensures Keys(a + b) == Keys(a) + Keys(b)
  {
    if a == [] {
      assert a + b == b;
    } else {
      KeysConcat(a[1..], b);
      assert (a + b)[1..] == a[1..] + b;
    }
  }

  lemma {:induction false} DistinctConcat(a: seq<Entry>, b: seq<Entry>)
    ensures Distinct(a + b) <==> Distinct(a) && Distinct(b) && Keys(a) !! Keys(b)
  {
    if a == [] {
      assert a + b == b;
    } else {
      DistinctConcat(a[1..], b);
      KeysConcat(a[1..], b);
      assert (a + b)[1..] == a[1..] + b;
    }
  }

  lemma {:induction false} WithoutConcat(a: seq<Entry>, b: seq<Entry>, k: View)
    ensures Without(a + b, k) == Without(a, k) + Without(b, k)
  {
    if a == [] {
      assert a + b == b;
    } else {
      WithoutConcat(a[1..], b, k);
      Sequences.HeadOfConcat(a, b);
      Sequences.Tail(a[0], Without(a[1..], k), Without(b, k));
    }
  }

  lemma {:induction false} WithoutFacts(s: seq<Entry>, k: View)
    ensures Keys(Without(s, k)) == Keys(s) - {k}
    ensures k !in Keys(s) ==> Without(s, k) == s
    ensures Distinct(s) ==> Distinct(Without(s, k)) && |Without(s, k)| == |s| - (if k in Keys(s) then 1 else 0)
  {
    if s == [] {
    } else {
      WithoutFacts(s[1..], k);
      assert ([s[0]] + Without(s[1..], k))[1..] == Without(s[1..], k);
    }
  }

  lemma One(e: Entry)
    ensures Keys([e]) == {e.key} && Distinct([e]) && Lookup([e], e.key) == Some(e.at) && Behind([e], e.key) == []
  {
    assert [e][1..] == [];
  }

  lemma TouchedDistinct(s: seq<Entry>, k: View, now: int)
    requires Distinct(s)
    ensures Distinct(Touched(s, k, now)) && Keys(Touched(s, k, now)) == Keys(s) + {k}
    ensures |Touched(s, k, now)| == |s| + (if k in Keys(s) then 0 else 1)
  {
    WithoutFacts(s, k);
    One(Entry(k, now));
    KeysConcat(Without(s, k), [Entry(k, now)]);
    DistinctConcat(Without(s, k), [Entry(k, now)]);
  }

  lemma {:induction false} LookupConcat(a: seq<Entry>, b: seq<Entry>, k: View)
    ensures Lookup(a + b, k) == if k in Keys(a) then Lookup(a, k) else Lookup(b, k)
  {
    if a == [] {
      assert a + b == b;
    } else {
      LookupConcat(a[1..], b, k);
      assert (a + b)[1..] == a[1..] + b;
    }
  }

  lemma {:induction false} LookupWithout(s: seq<Entry>, k: View, other: View)
    requires k != other
    ensures Lookup(Without(s, other), k) == Lookup(s, k)
  {
    if s == [] {
    } else {
      LookupWithout(s[1..], k, other);
      assert ([s[0]] + Without(s[1..], other))[1..] == Without(s[1..], other);
    }
  }

  lemma LookupTouched(s: seq<Entry>, k: View, now: int, x: View)
    ensures Lookup(Touched(s, k, now), x) == if x == k then Some(now) else Lookup(s, x)
  {
    LookupConcat(Without(s, k), [Entry(k, now)], x);
    One(Entry(k, now));
    WithoutFacts(s, k);
    if x != k {
      LookupWithout(s, x, k);
      assert [Entry(k, now)][1..] == [];
    }
  }

  // ---------------------------------------------------------------------------------------------
  // The cache against the full emission history
  // ---------------------------------------------------------------------------------------------

  /** All keys ever emitted, in order of last emission: what an unbounded cache would hold. */
  ghost function Recency(h: seq<Entry>): seq<Entry> {
    if h == [] then [] else Touched(Recency(h[..|h| - 1]), h[|h| - 1].key, h[|h| - 1].at)
  }

  /** When k was last emitted. */
  ghost function LastAt(h: seq<Entry>, k: View): Option<int> {
    if h == [] then None
    else if h[|h| - 1].key == k then Some(h[|h| - 1].at)
    else LastAt(h[..|h| - 1], k)
  }

  /** k was last emitted at some time t less than a window ago. */
  ghost predicate EmittedWithin(h: seq<Entry>, k: View, now: int, window: int) {
    match LastAt(h, k) case None => false case Some(t) => now - t < window
  }

  /** The distinct keys emitted since k was last emitted. */
  ghost function Since(h: seq<Entry>, k: View): set<View> {
    if h == [] || h[|h| - 1].key == k then {} else Since(h[..|h| - 1], k) + {h[|h| - 1].key}
  }

  lemma {:induction false} RecencyFacts(h: seq<Entry>, k: View)
    ensures Distinct(Recency(h)) && Lookup(Recency(h), k) == LastAt(h, k)
  {
    if h == [] {
    } else {
      var g, e := h[..|h| - 1], h[|h| - 1];
      RecencyFacts(g, k);
      TouchedDistinct(Recency(g), e.key, e.at);
      LookupTouched(Recency(g), e.key, e.at, k);
    }
  }

  /** The entries behind k's. */
  ghost function Behind(s: seq<Entry>, k: View): seq<Entry> {
    if s == [] then [] else if s[0].key == k then s[1..] else Behind(s[1..], k)
  }

  lemma {:induction false} BehindConcat(a: seq<Entry>, b: seq<Entry>, k: View)
    ensures Behind(a + b, k) == if k in Keys(a) then Behind(a, k) + b else Behind(b, k)
  {
    if a == [] {
      assert a + b == b;
    } else {
      BehindConcat(a[1..], b, k);
      assert (a + b)[1..] == a[1..] + b;
    }
  }

  lemma {:induction false} BehindWithout(s: seq<Entry>, k: View, other: View)
    requires k != other
    ensures Behind(Without(s, other), k) == Without(Behind(s, k), other)
  {
    if s == [] {
    } else {
      BehindWithout(s[1..], k, other);
      assert ([s[0]] + Without(s[1..], other))[1..] == Without(s[1..], other);
    }
  }

  lemma {:induction false} BehindIsSince(h: seq<Entry>, k: View)
    requires LastAt(h, k).Some?
    ensures Keys(Behind(Recency(h), k)) == Since(h, k)
  {
    var g, e := h[..|h| - 1], h[|h| - 1];
    var r := Recency(g);
    RecencyFacts(g, k);
    BehindConcat(Without(r, e.key), [e], k);
    WithoutFacts(r, e.key);
    One(e);
    if e.key != k {
      BehindIsSince(g, k);
      BehindWithout(r, k, e.key);
      WithoutFacts(Behind(r, k), e.key);
      KeysConcat(Without(Behind(r, k), e.key), [e]);
    }
  }

  lemma {:induction false} DistinctCount(s: seq<Entry>)
    requires Distinct(s)
    ensures |Keys(s)| == |s|
  {
    if s == [] {
    } else {
      DistinctCount(s[1..]);
    }
  }

  lemma {:induction false} BehindFacts(s: seq<Entry>, k: View)
    requires Distinct(s) && k in Keys(s)
    ensures |Behind(s, k)| < |s| && Distinct(Behind(s, k))
  {
    if s[0].key != k { BehindFacts(s[1..], k); }
  }

  /** Being among the last n entries means having fewer than n behind. */
  lemma LastNLookup(s: seq<Entry>, k: View, n: nat)
    requires Distinct(s)
    ensures Lookup(LastN(s, n), k) ==
            if k in Keys(s) && |Behind(s, k)| < n then Lookup(s, k) else None
  {
    var t := LastN(s, n);
    var front := s[..|s| - |t|];
    assert s == front + t;
    LookupConcat(front, t, k);
    KeysConcat(front, t);
    DistinctConcat(front, t);
    BehindConcat(front, t, k);
    if k in Keys(t) { BehindFacts(t, k); }
  }

  lemma LastNConcat<T>(a: seq<T>, b: seq<T>, n: nat)
    requires |b| >= n
    ensures LastN(a + b, n) == LastN(b, n)
  {
  }

  lemma LastNTouched(s: seq<Entry>, k: View, now: int, n: nat)
    requires Distinct(s) && n >= 1
    ensures LastN(Touched(LastN(s, n), k, now), n) == LastN(Touched(s, k, now), n)
  {
    if |s| > n {
      var t, front, e := LastN(s, n), s[..|s| - n], [Entry(k, now)];
      assert s == front + t;
      WithoutConcat(front, t, k);
      DistinctConcat(front, t);
      TouchedDistinct(t, k, now);
      Sequences.Assoc(Without(front, k), Without(t, k), e);
      assert Touched(s, k, now) == Without(front, k) + Touched(t, k, now);
      LastNConcat(Without(front, k), Touched(t, k, now), n);
    }
  }

  lemma RecencySnoc(h: seq<Entry>, c: Entry)
    ensures Recency(h + [c]) == Touched(Recency(h), c.key, c.at)
  {
    assert (h + [c])[..|h|] == h;
  }

  /** A run of fallback calls in one worker: the cache, and the history of emissions. */
  function RunFallback(calls: seq<Entry>, window: int, max: nat): (seq<Entry>, seq<Entry>) {
    if calls == [] then ([], [])
    else
      var (s, h) := RunFallback(calls[..|calls| - 1], window, max);
      var c := calls[|calls| - 1];
      var (s', emit) := FallbackStep(s, c.key, c.at, window, max);
      (s', if emit then h + [c] else h)
  }

  /** After any run the cache holds the most recently emitted keys, as many as fit. */
  lemma {:induction false} CacheIsRecentPast(calls: seq<Entry>, window: int, max: nat)
    requires max >= 1
    ensures var (s, h) := RunFallback(calls, window, max);
            s == LastN(Recency(h), max) && |s| <= max
  {
    if calls == [] {
    } else {
      var front := calls[..|calls| - 1];
      CacheIsRecentPast(front, window, max);
      var (s, h) := RunFallback(front, window, max);
      var c := calls[|calls| - 1];
      RecencyFacts(h, c.key);
      if !Known(Lookup(s, c.key), c.at, window) {
        LastNTouched(Recency(h), c.key, c.at, max);
        RecencySnoc(h, c);
      }
    }
  }

  /** Exactly when a call emits: the key was never emitted, its window is over, or at least `max`
      other keys were emitted since.  Only the last clause separates the bounded cache from an
      unbounded one. */
  lemma EmitsIff(calls: seq<Entry>, k: View, now: int, window: int, max: nat)
    requires max >= 1
    ensures var (s, h) := RunFallback(calls, window, max);
            FallbackStep(s, k, now, window, max).1 <==>
            !EmittedWithin(h, k, now, window) || |Since(h, k)| >= max
  {
    var (s, h) := RunFallback(calls, window, max);
    CacheIsRecentPast(calls, window, max);
    RecencyFacts(h, k);
    LastNLookup(Recency(h), k, max);
    if LastAt(h, k).Some? {
      BehindIsSince(h, k);
      BehindFacts(Recency(h), k);
      DistinctCount(Behind(Recency(h), k));
    }
  }

  ghost predicate Ordered(s: seq<Entry>) {
    forall i, j | 0 <= i <= j < |s| :: s[i].at <= s[j].at
  }

  lemma {:induction false} WithoutOrdered(s: seq<Entry>, k: View)
    requires Ordered(s)
    ensures Ordered(Without(s, k)) && forall e | e in Without(s, k) :: e in s
  {
    if s == [] {
    } else {
      WithoutOrdered(s[1..], k);
      var r := Without(s[1..], k);
      forall i | 0 <= i < |r| ensures s[0].at <= r[i].at { assert r[i] in r; }
    }
  }

  ghost predicate NotAfter(s: seq<Entry>, now: int) { forall e | e in s :: e.at <= now }

  lemma StepOrdered(s: seq<Entry>, k: View, now: int, window: int, max: nat)
    requires Ordered(s) && NotAfter(s, now)
    ensures Ordered(FallbackStep(s, k, now, window, max).0) && NotAfter(FallbackStep(s, k, now, window, max).0, now)
  {
    WithoutOrdered(s, k);
    var r, t := Without(s, k), Touched(s, k, now);
    forall i | 0 <= i < |r| ensures r[i].at <= now { assert r[i] in r; }
    assert Ordered(t) && NotAfter(t, now);
  }

  /** With a clock that does not go back, the cache is ordered by time of last emission. */
  lemma {:induction false} CacheOrdered(calls: seq<Entry>, window: int, max: nat)
    requires Ordered(calls)
    ensures Ordered(RunFallback(calls, window, max).0)
    ensures calls != [] ==> NotAfter(RunFallback(calls, window, max).0, calls[|calls| - 1].at)
  {
    if calls == [] {
    } else {
      var front, c := calls[..|calls| - 1], calls[|calls| - 1];
      CacheOrdered(front, window, max);
      var s := RunFallback(front, window, max).0;
      if front != [] { assert front[|front| - 1].at <= c.at; }
      StepOrdered(s, c.key, c.at, window, max);
    }
  }

  // ---------------------------------------------------------------------------------------------
  // Against the unbounded throttle
  // ---------------------------------------------------------------------------------------------

  /** The emission history of a throttle that forgets nothing. */
  ghost function UnboundedHistory(calls: seq<Entry>, window: int): seq<Entry> {
    if calls == [] then []
    else
      var h := UnboundedHistory(calls[..|calls| - 1], window);
      var c := calls[|calls| - 1];
      if EmittedWithin(h, c.key, c.at, window) then h else h + [c]
  }

  /** A view that the unbounded throttle suppresses although `max` other keys were emitted since. */
  ghost predicate Overrun(h: seq<Entry>, c: Entry, window: int, max: nat) {
    EmittedWithin(h, c.key, c.at, window) && |Since(h, c.key)| >= max
  }

  ghost predicate NeverOverrun(calls: seq<Entry>, window: int, max: nat) {
    calls == [] ||
    (NeverOverrun(calls[..|calls| - 1], window, max)
     && !Overrun(UnboundedHistory(calls[..|calls| - 1], window), calls[|calls| - 1], window, max))
  }

  /** Both throttles have given the same answers throughout. */
  ghost predicate SameThroughout(calls: seq<Entry>, window: int, max: nat) {
    RunFallback(calls, window, max).1 == UnboundedHistory(calls, window)
    && (calls == [] || SameThroughout(calls[..|calls| - 1], window, max))
  }

  /** The bounded cache answers every call like the unbounded throttle exactly when no view comes
      within its window after `max` distinct other keys were emitted. */
  lemma {:induction false} AgreesWithUnboundedIff(calls: seq<Entry>, window: int, max: nat)
    requires max >= 1
    ensures SameThroughout(calls, window, max) <==> NeverOverrun(calls, window, max)
  {
    if calls == [] {
    } else {
      var front, c := calls[..|calls| - 1], calls[|calls| - 1];
      AgreesWithUnboundedIff(front, window, max);
      EmitsIff(front, c.key, c.at, window, max);
    }
  }

  lemma {:induction false} SinceWithin(h: seq<Entry>, k: View)
    ensures Since(h, k) <= Keys(h) - {k} && (LastAt(h, k).Some? ==> k in Keys(h))
  {
    if h == [] {
    } else {
      SinceWithin(h[..|h| - 1], k);
      assert h == h[..|h| - 1] + [h[|h| - 1]];
      KeysConcat(h[..|h| - 1], [h[|h| - 1]]);
      One(h[|h| - 1]);
    }
  }

  /** While no more than `max` different keys are viewed, the bounded cache emits exactly what the
      unbounded throttle emits. */
  lemma {:induction false} AgreesWithUnbounded(calls: seq<Entry>, window: int, max: nat)
    requires max >= 1 && |Keys(calls)| <= max
    ensures RunFallback(calls, window, max).1 == UnboundedHistory(calls, window)
    ensures Keys(RunFallback(calls, window, max).1) <= Keys(calls)
  {
    if calls == [] {
    } else {
      var front, c := calls[..|calls| - 1], calls[|calls| - 1];
      assert calls == front + [c];
      KeysConcat(front, [c]);
      One(c);
      Sets.SubsetSize(Keys(front), Keys(calls));
      AgreesWithUnbounded(front, window, max);
      var h := RunFallback(front, window, max).1;
      EmitsIff(front, c.key, c.at, window, max);
      SinceWithin(h, c.key);
      KeysConcat(h, [c]);
      assert c.key in Keys(calls);
      Sets.SubsetSize(Since(h, c.key), Keys(calls) - {c.key});
    }
  }
}
