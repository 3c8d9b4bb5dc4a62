/**
 Request metrics: counters and a bounded list of duration samples for each route.  When a list grows
 past its maximum, its older half is deleted in place.
 */
module Metrics {
  import opened Wrappers

  const MAX_SAMPLES := 10000
  const BUCKETS := [10, 25, 50, 100, 250, 500, 1000, 2500, 5000, 10000]

  /** Method and normalised path. */
  type Route = (string, string)

  datatype Finished = Finished(route: Route, status: int, duration: real)

  /** One sample appended, then trimmed. */
  function Trimmed(samples: seq<real>): seq<real> {
    if |samples| > MAX_SAMPLES then samples[MAX_SAMPLES / 2..] else samples
  }

  /** The list after all durations of a route have been recorded one by one. */
  ghost function Samples(ds: seq<real>): seq<real> {
    if ds == [] then [] else Trimmed(Samples(ds[..|ds| - 1]) + [ds[|ds| - 1]])
  }

  /** How many samples are kept after n requests. */
  function Kept(n: nat): nat {
    if n <= 10000 then n else 5001 + (n - 10001) % 5000
  }

  lemma KeptStep(n: nat)
    ensures Kept(n + 1) == if Kept(n) + 1 > MAX_SAMPLES then Kept(n) + 1 - 5000 else Kept(n) + 1
    ensures Kept(n) <= n && Kept(n) <= MAX_SAMPLES
  {
    if n > MAX_SAMPLES {
      var m := n - 10001;
      assert (m + 1) % 5000 == if m % 5000 == 4999 then 0 else m % 5000 + 1;
    }
  }

  /** The list is always exactly the most recent durations, as many as `Kept` says. */
  lemma {:induction false} SamplesAreMostRecent(ds: seq<real>)
    ensures Kept(|ds|) <= |ds| && Samples(ds) == ds[|ds| - Kept(|ds|)..]
  {
    KeptStep(|ds|);
    if ds == [] {
    } else {
      var n := |ds| - 1;
      SamplesAreMostRecent(ds[..n]);
      KeptStep(n);
      AppendAndTrim(ds, n - Kept(n));
    }
  }

  lemma AppendAndTrim(ds: seq<real>, from: nat)
    requires ds != [] && from <= |ds| - 1
    ensures Trimmed(ds[..|ds| - 1][from..] + [ds[|ds| - 1]]) ==
            ds[if |ds| - from > MAX_SAMPLES then from + 5000 else from..]
  {
    assert ds[..|ds| - 1][from..] + [ds[|ds| - 1]] == ds[from..];
  }

  ghost function DurationsOf(log: seq<Finished>, route: Route): seq<real> {
    if log == [] then []
    else
      DurationsOf(log[..|log| - 1], route)
      + (if log[|log| - 1].route == route then [log[|log| - 1].duration] else [])
  }

  ghost function Count(log: seq<Finished>, route: Route, status: int): nat {
    if log == [] then 0
    else
      Count(log[..|log| - 1], route, status)
      + (if log[|log| - 1].route == route && log[|log| - 1].status == status then 1 else 0)
  }

  ghost function CountErrors(log: seq<Finished>, route: Route): nat {
    if log == [] then 0
    else
      CountErrors(log[..|log| - 1], route)
      + (if log[|log| - 1].route == route && log[|log| - 1].status >= 500 then 1 else 0)
  }

  /** The request counts of statuses lo..hi-1 added up. */
  ghost function SumCounts(log: seq<Finished>, route: Route, lo: int, hi: int): nat
    decreases hi - lo
  {
    if lo >= hi then 0 else Count(log, route, lo) + SumCounts(log, route, lo + 1, hi)
  }

  lemma {:induction false} SumCountsSnoc(log: seq<Finished>, route: Route, lo: int, hi: int)
    requires log != []
    ensures var e := log[|log| - 1];
            SumCounts(log, route, lo, hi) ==
            SumCounts(log[..|log| - 1], route, lo, hi) + (if e.route == route && lo <= e.status < hi then 1 else 0)
    decreases hi - lo
  {
    if lo < hi { SumCountsSnoc(log, route, lo + 1, hi); }
  }

  /** The error count is the sum of the request counts with status 500 and above. */
  lemma {:induction false} ErrorsAreServerErrors(log: seq<Finished>, route: Route, hi: int)
    requires forall i | 0 <= i < |log| :: log[i].status < hi
    ensures CountErrors(log, route) == SumCounts(log, route, 500, hi)
  {
    if log == [] {
      NoCounts(route, 500, hi);
    } else {
      ErrorsAreServerErrors(log[..|log| - 1], route, hi);
      SumCountsSnoc(log, route, 500, hi);
    }
  }

  lemma {:induction false} NoCounts(route: Route, lo: int, hi: int)
    ensures SumCounts([], route, lo, hi) == 0
    decreases hi - lo
  {
    if lo < hi { NoCounts(route, lo + 1, hi); }
  }

  lemma LogSnoc(log: seq<Finished>, e: Finished, r: Route)
    ensures DurationsOf(log + [e], r) == DurationsOf(log, r) + if e.route == r then [e.duration] else []
    ensures forall s :: Count(log + [e], r, s) == Count(log, r, s) + if e.route == r && e.status == s then 1 else 0
  {
    assert (log + [e])[..|log|] == log;
  }

  lemma ErrorsSnoc(log: seq<Finished>, e: Finished, r: Route)
    ensures CountErrors(log + [e], r) == CountErrors(log, r) + if e.route == r && e.status >= 500 then 1 else 0
  {
    assert (log + [e])[..|log|] == log;
  }

  lemma SamplesSnoc(ds: seq<real>, d: real)
    ensures Samples(ds + [d]) == Trimmed(Samples(ds) + [d])
  {
    assert (ds + [d])[..|ds|] == ds;
  }

  function Get<K>(m: map<K, nat>, k: K): nat { if k in m then m[k] else 0 }

  function SamplesFor(m: map<Route, seq<real>>, r: Route): seq<real> { if r in m then m[r] else [] }

  ghost predicate CountsAgree(m: map<(Route, int), nat>, log: seq<Finished>) {
    forall r: Route, s: int :: Get(m, (r, s)) == Count(log, r, s)
  }

  ghost predicate ErrorsAgree(m: map<Route, nat>, log: seq<Finished>) {
    forall r: Route :: Get(m, r) == CountErrors(log, r)
  }

  ghost predicate SamplesAgree(m: map<Route, seq<real>>, log: seq<Finished>) {
    forall r: Route :: SamplesFor(m, r) == Samples(DurationsOf(log, r))
  }

  lemma CountsStep(m: map<(Route, int), nat>, log: seq<Finished>, e: Finished)
    requires CountsAgree(m, log)
    ensures CountsAgree(m[(e.route, e.status) := Get(m, (e.route, e.status)) + 1], log + [e])
  {
    var m' := m[(e.route, e.status) := Get(m, (e.route, e.status)) + 1];
    forall r: Route, s: int ensures Get(m', (r, s)) == Count(log + [e], r, s) {
      LogSnoc(log, e, r);
      assert Get(m, (r, s)) == Count(log, r, s);
    }
  }

  lemma ErrorsStep(m: map<Route, nat>, log: seq<Finished>, e: Finished)
    requires ErrorsAgree(m, log)
    ensures ErrorsAgree(if e.status >= 500 then m[e.route := Get(m, e.route) + 1] else m, log + [e])
  {
    var m' := if e.status >= 500 then m[e.route := Get(m, e.route) + 1] else m;
    forall r: Route ensures Get(m', r) == CountErrors(log + [e], r) {
      ErrorsSnoc(log, e, r);
    }
  }

  lemma SamplesStep(m: map<Route, seq<real>>, log: seq<Finished>, e: Finished)
    requires SamplesAgree(m, log)
    ensures SamplesAgree(m[e.route := Trimmed(SamplesFor(m, e.route) + [e.duration])], log + [e])
  {
    var m' := m[e.route := Trimmed(SamplesFor(m, e.route) + [e.duration])];
    forall r: Route ensures SamplesFor(m', r) == Samples(DurationsOf(log + [e], r)) {
      LogSnoc(log, e, r);
      assert SamplesFor(m, r) == Samples(DurationsOf(log, r));
      if r == e.route {
        SamplesSnoc(DurationsOf(log, r), e.duration);
      } else {
        assert DurationsOf(log, r) + [] == DurationsOf(log, r);
      }
    }
  }

  class Registry {
    var requestCounts: map<(Route, int), nat>
    var errorCounts: map<Route, nat>
    var durations: map<Route, seq<real>>
    var activeConnections: int
    ghost var started: nat
    ghost var log: seq<Finished>

    ghost predicate Valid()
      reads this
    {
      && activeConnections == started - |log|
      && CountsAgree(requestCounts, log) && ErrorsAgree(errorCounts, log) && SamplesAgree(durations, log)
    }

    constructor ()
      ensures Valid() && started == 0 && log == []
    {
      requestCounts, errorCounts, durations, activeConnections := map[], map[], map[], 0;
      started, log := 0, [];
    }

    method Start()
      requires Valid()
      modifies this
      ensures Valid() && started == old(started) + 1 && log == old(log)
    {
      activeConnections := activeConnections + 1;
      started := started + 1;
    }

    /** The `finally` block of a request; an exception counts as status 500. */
    method Finish(route: Route, response: Option<int>, duration: real)
      requires Valid()
      modifies this
      ensures Valid() && started == old(started)
      ensures log == old(log) + [Finished(route, if response.Some? then response.value else 500, duration)]
    {
      var status := if response.Some? then response.value else 500;
      ghost var e := Finished(route, status, duration);
      CountsStep(requestCounts, log, e);
      ErrorsStep(errorCounts, log, e);
      SamplesStep(durations, log, e);
      activeConnections := activeConnections - 1;
      requestCounts := requestCounts[(route, status) := Get(requestCounts, (route, status)) + 1];
      var bucket := (if route in durations then durations[route] else []) + [duration];
      if |bucket| > MAX_SAMPLES {
        bucket := bucket[MAX_SAMPLES / 2..];
      }
      durations := durations[route := bucket];
      if status >= 500 {
        errorCounts := errorCounts[route := Get(errorCounts, route) + 1];
      }
      log := log + [e];
    }
  }

  // ---------------------------------------------------------------------------------------------
  // Histogram
  // ---------------------------------------------------------------------------------------------

  ghost function AtMostCount(ds: seq<real>, b: int): nat {
    if ds == [] then 0 else AtMostCount(ds[..|ds| - 1], b) + (if ds[|ds| - 1] <= b as real then 1 else 0)
  }

  /** Cumulative counts for the bucket boundaries, then the total. */
  method Histogram(ds: seq<real>) returns (counts: seq<nat>)
    ensures |counts| == 11 && counts[10] == |ds|
    ensures forall k | 0 <= k < 10 ::
              counts[k] == AtMostCount(ds, [10, 25, 50, 100, 250, 500, 1000, 2500, 5000, 10000][k])
    ensures forall j, k | 0 <= j <= k < |counts| :: counts[j] <= counts[k]
  {
    counts := [];
    var b := 0;
    while b < |BUCKETS|
      invariant 0 <= b <= |BUCKETS| && |counts| == b
      invariant forall k | 0 <= k < b :: counts[k] == AtMostCount(ds, BUCKETS[k])
    {
      var n, i := 0, 0;
      while i < |ds|
        invariant 0 <= i <= |ds| && n == AtMostCount(ds[..i], BUCKETS[b])
      {
        assert ds[..i + 1][..i] == ds[..i];
        if ds[i] <= BUCKETS[b] as real { n := n + 1; }
        i := i + 1;
      }
      assert ds[..|ds|] == ds;
      counts := counts + [n];
      b := b + 1;
    }
    counts := counts + [|ds|];
    forall j, k | 0 <= j <= k < |counts| ensures counts[j] <= counts[k] {
      if k < |BUCKETS| {
        BucketsIncrease(j, k);
        AtMostGrows(ds, BUCKETS[j], BUCKETS[k]);
      } else if j < k {
        AtMostGrows(ds, BUCKETS[j], BUCKETS[j]);
      }
    }
  }

  lemma BucketsIncrease(j: nat, k: nat)
    requires j <= k < |BUCKETS|
    ensures BUCKETS[j] <= BUCKETS[k]
  {
  }

  lemma {:induction false} AtMostGrows(ds: seq<real>, a: int, b: int)
    requires a <= b
    ensures AtMostCount(ds, a) <= AtMostCount(ds, b) <= |ds|
  {
    if ds == [] {
    } else {
      AtMostGrows(ds[..|ds| - 1], a, b);
    }
  }
}
