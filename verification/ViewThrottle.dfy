/**
 The view throttle of a cluster: first one `SET NX EX` on the shared Valkey, and only when that gives
 no answer the worker's own cache.  Valkey may be up or down at every call, and a command may take
 effect although its reply is lost.
 */
module ViewThrottle {
  import opened Wrappers
  import opened LruThrottle
  import Text

  // ---------------------------------------------------------------------------------------------
  // Keys
  // ---------------------------------------------------------------------------------------------

  predicate Unsafe(c: char) { Text.IsSpace(c) || c == '\0' || c == ':' }

  function QuotePart(s: string): (r: string)
    ensures ':' !in r && r != ""
    ensures s != "" ==> |r| == |s| && forall i | 0 <= i < |s| :: if Unsafe(s[i]) then r[i] == '_' else r[i] == s[i]
    ensures s == "" ==> r == "_"
  {
    if s == "" then "_"
    else
      var r := seq(|s|, i requires 0 <= i < |s| => if Unsafe(s[i]) then '_' else s[i]);
      assert r[0] == r[0];
      r
  }

  function MakeKey(ns: string, v: View): string {
    ns + ":viewed:" + QuotePart(v.actor) + ":" + QuotePart(v.document)
  }

  /** Two views share a key only if both quoted parts agree: no part can spill into the other. */
  lemma MakeKeySeparates(ns: string, v: View, w: View)
    ensures MakeKey(ns, v) == MakeKey(ns, w) <==>
            QuotePart(v.actor) == QuotePart(w.actor) && QuotePart(v.document) == QuotePart(w.document)
  {
    var a, b, c, d := QuotePart(v.actor), QuotePart(v.document), QuotePart(w.actor), QuotePart(w.document);
    var head := ns + ":viewed:";
    var k, l := MakeKey(ns, v), MakeKey(ns, w);
    assert k[|head|..] == a + ":" + b && l[|head|..] == c + ":" + d;
    if k == l {
      var s := a + ":" + b;
      assert s[|a|] == ':' && s[|c|] == ':';
      forall i | 0 <= i < |a| ensures s[i] != ':' { assert s[i] == a[i]; }
      forall i | 0 <= i < |c| ensures s[i] != ':' { assert s[i] == c[i]; }
      assert a == s[..|a|] && c == s[..|c|] && b == s[|a| + 1..] && d == s[|c| + 1..];
    }
  }

  /** An id that needs no quoting. */
  predicate Clean(s: string) { s != "" && forall i | 0 <= i < |s| :: !Unsafe(s[i]) }

  /** Clean ids stand in the key as they are, so different views never share a key. */
  lemma CleanViewsKeepApart(ns: string, v: View, w: View)
    requires Clean(v.actor) && Clean(v.document) && Clean(w.actor) && Clean(w.document)
    ensures MakeKey(ns, v) == ns + ":viewed:" + v.actor + ":" + v.document
    ensures MakeKey(ns, v) == MakeKey(ns, w) <==> v == w
  {
    forall s | Clean(s) ensures QuotePart(s) == s {}
    MakeKeySeparates(ns, v, w);
  }

  // ---------------------------------------------------------------------------------------------
  // One call
  // ---------------------------------------------------------------------------------------------

  datatype Mode = Up | Down | ReplyLost

  /** `SET key .. NX EX window`: the server's keys with their expiry times, and the reply if it arrives. */
  function SetNx(keys: map<string, int>, key: string, now: int, window: int, mode: Mode)
    : (map<string, int>, Option<bool>)
  {
    if mode == Down then (keys, None)
    else
      var present := key in keys && now < keys[key];
      (if present then keys else keys[key := now + window], if mode == ReplyLost then None else Some(!present))
  }

  class Valkey {
    var keys: map<string, int>

    constructor ()
      ensures keys == map[]
    {
      keys := map[];
    }

    method SetIfAbsent(key: string, now: int, window: int, mode: Mode) returns (reply: Option<bool>)
      modifies this
      ensures (keys, reply) == SetNx(old(keys), key, now, window, mode)
    {
      if mode == Down { return None; }
      var absent := !(key in keys && now < keys[key]);
      if absent {
        keys := keys[key := now + window];
      }
      reply := if mode == ReplyLost then None else Some(absent);
    }
  }

  class Worker {
    const ns: string
    const valkey: Valkey
    const fallback: LruThrottle

    constructor (ns: string, valkey: Valkey)
      ensures this.ns == ns && this.valkey == valkey && fresh(fallback) && fallback.cache == []
    {
      this.ns, this.valkey := ns, valkey;
      fallback := new LruThrottle();
    }

    method ShouldEmitView(actor: Option<string>, document: string, window: nat, max: nat, now: int, mode: Mode)
      returns (emit: bool)
      requires max >= 1
      modifies valkey, fallback
      ensures actor.None? || actor.value == "" || document == "" || window == 0 ==>
                && emit == (actor.Some? && actor.value != "" && document != "")
                && valkey.keys == old(valkey.keys) && fallback.cache == old(fallback.cache)
      ensures actor.Some? && actor.value != "" && document != "" && window > 0 ==>
                var v := View(actor.value, document);
                var (keys, reply) := SetNx(old(valkey.keys), MakeKey(ns, v), now, window, mode);
                && valkey.keys == keys
                && (fallback.cache, emit) ==
                   if reply.Some? then (old(fallback.cache), reply.value)
                   else FallbackStep(old(fallback.cache), v, now, window, max)
    {
      if actor.None? || actor.value == "" { return false; }
      if document == "" { return false; }
      if window == 0 { return true; }
      var v := View(actor.value, document);
      var reply := valkey.SetIfAbsent(MakeKey(ns, v), now, window, mode);
      if reply.Some? { return reply.value; }
      emit := fallback.ShouldEmit(v, now, window, max);
    }
  }

  // ---------------------------------------------------------------------------------------------
  // Runs of a cluster
  // ---------------------------------------------------------------------------------------------

  datatype Cluster = Cluster(keys: map<string, int>, caches: seq<seq<Entry>>)

  datatype Call = Call(worker: nat, view: View, now: int, mode: Mode)

  /** Who answered (0 for Valkey, i + 1 for worker i's cache), and what. */
  datatype Answer = Answer(view: View, at: int, source: nat, emit: bool)

  datatype Setup = Setup(ns: string, workers: nat, window: int, max: nat)

  function ClusterStep(p: Setup, c: Cluster, call: Call): (Cluster, Answer)
    requires call.worker < |c.caches|
  {
    var (keys, reply) := SetNx(c.keys, MakeKey(p.ns, call.view), call.now, p.window, call.mode);
    match reply
    case Some(emit) => (c.(keys := keys), Answer(call.view, call.now, 0, emit))
    case None =>
      var (cache, emit) := FallbackStep(c.caches[call.worker], call.view, call.now, p.window, p.max);
      (Cluster(keys, c.caches[call.worker := cache]), Answer(call.view, call.now, call.worker + 1, emit))
  }

  ghost predicate CallsOk(p: Setup, calls: seq<Call>) {
    && (forall i | 0 <= i < |calls| :: calls[i].worker < p.workers)
    && (forall i, j | 0 <= i <= j < |calls| :: calls[i].now <= calls[j].now)
  }

  function RunCluster(p: Setup, calls: seq<Call>): (r: (Cluster, seq<Answer>))
    requires forall i | 0 <= i < |calls| :: calls[i].worker < p.workers
    ensures |r.0.caches| == p.workers && |r.1| == |calls|
  {
    if calls == [] then (Cluster(map[], seq(p.workers, _ => [])), [])
    else
      var (c, trace) := RunCluster(p, calls[..|calls| - 1]);
      var (c', a) := ClusterStep(p, c, calls[|calls| - 1]);
      (c', trace + [a])
  }

  /** The number of emissions for one view within [from, from + window). */
  function EmitsIn(trace: seq<Answer>, view: View, from: int, window: int): nat {
    if trace == [] then 0
    else
      EmitsIn(trace[..|trace| - 1], view, from, window)
      + (if Hit(trace[|trace| - 1], view, from, window) then 1 else 0)
  }

  predicate Hit(a: Answer, view: View, from: int, window: int) {
    a.emit && a.view == view && from <= a.at < from + window
  }

  /** The same, counting only one source. */
  function EmitsFrom(trace: seq<Answer>, view: View, from: int, window: int, source: nat): nat {
    if trace == [] then 0
    else EmitsFrom(trace[..|trace| - 1], view, from, window, source)
         + (if Hit(trace[|trace| - 1], view, from, window) && trace[|trace| - 1].source == source then 1 else 0)
  }

  function SumSources(trace: seq<Answer>, view: View, from: int, window: int, n: nat): nat {
    if n == 0 then 0
    else SumSources(trace, view, from, window, n - 1) + EmitsFrom(trace, view, from, window, n - 1)
  }

  lemma {:induction false} SumSourcesSnoc(trace: seq<Answer>, view: View, from: int, window: int, n: nat)
    requires trace != []
    ensures SumSources(trace, view, from, window, n) ==
            SumSources(trace[..|trace| - 1], view, from, window, n)
            + (if Hit(trace[|trace| - 1], view, from, window) && trace[|trace| - 1].source < n then 1 else 0)
  {
    if n == 0 {
    } else {
      SumSourcesSnoc(trace, view, from, window, n - 1);
    }
  }

  lemma {:induction false} EmitsBySource(trace: seq<Answer>, view: View, from: int, window: int, n: nat)
    requires forall i | 0 <= i < |trace| :: trace[i].source < n
    ensures EmitsIn(trace, view, from, window) == SumSources(trace, view, from, window, n)
  {
    if trace == [] {
      SumEmpty(view, from, window, n);
    } else {
      EmitsBySource(trace[..|trace| - 1], view, from, window, n);
      SumSourcesSnoc(trace, view, from, window, n);
    }
  }

  lemma {:induction false} SumEmpty(view: View, from: int, window: int, n: nat)
    ensures SumSources([], view, from, window, n) == 0
  {
    if n == 0 {
    } else {
      SumEmpty(view, from, window, n - 1);
    }
  }

  lemma {:induction false} SumAtMost(trace: seq<Answer>, view: View, from: int, window: int, n: nat)
    requires forall s: nat | s < n :: EmitsFrom(trace, view, from, window, s) <= 1
    ensures SumSources(trace, view, from, window, n) <= n
  {
    if n == 0 {
    } else {
      SumAtMost(trace, view, from, window, n - 1);
    }
  }

  /** Two emissions of one view by one source are a window apart. */
  ghost predicate Spaced(trace: seq<Answer>, window: int, source: nat) {
    forall i, j | 0 <= i < j < |trace| && trace[i].emit && trace[j].emit
                  && trace[i].view == trace[j].view && trace[i].source == source == trace[j].source ::
      trace[i].at + window <= trace[j].at
  }

  lemma {:induction false} SpacedMeansOne(trace: seq<Answer>, view: View, from: int, window: int, source: nat)
    requires Spaced(trace, window, source)
    ensures EmitsFrom(trace, view, from, window, source) <= 1
    ensures EmitsFrom(trace, view, from, window, source) == 1 ==>
              exists i :: 0 <= i < |trace| && Hit(trace[i], view, from, window) && trace[i].source == source
  {
    if trace == [] {
    } else {
      var n := |trace| - 1;
      var front := trace[..n];
      SpacedMeansOne(front, view, from, window, source);
      if EmitsFrom(front, view, from, window, source) == 1 {
        var i :| 0 <= i < n && Hit(front[i], view, from, window) && front[i].source == source;
        assert trace[i] == front[i];
      } else if EmitsFrom(trace, view, from, window, source) == 1 {
        assert Hit(trace[n], view, from, window) && trace[n].source == source;
      }
    }
  }

  ghost predicate DatedAnswer(a: Answer, call: Call, workers: nat) {
    a.at == call.now && a.view == call.view && a.source <= workers && (call.mode == Up ==> a.source == 0)
  }

  ghost predicate Dated(trace: seq<Answer>, calls: seq<Call>, workers: nat) {
    |trace| == |calls| && forall i | 0 <= i < |trace| :: DatedAnswer(trace[i], calls[i], workers)
  }

  lemma AnswerDated(p: Setup, c: Cluster, call: Call)
    requires call.worker < |c.caches| == p.workers
    ensures DatedAnswer(ClusterStep(p, c, call).1, call, p.workers)
  {
  }

  lemma DatedSnoc(trace: seq<Answer>, a: Answer, calls: seq<Call>, call: Call, workers: nat)
    requires Dated(trace, calls, workers) && DatedAnswer(a, call, workers)
    ensures Dated(trace + [a], calls + [call], workers)
  {
  }

  lemma {:induction false} RunDated(p: Setup, calls: seq<Call>)
    requires forall i | 0 <= i < |calls| :: calls[i].worker < p.workers
    ensures Dated(RunCluster(p, calls).1, calls, p.workers)
  {
    if calls == [] {
    } else {
      var front, call := calls[..|calls| - 1], calls[|calls| - 1];
      RunDated(p, front);
      AnswerDated(p, RunCluster(p, front).0, call);
      DatedSnoc(RunCluster(p, front).1, ClusterStep(p, RunCluster(p, front).0, call).1, front, call, p.workers);
      assert calls == front + [call];
    }
  }

  /** A key set by an emission outlives the window that starts there. */
  ghost predicate KeysRemember(p: Setup, keys: map<string, int>, trace: seq<Answer>) {
    forall i | 0 <= i < |trace| && trace[i].emit && trace[i].source == 0 ::
      KeyRemembers(keys, MakeKey(p.ns, trace[i].view), trace[i].at + p.window)
  }

  ghost predicate KeyRemembers(keys: map<string, int>, k: string, until: int) { k in keys && until <= keys[k] }

  lemma ValkeyStep(p: Setup, c: Cluster, trace: seq<Answer>, call: Call)
    requires call.worker < |c.caches| && p.window > 0
    requires KeysRemember(p, c.keys, trace) && Spaced(trace, p.window, 0)
    requires forall i | 0 <= i < |trace| :: trace[i].at <= call.now
    ensures var (c', a) := ClusterStep(p, c, call);
            KeysRemember(p, c'.keys, trace + [a]) && Spaced(trace + [a], p.window, 0)
  {
    var (c', a) := ClusterStep(p, c, call);
    var t := trace + [a];
    forall i | 0 <= i < |t| && t[i].emit && t[i].source == 0
      ensures KeyRemembers(c'.keys, MakeKey(p.ns, t[i].view), t[i].at + p.window)
    {
      if i < |trace| { assert KeyRemembers(c.keys, MakeKey(p.ns, trace[i].view), trace[i].at + p.window); }
    }
    forall i | 0 <= i < |trace| && trace[i].emit && a.emit && trace[i].view == a.view
               && trace[i].source == 0 == a.source
      ensures trace[i].at + p.window <= a.at
    {
      assert KeyRemembers(c.keys, MakeKey(p.ns, trace[i].view), trace[i].at + p.window);
    }
  }

  /** Valkey's own answers are spaced, whatever the workers' caches do. */
  lemma {:induction false} ValkeySpaced(p: Setup, calls: seq<Call>)
    requires CallsOk(p, calls) && p.window > 0
    ensures KeysRemember(p, RunCluster(p, calls).0.keys, RunCluster(p, calls).1)
    ensures Spaced(RunCluster(p, calls).1, p.window, 0)
  {
    if calls == [] {
    } else {
      var front, call := calls[..|calls| - 1], calls[|calls| - 1];
      ValkeySpaced(p, front);
      RunDated(p, front);
      var (c, trace) := RunCluster(p, front);
      forall i | 0 <= i < |trace| ensures trace[i].at <= call.now { assert DatedAnswer(trace[i], calls[i], p.workers); }
      ValkeyStep(p, c, trace, call);
    }
  }

  /** While every call for a view reaches Valkey, at most one emission of it falls into any window. */
  lemma AtMostOneWhileUp(p: Setup, calls: seq<Call>, view: View, from: int)
    requires CallsOk(p, calls) && p.window > 0
    requires forall i | 0 <= i < |calls| && calls[i].view == view && from <= calls[i].now < from + p.window ::
               calls[i].mode == Up
    ensures EmitsIn(RunCluster(p, calls).1, view, from, p.window) <= 1
  {
    var trace := RunCluster(p, calls).1;
    ValkeySpaced(p, calls);
    RunDated(p, calls);
    SpacedMeansOne(trace, view, from, p.window, 0);
    OnlySource(trace, view, from, p.window, 0);
  }

  lemma {:induction false} OnlySource(trace: seq<Answer>, view: View, from: int, window: int, source: nat)
    requires forall i | 0 <= i < |trace| && Hit(trace[i], view, from, window) :: trace[i].source == source
    ensures EmitsIn(trace, view, from, window) == EmitsFrom(trace, view, from, window, source)
  {
    if trace == [] {
    } else {
      OnlySource(trace[..|trace| - 1], view, from, window, source);
    }
  }

  /** The call makes the worker's cache drop its oldest entry. */
  ghost predicate Evicts(p: Setup, c: Cluster, call: Call)
    requires call.worker < |c.caches|
  {
    var (_, a) := ClusterStep(p, c, call);
    a.source > 0 && a.emit && |Touched(c.caches[call.worker], call.view, call.now)| > p.max
  }

  ghost predicate NoEviction(p: Setup, calls: seq<Call>)
    requires forall i | 0 <= i < |calls| :: calls[i].worker < p.workers
  {
    calls == [] ||
    (NoEviction(p, calls[..|calls| - 1]) && !Evicts(p, RunCluster(p, calls[..|calls| - 1]).0, calls[|calls| - 1]))
  }

  /** What a worker's cache knows of its own emissions, as long as nothing is evicted. */
  ghost predicate CacheRemembers(cache: seq<Entry>, trace: seq<Answer>, source: nat) {
    && Distinct(cache)
    && forall i | 0 <= i < |trace| && trace[i].emit && trace[i].source == source :: RemembersOne(cache, trace[i])
  }

  ghost predicate RemembersOne(cache: seq<Entry>, a: Answer) {
    Lookup(cache, a.view).Some? && a.at <= Lookup(cache, a.view).value
  }

  /** A fallback step without eviction only adds to what the cache knows. */
  lemma FallbackRemembers(s: seq<Entry>, k: View, now: int, window: int, max: nat)
    requires Distinct(s) && (Known(Lookup(s, k), now, window) || |Touched(s, k, now)| <= max)
    ensures var (s', emit) := FallbackStep(s, k, now, window, max);
            && Distinct(s')
            && (emit ==> Lookup(s', k) == Some(now)
                         && (Lookup(s, k).Some? ==> Lookup(s, k).value + window <= now))
            && forall x | x != k :: Lookup(s', x) == Lookup(s, x)
    ensures !FallbackStep(s, k, now, window, max).1 ==> FallbackStep(s, k, now, window, max).0 == s
  {
    var t := Touched(s, k, now);
    TouchedDistinct(s, k, now);
    forall x ensures Lookup(t, x) == if x == k then Some(now) else Lookup(s, x) { LookupTouched(s, k, now, x); }
  }

  /** A worker's own answers are spaced as long as no entry is evicted. */
  lemma {:induction false} WorkerSpaced(p: Setup, calls: seq<Call>, worker: nat)
    requires CallsOk(p, calls) && worker < p.workers && NoEviction(p, calls)
    ensures CacheRemembers(RunCluster(p, calls).0.caches[worker], RunCluster(p, calls).1, worker + 1)
    ensures Spaced(RunCluster(p, calls).1, p.window, worker + 1)
  {
    if calls == [] {
    } else {
      var front, call := calls[..|calls| - 1], calls[|calls| - 1];
      WorkerSpaced(p, front, worker);
      RunDated(p, front);
      var (c, trace) := RunCluster(p, front);
      forall i | 0 <= i < |trace| ensures trace[i].at <= call.now { assert DatedAnswer(trace[i], calls[i], p.workers); }
      WorkerStep(p, c, trace, call, worker);
    }
  }

  lemma WorkerStep(p: Setup, c: Cluster, trace: seq<Answer>, call: Call, worker: nat)
    requires call.worker < |c.caches| && worker < |c.caches| && !Evicts(p, c, call)
    requires CacheRemembers(c.caches[worker], trace, worker + 1) && Spaced(trace, p.window, worker + 1)
    requires forall i | 0 <= i < |trace| :: trace[i].at <= call.now
    ensures var (c', a) := ClusterStep(p, c, call);
            CacheRemembers(c'.caches[worker], trace + [a], worker + 1)
            && Spaced(trace + [a], p.window, worker + 1)
  {
    var (c', a) := ClusterStep(p, c, call);
    var cache := c.caches[worker];
    if a.source == worker + 1 { FallbackRemembers(cache, call.view, call.now, p.window, p.max); }
    var t := trace + [a];
    forall i | 0 <= i < |t| && t[i].emit && t[i].source == worker + 1 ensures RemembersOne(c'.caches[worker], t[i]) {
      if i < |trace| { assert RemembersOne(cache, trace[i]); }
    }
    forall i | 0 <= i < |trace| && trace[i].emit && a.emit && trace[i].view == a.view
               && trace[i].source == worker + 1 == a.source
      ensures trace[i].at + p.window <= a.at
    {
      assert RemembersOne(cache, trace[i]);
    }
  }

  /** With N workers, Valkey going up and down at will, and no eviction, at most N + 1 emissions of one
      view fall into any interval of window length. */
  lemma AtMostOnePerSource(p: Setup, calls: seq<Call>, view: View, from: int)
    requires CallsOk(p, calls) && p.window > 0 && NoEviction(p, calls)
    ensures EmitsIn(RunCluster(p, calls).1, view, from, p.window) <= p.workers + 1
  {
    var trace := RunCluster(p, calls).1;
    forall s: nat | s < p.workers + 1 ensures Spaced(trace, p.window, s) {
      if s == 0 { ValkeySpaced(p, calls); } else { WorkerSpaced(p, calls, s - 1); }
    }
    RunDated(p, calls);
    SpacedMeansFew(trace, view, from, p.window, p.workers + 1);
  }

  lemma SpacedMeansFew(trace: seq<Answer>, view: View, from: int, window: int, n: nat)
    requires forall s: nat | s < n :: Spaced(trace, window, s)
    requires forall i | 0 <= i < |trace| :: trace[i].source < n
    ensures EmitsIn(trace, view, from, window) <= n
  {
    forall s: nat | s < n ensures EmitsFrom(trace, view, from, window, s) <= 1 {
      SpacedMeansOne(trace, view, from, window, s);
    }
    EmitsBySource(trace, view, from, window, n);
    SumAtMost(trace, view, from, window, n);
  }

  // ---------------------------------------------------------------------------------------------
  // Exactly which calls emit
  // ---------------------------------------------------------------------------------------------

  /** A call as Valkey sees it: whether it claims its key. */
  datatype Mark = Mark(key: string, at: int, claims: bool)

  /** No claim of the key lies less than a window before. */
  ghost predicate Free(marks: seq<Mark>, key: string, now: int, window: int) {
    forall j | 0 <= j < |marks| && marks[j].claims && marks[j].key == key :: now - marks[j].at >= window
  }

  /** A call claims its key when it reaches Valkey and the key is free. */
  ghost function Marks(p: Setup, calls: seq<Call>): (marks: seq<Mark>)
    ensures |marks| == |calls|
  {
    if calls == [] then []
    else
      var before, call := Marks(p, calls[..|calls| - 1]), calls[|calls| - 1];
      var key := MakeKey(p.ns, call.view);
      before + [Mark(key, call.now, call.mode != Down && Free(before, key, call.now, p.window))]
  }

  /** The keys Valkey holds are the claimed ones, each until a window after its last claim. */
  ghost predicate KeysAreClaims(marks: seq<Mark>, keys: map<string, int>, window: int) {
    && (forall k | k in keys :: exists j: nat :: ClaimUntil(marks, j, k, keys[k], window))
    && (forall j | 0 <= j < |marks| && marks[j].claims :: KeyRemembers(keys, marks[j].key, marks[j].at + window))
  }

  ghost predicate ClaimUntil(marks: seq<Mark>, j: nat, key: string, until: int, window: int) {
    j < |marks| && marks[j].claims && marks[j].key == key && marks[j].at + window == until
  }

  lemma ClaimStep(marks: seq<Mark>, keys: map<string, int>, key: string, now: int, window: int, mode: Mode)
    requires KeysAreClaims(marks, keys, window) && window > 0
    ensures var m := Mark(key, now, mode != Down && Free(marks, key, now, window));
            var (keys', reply) := SetNx(keys, key, now, window, mode);
            && KeysAreClaims(marks + [m], keys', window)
            && reply == if mode == Up then Some(m.claims) else None
  {
    var m := Mark(key, now, mode != Down && Free(marks, key, now, window));
    var keys', all := SetNx(keys, key, now, window, mode).0, marks + [m];
    if key in keys && now < keys[key] {
      var j: nat :| ClaimUntil(marks, j, key, keys[key], window);
      assert !Free(marks, key, now, window);
    } else {
      forall j | 0 <= j < |marks| && marks[j].claims && marks[j].key == key ensures now - marks[j].at >= window {
        assert KeyRemembers(keys, key, marks[j].at + window);
      }
    }
    forall k | k in keys' ensures exists j: nat :: ClaimUntil(all, j, k, keys'[k], window) {
      if k in keys && keys'[k] == keys[k] {
        var j: nat :| ClaimUntil(marks, j, k, keys[k], window);
        assert ClaimUntil(all, j, k, keys'[k], window);
      } else {
        assert ClaimUntil(all, |marks|, k, keys'[k], window);
      }
    }
    forall j | 0 <= j < |all| && all[j].claims ensures KeyRemembers(keys', all[j].key, all[j].at + window) {
      if j < |marks| { assert KeyRemembers(keys, marks[j].key, marks[j].at + window); }
    }
  }

  /** A call that gets Valkey's reply emits exactly when it claims its key; a call that gets none is
      answered by its own worker. */
  ghost predicate AnswersAreClaims(calls: seq<Call>, marks: seq<Mark>, trace: seq<Answer>)
    requires |calls| == |marks| == |trace|
  {
    forall i | 0 <= i < |calls| :: AnswerIsClaim(calls[i], marks[i], trace[i])
  }

  ghost predicate AnswerIsClaim(call: Call, m: Mark, a: Answer) {
    if call.mode == Up then a.source == 0 && (a.emit <==> m.claims) else a.source == call.worker + 1
  }

  lemma {:induction false} ReplyIsClaim(p: Setup, calls: seq<Call>)
    requires (forall i | 0 <= i < |calls| :: calls[i].worker < p.workers) && p.window > 0
    ensures KeysAreClaims(Marks(p, calls), RunCluster(p, calls).0.keys, p.window)
    ensures AnswersAreClaims(calls, Marks(p, calls), RunCluster(p, calls).1)
  {
    if calls == [] {
    } else {
      var front, call := calls[..|calls| - 1], calls[|calls| - 1];
      assert calls == front + [call];
      ReplyIsClaim(p, front);
      RunClusterSnoc(p, front, call);
      MarksSnoc(p, front, call);
      ReplyStep(p, front, call);
    }
  }

  lemma MarksSnoc(p: Setup, calls: seq<Call>, call: Call)
    ensures var key := MakeKey(p.ns, call.view);
            var m := Mark(key, call.now, call.mode != Down && Free(Marks(p, calls), key, call.now, p.window));
            Marks(p, calls + [call]) == Marks(p, calls) + [m]
  {
    assert (calls + [call])[..|calls|] == calls;
  }

  lemma ReplyStep(p: Setup, calls: seq<Call>, call: Call)
    requires (forall i | 0 <= i < |calls| :: calls[i].worker < p.workers) && call.worker < p.workers && p.window > 0
    requires KeysAreClaims(Marks(p, calls), RunCluster(p, calls).0.keys, p.window)
    requires AnswersAreClaims(calls, Marks(p, calls), RunCluster(p, calls).1)
    ensures var (c, trace) := RunCluster(p, calls);
            var (c', a) := ClusterStep(p, c, call);
            var key := MakeKey(p.ns, call.view);
            var m := Mark(key, call.now, call.mode != Down && Free(Marks(p, calls), key, call.now, p.window));
            && KeysAreClaims(Marks(p, calls) + [m], c'.keys, p.window)
            && AnswersAreClaims(calls + [call], Marks(p, calls) + [m], trace + [a])
  {
    var c, marks, key := RunCluster(p, calls).0, Marks(p, calls), MakeKey(p.ns, call.view);
    var m := Mark(key, call.now, call.mode != Down && Free(marks, key, call.now, p.window));
    ClaimStep(marks, c.keys, key, call.now, p.window, call.mode);
    AnswerStep(p, c, call, m);
    AnswersSnoc(calls, marks, RunCluster(p, calls).1, call, m, ClusterStep(p, c, call).1);
  }

  lemma AnswerStep(p: Setup, c: Cluster, call: Call, m: Mark)
    requires call.worker < |c.caches|
    requires SetNx(c.keys, MakeKey(p.ns, call.view), call.now, p.window, call.mode).1
          == if call.mode == Up then Some(m.claims) else None
    ensures AnswerIsClaim(call, m, ClusterStep(p, c, call).1)
    ensures ClusterStep(p, c, call).0.keys
         == SetNx(c.keys, MakeKey(p.ns, call.view), call.now, p.window, call.mode).0
  {
  }

  lemma AnswersSnoc(calls: seq<Call>, marks: seq<Mark>, trace: seq<Answer>, call: Call, m: Mark, a: Answer)
    requires |calls| == |marks| == |trace| && AnswersAreClaims(calls, marks, trace) && AnswerIsClaim(call, m, a)
    ensures AnswersAreClaims(calls + [call], marks + [m], trace + [a])
  {
  }

  /** In particular a call whose key nobody brought to Valkey within the last window does emit. */
  lemma EmitsWhenDue(p: Setup, calls: seq<Call>, call: Call)
    requires (forall i | 0 <= i < |calls| :: calls[i].worker < p.workers) && call.worker < p.workers
    requires p.window > 0 && call.mode == Up
    requires forall j | 0 <= j < |calls| && calls[j].mode != Down
                        && MakeKey(p.ns, calls[j].view) == MakeKey(p.ns, call.view) ::
               call.now - calls[j].now >= p.window
    ensures ClusterStep(p, RunCluster(p, calls).0, call).1.emit
  {
    ReplyIsClaim(p, calls);
    var marks, key := Marks(p, calls), MakeKey(p.ns, call.view);
    MarksAreCalls(p, calls);
    forall j | 0 <= j < |marks| && marks[j].claims && marks[j].key == key ensures call.now - marks[j].at >= p.window {
      assert MarkOf(p, marks[j], calls[j]);
    }
    ClaimStep(marks, RunCluster(p, calls).0.keys, key, call.now, p.window, call.mode);
  }

  ghost predicate MarkOf(p: Setup, m: Mark, call: Call) {
    m.key == MakeKey(p.ns, call.view) && m.at == call.now && (m.claims ==> call.mode != Down)
  }

  lemma {:induction false} MarksAreCalls(p: Setup, calls: seq<Call>)
    ensures forall j | 0 <= j < |calls| :: MarkOf(p, Marks(p, calls)[j], calls[j])
  {
    if calls == [] {
    } else {
      var front, call := calls[..|calls| - 1], calls[|calls| - 1];
      assert calls == front + [call];
      MarksAreCalls(p, front);
      MarksSnoc(p, front, call);
    }
  }

  /** A worker's cache holds nothing but its own emissions. */
  ghost predicate CacheFrom(cache: seq<Entry>, trace: seq<Answer>, source: nat) {
    forall v | Lookup(cache, v).Some? :: EverEmitted(trace, source, v, Lookup(cache, v).value)
  }

  ghost predicate EverEmitted(trace: seq<Answer>, source: nat, view: View, at: int) {
    exists j: nat :: EmittedAt(trace, j, source, view, at)
  }

  ghost predicate EmittedAt(trace: seq<Answer>, j: nat, source: nat, view: View, at: int) {
    j < |trace| && trace[j].emit && trace[j].source == source && trace[j].view == view && trace[j].at == at
  }

  /** No emission of the view by the source lies less than a window before. */
  ghost predicate Due(trace: seq<Answer>, source: nat, view: View, now: int, window: int) {
    forall j | 0 <= j < |trace| && trace[j].emit && trace[j].source == source && trace[j].view == view ::
      now - trace[j].at >= window
  }

  lemma CacheFromStep(p: Setup, c: Cluster, trace: seq<Answer>, call: Call, worker: nat)
    requires call.worker < |c.caches| && worker < |c.caches| && !Evicts(p, c, call)
    requires Distinct(c.caches[worker]) && CacheFrom(c.caches[worker], trace, worker + 1)
    ensures var (c', a) := ClusterStep(p, c, call); CacheFrom(c'.caches[worker], trace + [a], worker + 1)
  {
    var (c', a) := ClusterStep(p, c, call);
    var cache, cache' := c.caches[worker], c'.caches[worker];
    if a.source == worker + 1 { FallbackRemembers(cache, call.view, call.now, p.window, p.max); }
    forall v | Lookup(cache', v).Some?
      ensures EverEmitted(trace + [a], worker + 1, v, Lookup(cache', v).value)
    {
      if Lookup(cache', v) == Lookup(cache, v) {
        var j: nat :| EmittedAt(trace, j, worker + 1, v, Lookup(cache, v).value);
        assert EmittedAt(trace + [a], j, worker + 1, v, Lookup(cache', v).value);
      } else {
        assert EmittedAt(trace + [a], |trace|, worker + 1, v, Lookup(cache', v).value);
      }
    }
  }

  lemma {:induction false} WorkerCacheFrom(p: Setup, calls: seq<Call>, worker: nat)
    requires CallsOk(p, calls) && worker < p.workers && NoEviction(p, calls)
    ensures CacheFrom(RunCluster(p, calls).0.caches[worker], RunCluster(p, calls).1, worker + 1)
  {
    if calls == [] {
    } else {
      var front, call := calls[..|calls| - 1], calls[|calls| - 1];
      WorkerCacheFrom(p, front, worker);
      WorkerSpaced(p, front, worker);
      CacheFromStep(p, RunCluster(p, front).0, RunCluster(p, front).1, call, worker);
    }
  }

  /** Without eviction, a call that gets no reply from Valkey emits exactly when its own worker's cache
      has not emitted the view less than a window before. */
  lemma WorkerEmitsIff(p: Setup, calls: seq<Call>, call: Call)
    requires CallsOk(p, calls) && call.worker < p.workers && NoEviction(p, calls) && call.mode != Up
    ensures var (c, trace) := RunCluster(p, calls);
            ClusterStep(p, c, call).1.emit <==> Due(trace, call.worker + 1, call.view, call.now, p.window)
  {
    WorkerCacheFrom(p, calls, call.worker);
    WorkerSpaced(p, calls, call.worker);
    var (c, trace) := RunCluster(p, calls);
    KnownIff(c.caches[call.worker], trace, call.worker + 1, call.view, call.now, p.window);
  }

  lemma KnownIff(cache: seq<Entry>, trace: seq<Answer>, source: nat, view: View, now: int, window: int)
    requires CacheRemembers(cache, trace, source) && CacheFrom(cache, trace, source)
    ensures Known(Lookup(cache, view), now, window) <==> !Due(trace, source, view, now, window)
  {
    if !Due(trace, source, view, now, window) {
      var j :| 0 <= j < |trace| && trace[j].emit && trace[j].source == source && trace[j].view == view
               && now - trace[j].at < window;
      assert RemembersOne(cache, trace[j]);
    }
    if Known(Lookup(cache, view), now, window) {
      assert EverEmitted(trace, source, view, Lookup(cache, view).value);
      var j: nat :| EmittedAt(trace, j, source, view, Lookup(cache, view).value);
    }
  }

  // ---------------------------------------------------------------------------------------------
  // The bound is reached
  // ---------------------------------------------------------------------------------------------

  lemma RunClusterSnoc(p: Setup, calls: seq<Call>, call: Call)
    requires call.worker < p.workers && forall i | 0 <= i < |calls| :: calls[i].worker < p.workers
    ensures var (c, trace) := RunCluster(p, calls);
            var (c', a) := ClusterStep(p, c, call);
            RunCluster(p, calls + [call]) == (c', trace + [a])
    ensures NoEviction(p, calls) && !Evicts(p, RunCluster(p, calls).0, call) ==> NoEviction(p, calls + [call])
  {
    assert (calls + [call])[..|calls|] == calls;
  }

  /** n emissions so far, all of them at `now`; the sources from n on have not been asked yet. */
  ghost predicate OncePerSource(p: Setup, view: View, now: int, calls: seq<Call>, n: nat) {
    && (forall k | 0 <= k < |calls| :: calls[k].worker < p.workers && calls[k].now == now && calls[k].view == view)
    && NoEviction(p, calls)
    && EmitsIn(RunCluster(p, calls).1, view, now, p.window) == n
    && (n == 0 ==> RunCluster(p, calls).0.keys == map[])
    && forall w | (if n == 0 then 0 else n - 1) <= w < p.workers :: RunCluster(p, calls).0.caches[w] == []
  }

  lemma EmitOnceMore(p: Setup, view: View, now: int, calls: seq<Call>, n: nat, call: Call)
    requires n <= p.workers && 0 < p.workers && p.window > 0 && p.max >= 1 && OncePerSource(p, view, now, calls, n)
    requires call == if n == 0 then Call(0, view, now, Up) else Call(n - 1, view, now, Down)
    ensures OncePerSource(p, view, now, calls + [call], n + 1)
  {
    var (c, trace) := RunCluster(p, calls);
    RunClusterSnoc(p, calls, call);
    FreshSourceEmits(p, c, call, n);
    OneMore(trace, ClusterStep(p, c, call).1, view, now, p.window);
  }

  /** N + 1 emissions of one view in a single instant are possible: one call reaches Valkey, then
      every worker sees the view once while Valkey is down. */
  lemma BoundReached(p: Setup, view: View, now: int) returns (calls: seq<Call>)
    requires 0 < p.workers && p.window > 0 && p.max >= 1
    ensures CallsOk(p, calls) && NoEviction(p, calls)
    ensures EmitsIn(RunCluster(p, calls).1, view, now, p.window) == p.workers + 1
  {
    calls := [];
    for i := 0 to p.workers + 1
      invariant OncePerSource(p, view, now, calls, i)
    {
      var call := if i == 0 then Call(0, view, now, Up) else Call(i - 1, view, now, Down);
      EmitOnceMore(p, view, now, calls, i, call);
      calls := calls + [call];
    }
  }

  lemma FreshSourceEmits(p: Setup, c: Cluster, call: Call, n: nat)
    requires call.worker < |c.caches|
    requires if n == 0 then c.keys == map[] && call.mode == Up
             else call.mode == Down && call.worker == n - 1 && c.caches[n - 1] == []
    ensures var (c', a) := ClusterStep(p, c, call);
            && a.emit && a.view == call.view && a.at == call.now
            && (p.max >= 1 ==> !Evicts(p, c, call))
            && forall w | n <= w < |c.caches| :: c'.caches[w] == c.caches[w]
  {
  }

  lemma OneMore(trace: seq<Answer>, a: Answer, view: View, now: int, window: int)
    requires a.emit && a.view == view && a.at == now && window > 0
    ensures EmitsIn(trace + [a], view, now, window) == EmitsIn(trace, view, now, window) + 1
  {
    assert (trace + [a])[..|trace|] == trace;
  }
}
