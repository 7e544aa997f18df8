/**
 * The process-wide counters of src/metrics/store.js: five named counters,
 * raised one at a time, read as a copy, and reset together.
 */
module Metrics {

  /** The counter names, in declaration order. */
  const MetricNames: seq<string> := [
    "total_requests",
    "rate_limited_requests",
    "circuit_blocked_requests",
    "downstream_failures",
    "successful_requests"
  ]

  /** The counters as declared: every name at 0. */
  function Initial(): (m: map<string, nat>)
    ensures m.Keys == set n | n in MetricNames
    ensures forall n :: n in m ==> m[n] == 0
  {
    map n | n in MetricNames :: 0
  }

  /** The counters after `increment(name)`. */
  function Incremented(m: map<string, nat>, name: string): (r: map<string, nat>)
    ensures r.Keys == m.Keys
    ensures name in m ==> r[name] == m[name] + 1
    ensures forall k :: k in m && k != name ==> r[k] == m[k]
  {
    if name in m then m[name := m[name] + 1] else m
  }

  /** The counters after `resetMetrics()`. */
  function Zeroed(m: map<string, nat>): (r: map<string, nat>)
    ensures r.Keys == m.Keys
    ensures forall k :: k in r ==> r[k] == 0
  {
    map k | k in m :: 0
  }

  class MetricsStore {
    var metrics: map<string, nat>

    /** The object keeps exactly the five declared names. */
    ghost predicate Valid()
      reads this
    {
      metrics.Keys == set n | n in MetricNames
    }

    constructor ()
      ensures Valid() && metrics == Initial()
    {
      metrics := Initial();
    }

    /** `increment(name)`: an unknown name changes nothing and adds no counter. */
    method Increment(name: string)
      requires Valid()
      modifies this
      ensures Valid()
      ensures metrics == Incremented(old(metrics), name)
    {
      if name in metrics {
        metrics := metrics[name := metrics[name] + 1];
      }
    }

    /** `getMetrics()`: a copy of the counters, independent of later changes. */
    method GetMetrics() returns (snapshot: map<string, nat>)
      requires Valid()
      ensures snapshot.Keys == set n | n in MetricNames
      ensures snapshot == metrics
    {
      snapshot := metrics;
    }

    /** `resetMetrics()`: every key of the object is set to 0, one at a time. */
    method ResetMetrics()
      requires Valid()
      modifies this
      ensures Valid()
      ensures metrics == Zeroed(old(metrics))
    {
      var keys := MetricNames;
      var i := 0;
      while i < |keys|
        invariant 0 <= i <= |keys|
        invariant metrics.Keys == old(metrics).Keys
        invariant forall j :: 0 <= j < i ==> metrics[keys[j]] == 0
        invariant forall k :: k in metrics && k !in keys[..i] ==> metrics[k] == old(metrics)[k]
      {
        metrics := metrics[keys[i] := 0];
        i := i + 1;
      }
      assert forall k :: k in metrics ==> k in keys[..i];
    }
  }

  /** Resetting twice is the same as resetting once. */
  lemma ResetIdempotent(m: map<string, nat>)
    ensures Zeroed(Zeroed(m)) == Zeroed(m)
  {
  }

  /** The store operations that do not reset. */
  datatype Op = Increment(name: string) | Snapshot

  /** The counters after a sequence of operations. */
  function Apply(m: map<string, nat>, ops: seq<Op>): map<string, nat>
    decreases |ops|
  {
    if ops == [] then m
    else
      var next := match ops[0]
        case Increment(name) => Incremented(m, name)
        case Snapshot => m;
      Apply(next, ops[1..])
  }

  /** Without a reset, no counter ever decreases and no name is added. */
  lemma {:induction false} NeverDecreases(m: map<string, nat>, ops: seq<Op>)
    ensures Apply(m, ops).Keys == m.Keys
    ensures forall k :: k in m ==> Apply(m, ops)[k] >= m[k]
    decreases |ops|
  {
    if ops != [] {
      var next := match ops[0]
        case Increment(name) => Incremented(m, name)
        case Snapshot => m;
      NeverDecreases(next, ops[1..]);
    }
  }

  /** How many of `ops` increment `name`. */
  function IncrementsOf(ops: seq<Op>, name: string): nat
    decreases |ops|
  {
    if ops == [] then 0
    else (if ops[0] == Increment(name) then 1 else 0) + IncrementsOf(ops[1..], name)
  }

  /** Each increment of a known name is counted exactly once, and snapshots count nothing. */
  lemma {:induction false} CountsIncrements(m: map<string, nat>, ops: seq<Op>, name: string)
    requires name in m
    ensures name in Apply(m, ops)
    ensures Apply(m, ops)[name] == m[name] + IncrementsOf(ops, name)
    decreases |ops|
  {
    if ops != [] {
      var next := match ops[0]
        case Increment(n) => Incremented(m, n)
        case Snapshot => m;
      CountsIncrements(next, ops[1..], name);
    }
  }
}
