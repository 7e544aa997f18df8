/**
 * The forwarding stage of src/proxy/forwarder.js (`forwardRequest`). The
 * downstream HTTP call is abstracted as the `Outcome` it would produce;
 * `checkedAt` is the clock at the circuit check and `completedAt` the clock
 * when the outcome arrives.
 */
module Forwarder {
  import opened Wrappers
  import opened Strings
  import opened CircuitBreaker
  import opened RouteResolver

  /** What the downstream call yields: a response of any status, or a thrown error. */
  datatype Outcome = Response(status: int, data: string) | NetworkError

  /** A reply body: the downstream's own data, or a gateway `{ error }` object. */
  datatype Body = Relayed(data: string) | ErrorBody(error: string)

  datatype Reply = Reply(status: int, body: Body)

  /** A circuit update the request made. */
  datatype Update = FailureRecorded | SuccessRecorded

  const Unavailable: Reply := Reply(503, ErrorBody("Service temporarily unavailable"))
  const BadGateway: Reply := Reply(502, ErrorBody("Bad Gateway"))

  /** The statuses Fastify's `reply.code` accepts; any other status makes it throw. */
  predicate ReplyableStatus(status: int) {
    100 <= status <= 599
  }

  /** `prefix.replace("/api/", "")`. */
  function ServiceName(prefix: string): (r: string)
    ensures StartsWith(prefix, "/api/") ==> r == prefix[5..]
    ensures (forall j: nat :: !OccursAt(prefix, "/api/", j)) ==> r == prefix
    ensures forall i: nat {:trigger FirstOccursAt(prefix, "/api/", i)} :: FirstOccursAt(prefix, "/api/", i) ==> r == prefix[..i] + prefix[i + 5..]
  {
    ReplaceFirst(prefix, "/api/", "")
  }

  /** `/api/<name>` names the service `<name>`. */
  lemma ServiceNameOfApiPrefix(name: string)
    ensures ServiceName("/api/" + name) == name
  {
    assert ("/api/" + name)[..5] == "/api/";
    assert ("/api/" + name)[5..] == name;
  }

  /** `${target}${url.replace(prefix, "")}`. */
  function DownstreamUrl(target: string, prefix: string, url: string): (r: string)
    ensures StartsWith(url, prefix) ==> r == target + url[|prefix|..]
    ensures (forall j: nat :: !OccursAt(url, prefix, j)) ==> r == target + url
    ensures forall i: nat {:trigger FirstOccursAt(url, prefix, i)} :: FirstOccursAt(url, prefix, i) ==> r == target + url[..i] + url[i + |prefix|..]
  {
    target + ReplaceFirst(url, prefix, "")
  }

  /** Is the outcome one that the try block calls `recordFailure` for? */
  predicate IsFailure(o: Outcome) {
    o.NetworkError? || o.status >= 500
  }

  /** Does the outcome get past `reply.code` in the try block? */
  predicate IsRelayable(o: Outcome) {
    o.Response? && ReplyableStatus(o.status)
  }

  /** The circuit after one update at time `now`. */
  function Recorded(c: Circuit, u: Update, now: int): (r: Circuit)
    ensures WellFormed(c) ==> WellFormed(r)
  {
    match u
    case FailureRecorded => AfterFailure(c, now)
    case SuccessRecorded => Initial
  }

  /** The circuit after a sequence of updates at time `now`. */
  function RecordedAll(c: Circuit, us: seq<Update>, now: int): Circuit
    decreases |us|
  {
    if us == [] then c else RecordedAll(Recorded(c, us[0], now), us[1..], now)
  }

  /**
   * The reply, the downstream URL contacted (if any), the circuit updates made
   * in order, and the service's circuit afterwards.
   */
  datatype Forwarded = Forwarded(reply: Reply, called: Option<string>, updates: seq<Update>, circuit: Circuit)

  /**
   * `forwardRequest` for a request on `url` routed to `route`, given the
   * service's circuit `c`. A response whose status `reply.code` refuses
   * throws inside the try block, so the catch block also runs: a second
   * `recordFailure` and a 502.
   */
  function Forward(c: Circuit, route: Route, url: string, checkedAt: int, completedAt: int, outcome: Outcome)
    : (f: Forwarded)
    ensures f.called.None? <==> CheckOpen(c, checkedAt).open
    ensures f.called.None? ==> f.reply == Unavailable && f.updates == [] && f.circuit == c
    ensures f.called.Some? ==> f.called.value == DownstreamUrl(route.target, route.prefix, url)
    ensures f.called.Some? ==> 1 <= |f.updates| <= 2
    ensures ReplyableStatus(f.reply.status)
    ensures WellFormed(c) ==> WellFormed(f.circuit)
  {
    var check := CheckOpen(c, checkedAt);
    if check.open then
      Forwarded(Unavailable, None, [], check.circuit)
    else
      var called := Some(DownstreamUrl(route.target, route.prefix, url));
      match outcome
      case Response(status, data) =>
        var first := if status >= 500 then FailureRecorded else SuccessRecorded;
        var afterFirst := Recorded(check.circuit, first, completedAt);
        if ReplyableStatus(status) then
          Forwarded(Reply(status, Relayed(data)), called, [first], afterFirst)
        else
          Forwarded(BadGateway, called, [first, FailureRecorded], AfterFailure(afterFirst, completedAt))
      case NetworkError =>
        Forwarded(BadGateway, called, [FailureRecorded], AfterFailure(check.circuit, completedAt))
  }

  /**
   * A request that reaches the downstream first records a failure for a 5xx
   * status or an error and a success otherwise. A response with a status in
   * 100..599 is relayed unchanged (5xx included) and nothing more happens;
   * any other outcome ends in the catch block, which records a failure and
   * replies 502, so a second update follows exactly for an out-of-range status.
   */
  lemma ForwardedOutcome(c: Circuit, route: Route, url: string, checkedAt: int, completedAt: int, outcome: Outcome)
    requires !CheckOpen(c, checkedAt).open
    ensures var f := Forward(c, route, url, checkedAt, completedAt, outcome);
      && |f.updates| >= 1
      && (f.updates[0] == FailureRecorded <==> IsFailure(outcome))
      && (|f.updates| == 2 <==> outcome.Response? && !ReplyableStatus(outcome.status))
      && (|f.updates| == 2 ==> f.updates[1] == FailureRecorded)
      && f.circuit == RecordedAll(CheckOpen(c, checkedAt).circuit, f.updates, completedAt)
      && (IsRelayable(outcome) ==> f.reply == Reply(outcome.status, Relayed(outcome.data)))
      && (!IsRelayable(outcome) ==> f.reply == BadGateway)
  {
    var f := Forward(c, route, url, checkedAt, completedAt, outcome);
    var start := CheckOpen(c, checkedAt).circuit;
    var after := Recorded(start, f.updates[0], completedAt);
    assert RecordedAll(start, f.updates, completedAt) == RecordedAll(after, f.updates[1..], completedAt);
    if |f.updates| == 2 {
      assert f.updates[1..][1..] == [];
      assert RecordedAll(after, f.updates[1..], completedAt) == AfterFailure(after, completedAt);
    } else {
      assert f.updates[1..] == [];
    }
  }

  /**
   * From a circuit without failures, three forwards whose downstream fails
   * with a network error or a 5xx status all reach the downstream, and a
   * fourth within the cooldown after the third failure is answered 503
   * without contacting it.
   */
  lemma ThreeFailuresBlockFourth(c: Circuit, route: Route, url: string,
                                 g1: int, t1: int, g2: int, t2: int, g3: int, t3: int, g4: int, t4: int,
                                 o1: Outcome, o2: Outcome, o3: Outcome, o4: Outcome)
    requires WellFormed(c) && c.failureCount == 0
    requires IsFailure(o1) && IsFailure(o2) && IsFailure(o3)
    requires !o1.Response? || ReplyableStatus(o1.status)
    requires !o2.Response? || ReplyableStatus(o2.status)
    requires !o3.Response? || ReplyableStatus(o3.status)
    requires g4 - t3 <= CooldownMs
    ensures var f1 := Forward(c, route, url, g1, t1, o1);
      var f2 := Forward(f1.circuit, route, url, g2, t2, o2);
      var f3 := Forward(f2.circuit, route, url, g3, t3, o3);
      var f4 := Forward(f3.circuit, route, url, g4, t4, o4);
      && f1.called.Some? && f2.called.Some? && f3.called.Some?
      && f4.reply == Unavailable && f4.called.None? && f4.updates == []
  {
    var f1 := Forward(c, route, url, g1, t1, o1);
    assert f1.circuit == AfterFailure(c, t1);
    var f2 := Forward(f1.circuit, route, url, g2, t2, o2);
    assert f2.circuit == AfterFailure(f1.circuit, t2);
    var f3 := Forward(f2.circuit, route, url, g3, t3, o3);
    assert f3.circuit == AfterFailure(f2.circuit, t3);
  }

  /**
   * For every failing outcome, out-of-range statuses included: from a circuit
   * without failures, when four forwards follow one another within the
   * cooldown after the first failure, the fourth is answered 503 without
   * contacting the downstream.
   */
  lemma FailuresWithinCooldownBlockFourth(c: Circuit, route: Route, url: string,
                                          g1: int, t1: int, g2: int, t2: int, g3: int, t3: int, g4: int, t4: int,
                                          o1: Outcome, o2: Outcome, o3: Outcome, o4: Outcome)
    requires WellFormed(c) && c.failureCount == 0
    requires IsFailure(o1) && IsFailure(o2) && IsFailure(o3)
    requires g1 <= t1 <= g2 <= t2 <= g3 <= t3 <= g4 && g4 - t1 <= CooldownMs
    ensures var f1 := Forward(c, route, url, g1, t1, o1);
      var f2 := Forward(f1.circuit, route, url, g2, t2, o2);
      var f3 := Forward(f2.circuit, route, url, g3, t3, o3);
      var f4 := Forward(f3.circuit, route, url, g4, t4, o4);
      f4.reply == Unavailable && f4.called.None?
  {
    var f1 := Forward(c, route, url, g1, t1, o1);
    assert f1.circuit.failureCount >= 1 && f1.circuit.lastFailureTime == Some(t1);
    var f2 := Forward(f1.circuit, route, url, g2, t2, o2);
    assert f2.circuit.failureCount >= 2 && f2.circuit.lastFailureTime == Some(t2);
    var f3 := Forward(f2.circuit, route, url, g3, t3, o3);
    if f2.circuit.state == Open {
      assert f3.circuit == f2.circuit;
    } else {
      assert f3.circuit.failureCount >= 3 && f3.circuit.lastFailureTime == Some(t3);
    }
  }

  /** `forwardRequest(request, reply)` against the shared circuit registry. */
  method ForwardRequest(registry: CircuitRegistry, route: Route, url: string, checkedAt: int, completedAt: int,
                        outcome: Outcome)
    returns (reply: Reply, called: Option<string>)
    requires registry.Valid()
    modifies registry
    ensures registry.Valid()
    ensures var serviceName := ServiceName(route.prefix);
      var f := Forward(Current(old(registry.circuits), serviceName), route, url, checkedAt, completedAt, outcome);
      && reply == f.reply && called == f.called
      && registry.circuits == old(registry.circuits)[serviceName := f.circuit]
  {
    var serviceName := ServiceName(route.prefix);
    ghost var f := Forward(Current(registry.circuits, serviceName), route, url, checkedAt, completedAt, outcome);
    var open := registry.IsCircuitOpen(serviceName, checkedAt);
    if open {
      return Unavailable, None;
    }
    called := Some(DownstreamUrl(route.target, route.prefix, url));
    assert called == f.called;
    match outcome {
      case Response(status, data) =>
        if status >= 500 {
          registry.RecordFailure(serviceName, completedAt);
        } else {
          registry.RecordSuccess(serviceName);
        }
        if ReplyableStatus(status) {
          reply := Reply(status, Relayed(data));
        } else {
          // `reply.code(status)` threw: the catch block runs
          registry.RecordFailure(serviceName, completedAt);
          reply := BadGateway;
        }
      case NetworkError =>
        registry.RecordFailure(serviceName, completedAt);
        reply := BadGateway;
    }
  }
}
