/**
 * The per-service circuit breaker of src/circuitBreaker/store.js: a
 * CLOSED/OPEN state machine per service name, kept in a dictionary that is
 * filled lazily. The clock reading `Date.now()` is the parameter `now`.
 */
module CircuitBreaker {
  import opened Wrappers

  /** Consecutive failures that open a circuit. */
  const FailureThreshold: nat := 3

  /** How long an open circuit stays open, in milliseconds. */
  const CooldownMs: int := 30000

  datatype State = Closed | Open

  datatype Circuit = Circuit(state: State, failureCount: nat, lastFailureTime: Option<int>)

  /** The record `getCircuit` creates for a service seen for the first time. */
  const Initial: Circuit := Circuit(Closed, 0, None)

  /** The two invariants every reachable circuit keeps. */
  predicate WellFormed(c: Circuit) {
    && (c.state == Open <==> c.failureCount >= FailureThreshold)
    && (c.failureCount > 0 <==> c.lastFailureTime.Some?)
  }

  /** The circuit `getCircuit(name)` yields: the stored one, or a fresh one. */
  function Current(circuits: map<string, Circuit>, name: string): Circuit {
    if name in circuits then circuits[name] else Initial
  }

  /** The circuit after `recordFailure` at time `now`. */
  function AfterFailure(c: Circuit, now: int): (r: Circuit)
    ensures r.failureCount == c.failureCount + 1 && r.lastFailureTime == Some(now)
    ensures r.state == Open <==> c.state == Open || c.failureCount + 1 >= FailureThreshold
    ensures WellFormed(c) ==> WellFormed(r)
  {
    var count := c.failureCount + 1;
    Circuit(if count >= FailureThreshold then Open else c.state, count, Some(now))
  }

  /** The answer of `isCircuitOpen` and the circuit it leaves behind. */
  datatype Check = Check(open: bool, circuit: Circuit)

  /** `Date.now() - circuit.lastFailureTime`, where `null` reads as 0. */
  function Elapsed(c: Circuit, now: int): int {
    now - c.lastFailureTime.GetOr(0)
  }

  /** The effect of `isCircuitOpen` at time `now` on one circuit. */
  function CheckOpen(c: Circuit, now: int): (r: Check)
    ensures r.open <==> c.state == Open && Elapsed(c, now) <= CooldownMs
    ensures r.open || c.state == Closed ==> r.circuit == c
    ensures !r.open && c.state == Open ==> r.circuit == Initial
    ensures WellFormed(c) ==> WellFormed(r.circuit)
  {
    if c.state == Open then
      if Elapsed(c, now) > CooldownMs then Check(false, Initial)
      else Check(true, c)
    else Check(false, c)
  }

  /**
   * The circuit dictionary. Every method fetches the service's record through
   * `GetCircuit`, which creates it on first use, and then updates it.
   */
  class CircuitRegistry {
    var circuits: map<string, Circuit>

    ghost predicate Valid()
      reads this
    {
      forall name :: name in circuits ==> WellFormed(circuits[name])
    }

    constructor ()
      ensures Valid() && circuits == map[]
    {
      circuits := map[];
    }

    /** `getCircuit`: create the record lazily, then return the stored one. */
    method GetCircuit(name: string) returns (c: Circuit)
      requires Valid()
      modifies this
      ensures Valid()
      ensures name in circuits && c == circuits[name]
      ensures c == Current(old(circuits), name)
      ensures old(name in circuits) ==> circuits == old(circuits)
      ensures circuits == old(circuits)[name := c]
    {
      if name !in circuits {
        circuits := circuits[name := Initial];
      }
      c := circuits[name];
    }

    /** `recordFailure`: one more failure, stamped with `now`. */
    method RecordFailure(name: string, now: int)
      requires Valid()
      modifies this
      ensures Valid()
      ensures circuits == old(circuits)[name := AfterFailure(Current(old(circuits), name), now)]
      ensures forall other :: other != name ==> Current(circuits, other) == Current(old(circuits), other)
    {
      var c := GetCircuit(name);
      var count := c.failureCount + 1;
      c := c.(failureCount := count, lastFailureTime := Some(now));
      if count >= FailureThreshold {
        c := c.(state := Open);
      }
      circuits := circuits[name := c];
    }

    /** `recordSuccess`: back to CLOSED with no failures, whatever came before. */
    method RecordSuccess(name: string)
      requires Valid()
      modifies this
      ensures Valid()
      ensures circuits == old(circuits)[name := Initial]
      ensures old(name in circuits && circuits[name] == Initial) ==> circuits == old(circuits)
      ensures forall other :: other != name ==> Current(circuits, other) == Current(old(circuits), other)
    {
      var c := GetCircuit(name);
      c := c.(state := Closed, failureCount := 0, lastFailureTime := None);
      circuits := circuits[name := c];
    }

    /** `isCircuitOpen`: closes an OPEN circuit whose cooldown has passed. */
    method IsCircuitOpen(name: string, now: int) returns (open: bool)
      requires Valid()
      modifies this
      ensures Valid()
      ensures open == CheckOpen(Current(old(circuits), name), now).open
      ensures circuits == old(circuits)[name := CheckOpen(Current(old(circuits), name), now).circuit]
      ensures forall other :: other != name ==> Current(circuits, other) == Current(old(circuits), other)
    {
      var c := GetCircuit(name);
      if c.state == Open {
        var elapsed := now - c.lastFailureTime.GetOr(0);
        if elapsed > CooldownMs {
          circuits := circuits[name := Initial];
          return false;
        }
        return true;
      }
      return false;
    }
  }

  /**
   * Three failures in a row, with no success between them, open any
   * well-formed circuit, and it reports open until the cooldown after the
   * last of them has passed.
   */
  lemma ThreeFailuresOpen(c: Circuit, t1: int, t2: int, t3: int, now: int)
    requires WellFormed(c)
    requires now - t3 <= CooldownMs
    ensures AfterFailure(AfterFailure(AfterFailure(c, t1), t2), t3).state == Open
    ensures CheckOpen(AfterFailure(AfterFailure(AfterFailure(c, t1), t2), t3), now).open
  {
  }

  /**
   * After the cooldown closes a circuit there is no half-open trial: the next
   * two failures leave it CLOSED, and only the third opens it again.
   */
  lemma ReopenNeedsFullThreshold(c: Circuit, t0: int, t1: int, t2: int, t3: int)
    requires WellFormed(c) && c.state == Open
    requires Elapsed(c, t0) > CooldownMs
    ensures var closed := CheckOpen(c, t0);
      && !closed.open
      && AfterFailure(closed.circuit, t1).state == Closed
      && AfterFailure(AfterFailure(closed.circuit, t1), t2).state == Closed
      && AfterFailure(AfterFailure(AfterFailure(closed.circuit, t1), t2), t3).state == Open
  {
  }
}
