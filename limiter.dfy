/**
 * The in-memory fixed-window rate limiter of src/rateLimit/limiter.js.
 * It reads and writes the per-key windows of RateLimitStore; the clock
 * reading `Date.now()` is the parameter `now`.
 */
module Limiter {
  import opened Wrappers
  import opened RateLimitTypes
  import opened RateLimitStore

  /** The bucket: the API key, or the single key that all other clients share. */
  function ClientKey(c: Client): (r: string)
    ensures c.Identified? ==> r == c.apiKey
    ensures r == "anonymous" <==> c == Anonymous || c == Identified("anonymous")
  {
    match c
    case Identified(apiKey) => apiKey
    case Anonymous => "anonymous"
  }

  /**
   * Two clients share a bucket exactly when they are the same client, or one
   * is anonymous and the other presents the API key "anonymous".
   */
  lemma SameBucketIff(a: Client, b: Client)
    ensures ClientKey(a) == ClientKey(b) <==>
      || a == b
      || (a == Anonymous && b == Identified("anonymous"))
      || (a == Identified("anonymous") && b == Anonymous)
  {
  }

  /** The decision, and the window written back (`None` when nothing is written). */
  datatype StepResult = StepResult(decision: Decision, write: Option<Window>)

  /** The decision `rateLimit` makes for a key whose stored window is `rec`. */
  function WindowStep(rec: Option<Window>, limit: int, windowMs: int, now: int): (r: StepResult)
    ensures r.decision.Allowed? <==> r.write.Some?
    ensures r.write.Some? && rec.Some? && now <= rec.value.resetAt ==>
      r.write.value == rec.value.(count := rec.value.count + 1)
  {
    if rec.None? || now > rec.value.resetAt then
      StepResult(Allowed, Some(Window(1, now + windowMs)))
    else if rec.value.count >= limit then
      StepResult(Rejected(CeilSeconds(rec.value.resetAt - now)), None)
    else
      StepResult(Allowed, Some(rec.value.(count := rec.value.count + 1)))
  }

  /** The window stored for the key after a step. */
  function Next(rec: Option<Window>, s: StepResult): Option<Window> {
    if s.write.Some? then s.write else rec
  }

  /** `rateLimit` throws when the configuration has no entry for the client type. */
  datatype LimitResult = Decided(decision: Decision) | ConfigMissing

  /** The stored window of `key`, as `get` returns it. */
  function Lookup(entries: map<string, Window>, key: string): Option<Window> {
    if key in entries then Some(entries[key]) else None
  }

  /** `rateLimit(request)`: only the request's own key is ever written. */
  method RateLimit(store: WindowStore, client: Client, limits: map<string, WindowLimit>, now: int)
    returns (r: LimitResult)
    modifies store
    ensures ClientType(client) !in limits ==> r == ConfigMissing && store.entries == old(store.entries)
    ensures ClientType(client) in limits ==>
      var cfg := limits[ClientType(client)];
      var step := WindowStep(Lookup(old(store.entries), ClientKey(client)), cfg.limit, cfg.windowMs, now);
      && r == Decided(step.decision)
      && store.entries == if step.write.Some? then old(store.entries)[ClientKey(client) := step.write.value]
                          else old(store.entries)
  {
    var clientType := ClientType(client);
    var clientKey := ClientKey(client);
    if clientType !in limits {
      return ConfigMissing;
    }
    var limit, windowMs := limits[clientType].limit, limits[clientType].windowMs;
    var record := store.Get(clientKey);
    if record.None? || now > record.value.resetAt {
      store.Set(clientKey, Window(1, now + windowMs));
      return Decided(Allowed);
    }
    if record.value.count >= limit {
      return Decided(Rejected(CeilSeconds(record.value.resetAt - now)));
    }
    var updated := record.value.(count := record.value.count + 1);
    store.Set(clientKey, updated);
    return Decided(Allowed);
  }

  /** A request that finds no live window is allowed and opens one, even with limit 0. */
  lemma NewWindowAllowed(rec: Option<Window>, limit: int, windowMs: int, now: int)
    requires rec.None? || now > rec.value.resetAt
    ensures WindowStep(rec, limit, windowMs, now) == StepResult(Allowed, Some(Window(1, now + windowMs)))
  {
  }

  /** A full window rejects and leaves the stored window as it was. */
  lemma FullWindowRejects(w: Window, limit: int, windowMs: int, now: int)
    requires now <= w.resetAt && w.count >= limit
    ensures var s := WindowStep(Some(w), limit, windowMs, now);
      s.decision == Rejected(CeilSeconds(w.resetAt - now)) && Next(Some(w), s) == Some(w)
  {
  }

  /** With a limit of at least 1, a stored count never exceeds the limit. */
  lemma CountWithinLimit(rec: Option<Window>, limit: int, windowMs: int, now: int)
    requires limit >= 1
    requires rec.Some? ==> rec.value.count <= limit
    ensures var n := Next(rec, WindowStep(rec, limit, windowMs, now));
      n.Some? && n.value.count <= limit
  {
  }

  /**
   * When the window was opened no later than `now`, a rejection asks the
   * client to wait between 0 and `ceil(windowMs / 1000)` seconds.
   */
  lemma RetryAfterBounded(w: Window, limit: int, windowMs: int, now: int)
    requires w.resetAt - windowMs <= now
    requires WindowStep(Some(w), limit, windowMs, now).decision.Rejected?
    ensures 0 <= WindowStep(Some(w), limit, windowMs, now).decision.retryAfter <= CeilSeconds(windowMs)
  {
    CeilSecondsMonotone(w.resetAt - now, windowMs);
  }

  function Min(a: int, b: int): int {
    if a < b then a else b
  }

  /** How many of the calls made at `times`, one after the other on one key, are allowed. */
  function AllowedCount(rec: Option<Window>, limit: int, windowMs: int, times: seq<int>): nat
    decreases |times|
  {
    if times == [] then 0
    else
      var s := WindowStep(rec, limit, windowMs, times[0]);
      (if s.decision.Allowed? then 1 else 0) + AllowedCount(Next(rec, s), limit, windowMs, times[1..])
  }

  /** Inside a window that already holds `count` requests, `min(n, limit - count)` more are allowed. */
  lemma {:induction false} AllowedInsideWindow(count: int, resetAt: int, limit: int, windowMs: int, times: seq<int>)
    requires 1 <= count <= limit
    requires forall i :: 0 <= i < |times| ==> times[i] <= resetAt
    ensures AllowedCount(Some(Window(count, resetAt)), limit, windowMs, times) == Min(|times|, limit - count)
    decreases |times|
  {
    if times != [] {
      var w := Window(count, resetAt);
      var s := WindowStep(Some(w), limit, windowMs, times[0]);
      if count < limit {
        assert Next(Some(w), s) == Some(Window(count + 1, resetAt));
        AllowedInsideWindow(count + 1, resetAt, limit, windowMs, times[1..]);
      } else {
        assert Next(Some(w), s) == Some(w);
        AllowedInsideWindow(count, resetAt, limit, windowMs, times[1..]);
      }
    }
  }

  /**
   * n calls on one key within one window, the first of which finds no live
   * window, are allowed exactly min(n, limit) times when limit >= 1.
   */
  lemma ExactlyMinAllowed(rec: Option<Window>, limit: int, windowMs: int, times: seq<int>)
    requires limit >= 1 && |times| >= 1
    requires rec.None? || times[0] > rec.value.resetAt
    requires forall i :: 1 <= i < |times| ==> times[i] <= times[0] + windowMs
    ensures AllowedCount(rec, limit, windowMs, times) == Min(|times|, limit)
  {
    var s := WindowStep(rec, limit, windowMs, times[0]);
    assert Next(rec, s) == Some(Window(1, times[0] + windowMs));
    var rest := times[1..];
    assert forall i :: 0 <= i < |rest| ==> rest[i] <= times[0] + windowMs by {
      forall i | 0 <= i < |rest| ensures rest[i] <= times[0] + windowMs {
        assert rest[i] == times[i + 1];
      }
    }
    AllowedInsideWindow(1, times[0] + windowMs, limit, windowMs, rest);
  }
}
