# API gateway guards and routing, modelled in Dafny

This project models the stateful guards and the routing decisions of a small
Node.js API gateway:

- the per-service **circuit breaker** registry (CLOSED/OPEN, threshold 3, cooldown 30 000 ms);
- the in-memory **fixed-window rate limiter** and the `Map` it keeps its windows in;
- the **Redis-backed rate limiter**: its Lua script (INCR, PEXPIRE on the first
  hit, PTTL) as one atomic step on a key -> (count, expiry) store, the bucket
  key derivation, the `count > limit` decision and fail-open;
- the **metrics store**: five named counters with increment, snapshot and reset;
- the **route resolver**: first-match prefix lookup in an ordered route table;
- the **forwarder**: service name derivation, the circuit gate, the path rewrite,
  and how a downstream outcome becomes a circuit update and a reply;
- the Redis client's **reconnect backoff**.

The clock (`Date.now()`) is an integer parameter `now`. The downstream HTTP
call is an input `Outcome` (`Response(status, data)` or `NetworkError`), and a
Redis call's ending is the input `StoreCall`: it replied, it failed before
the script ran, or it failed after the script ran (the reply was lost). State that the source
keeps in module-level objects is a class per store (`CircuitRegistry`,
`WindowStore`, `ScriptStore`, `MetricsStore`) whose methods are specified by
pure functions (`AfterFailure`, `CheckOpen`, `WindowStep`, `Script`,
`Incremented`, `Zeroed`, `Forward`); the lemmas are stated about those functions.

Files: `wrappers.dfy` (Option), `strings.dfy` (JavaScript `startsWith`,
`indexOf`, first-occurrence `replace`), `circuit_breaker.dfy`,
`rate_limit_types.dfy`, `rate_limit_store.dfy`, `limiter.dfy`,
`redis_limiter.dfy`, `metrics.dfy`, `route_resolver.dfy`, `forwarder.dfy`,
`redis_client.dfy`.

The model follows the code on points where a reader might expect otherwise:

- Routing is first match in table order, not longest match.
- The in-memory limiter puts every anonymous client in the one bucket
  `"anonymous"`; only the Redis limiter keys anonymous clients by address.
- The forwarder increments no metrics counters.
- A downstream status outside 100..599 makes `reply.code` throw inside the
  try block, so the catch block records a second failure and replies 502.
- A circuit is OPEN exactly when its failure count is at least 3. The cooldown
  does not close it by itself: only the next `isCircuitOpen` call does.

## Model

| member | source | states |
|---|---|---|
| CircuitBreaker.AfterFailure | src/circuitBreaker/store.js:28-37 | failureCount rises by exactly 1, lastFailureTime becomes now, the state becomes OPEN when the new count reaches 3 and is otherwise unchanged; both circuit invariants are preserved |
| CircuitBreaker.CheckOpen | src/circuitBreaker/store.js:54-72 | open iff the circuit is OPEN and at most 30000 ms have elapsed (exactly 30000 still counts as open); a CLOSED or still-open circuit is left unchanged; an OPEN circuit past its cooldown is reset to CLOSED/0/null; invariants preserved |
| CircuitBreaker.CircuitRegistry.constructor | src/circuitBreaker/store.js:10 | the registry starts with no circuits and satisfies its invariant |
| CircuitBreaker.CircuitRegistry.GetCircuit | src/circuitBreaker/store.js:13-23 | creates a CLOSED/0/null circuit on first use, later calls return the stored record and change nothing |
| CircuitBreaker.CircuitRegistry.RecordFailure | src/circuitBreaker/store.js:28-37 | replaces only this service's circuit by AfterFailure of it; every other service is unchanged; the invariant "OPEN iff count >= 3, count > 0 iff lastFailureTime set" is kept |
| CircuitBreaker.CircuitRegistry.RecordSuccess | src/circuitBreaker/store.js:43-49 | sets this service's circuit to CLOSED/0/null from any prior state, every other service unchanged; on a circuit already CLOSED/0/null it changes nothing, so a second call is a no-op (idempotent) |
| CircuitBreaker.CircuitRegistry.IsCircuitOpen | src/circuitBreaker/store.js:54-72 | answers and updates as CheckOpen on this service only; the invariant is kept |
| CircuitBreaker.ThreeFailuresOpen | src/circuitBreaker/store.js:28-68 | three failures in a row open any well-formed circuit, and it reports open while at most 30000 ms have passed since the last |
| CircuitBreaker.ReopenNeedsFullThreshold | src/circuitBreaker/store.js:28-68 | after the cooldown closes an open circuit there is no half-open state: two further failures leave it CLOSED, the third reopens it |
| RateLimitTypes.CeilSeconds | src/rateLimit/limiter.js:28 | the result is the ceiling of ms/1000: (s-1)*1000 < ms <= s*1000 |
| RateLimitStore.WindowStore.constructor | src/rateLimit/store.js:1 | a new store has no key, so get on a never-set key is absent |
| RateLimitStore.WindowStore.Get | src/rateLimit/store.js:3-5 | returns the value stored for the key, and absent iff the key was never set |
| RateLimitStore.WindowStore.Set | src/rateLimit/store.js:7-9 | the key now maps to the new value (replacing any earlier one) and every other key keeps its value or stays absent |
| Limiter.ClientKey | src/rateLimit/limiter.js:7-10 | an identified client is keyed by its API key; the key is "anonymous" exactly for anonymous clients and for the API key "anonymous" |
| Limiter.SameBucketIff | src/rateLimit/limiter.js:7-10 | two clients share a bucket iff they are the same client, or one is anonymous and the other's API key is "anonymous"; all anonymous callers share one bucket |
| Limiter.WindowStep | src/rateLimit/limiter.js:17-35 | a request is allowed iff a window is written back; inside a live window the write is the stored window with count + 1 |
| Limiter.RateLimit | src/rateLimit/limiter.js:5-36 | decides as WindowStep on the client's own bucket and writes only that key; a client type missing from the configuration throws and writes nothing |
| Limiter.NewWindowAllowed | src/rateLimit/limiter.js:17-23 | with no window or now > resetAt the request is allowed and {count 1, resetAt now + windowMs} is stored, even with limit 0 |
| Limiter.FullWindowRejects | src/rateLimit/limiter.js:25-30 | inside the window (now <= resetAt) with count >= limit the request is rejected with retryAfter = ceil((resetAt - now)/1000) and the stored window is unchanged |
| Limiter.CountWithinLimit | src/rateLimit/limiter.js:17-35 | for limit >= 1 a stored count that is within the limit stays within the limit |
| Limiter.RetryAfterBounded | src/rateLimit/limiter.js:17-30 | when the window opened no later than now, a rejection's retryAfter lies in [0, ceil(windowMs/1000)] |
| Limiter.AllowedInsideWindow | src/rateLimit/limiter.js:25-35 | n calls inside a window already holding count requests allow exactly min(n, limit - count) |
| Limiter.ExactlyMinAllowed | src/rateLimit/limiter.js:17-35 | n calls within one window on one key, the first finding no live window, allow exactly min(n, limit) when limit >= 1 |
| RedisLimiter.RedisKey | src/rateLimit/redisLimiter.js:19-22 | every key starts with "rate:"; an identified client's key continues with its API key, an anonymous client's key is "rate:anonymous:" followed by its address |
| RedisLimiter.AnonymousIsolation | src/rateLimit/redisLimiter.js:19-22 | anonymous callers with different addresses never share a key |
| RedisLimiter.IdentifiedIsolation | src/rateLimit/redisLimiter.js:19-22 | identified callers with different API keys never share a key |
| RedisLimiter.CrossBucketIff | src/rateLimit/redisLimiter.js:19-22 | an identified caller shares an anonymous caller's key iff its API key is "anonymous:" followed by that caller's address |
| RedisLimiter.Script | src/rateLimit/redisLimiter.js:5-12 | the count rises by 1 from the live value, an absent or expired key (expiry strictly before now) counting as 0; the expiry is set to now + windowMs only when the new count is 1 and otherwise kept; the reply is the new count and the remaining ttl |
| RedisLimiter.ExpiryInstantStillCounts | src/rateLimit/redisLimiter.js:6-11 | a key whose expiry equals now is still live: count 5 becomes 6, the expiry is not reset, the ttl is 0, and with limit 3 the request is rejected with retryAfter 0 |
| RedisLimiter.ScriptStore.EvalScript | src/rateLimit/redisLimiter.js:28-31 | one atomic run of the script: returns its reply and changes only the requested key |
| RedisLimiter.Decide | src/rateLimit/redisLimiter.js:33-46 | rejects iff the store replied and count > limit, with retryAfter = ceil(ttl/1000); a store error allows |
| RedisLimiter.RateLimit | src/rateLimit/redisLimiter.js:14-47 | runs the script on the client's key and decides by Decide on its reply; a missing configuration entry or a call that fails before the script runs allows and leaves the store unchanged; a call whose reply is lost after the script ran allows, with the script's increment and expiry still applied |
| RedisLimiter.RepliesInsideWindow | src/rateLimit/redisLimiter.js:6-11 | inside a live window each call adds exactly one to the count and never extends the expiry |
| RedisLimiter.WindowDecisions | src/rateLimit/redisLimiter.js:5-41 | within one unexpired window the i-th call sees count i+1 and ttl in [0, windowMs]; calls 1..limit are allowed, later ones rejected with retryAfter <= ceil(windowMs/1000) |
| Metrics.Initial | src/metrics/store.js:3-9 | exactly the five named counters, all 0 |
| Metrics.Incremented | src/metrics/store.js:12-16 | a known name rises by exactly 1, every other counter is unchanged, an unknown name adds no counter |
| Metrics.Zeroed | src/metrics/store.js:26-30 | the same names, every counter 0 |
| Metrics.MetricsStore.constructor | src/metrics/store.js:3-9 | the store starts with the five counters at 0 |
| Metrics.MetricsStore.Increment | src/metrics/store.js:12-16 | the counters become Incremented of the old ones; the five names are kept |
| Metrics.MetricsStore.GetMetrics | src/metrics/store.js:20-22 | returns a value equal to the counters, over the five names, and changes nothing |
| Metrics.MetricsStore.ResetMetrics | src/metrics/store.js:26-30 | the loop over the keys leaves every counter 0 and keeps the five names |
| Metrics.ResetIdempotent | src/metrics/store.js:26-30 | resetting twice equals resetting once |
| Metrics.NeverDecreases | src/metrics/store.js:12-22 | any sequence of increments and snapshots keeps the names and never lowers a counter |
| Metrics.CountsIncrements | src/metrics/store.js:12-22 | after a sequence of increments and snapshots a known counter has risen by exactly the number of its increments |
| RouteResolver.FirstMatch | src/proxy/routeResolver.js:4-11 | returns the smallest index at or after from whose prefix the path starts with, or none iff no such index exists |
| RouteResolver.ResolveRoute | src/proxy/routeResolver.js:3-14 | the result is a table entry whose prefix starts the path and no earlier entry's prefix does; null iff no prefix in the table starts the path |
| RouteResolver.ResolveFindsFirst | src/proxy/routeResolver.js:4-10 | conversely, the first entry in table order whose prefix starts the path is the result |
| RouteResolver.FirstNotLongest | src/proxy/routeResolver.js:4-10 | with "/api" listed before "/api/inventory", "/api/inventory/items" resolves to "/api": first match, not longest match |
| Strings.ReplaceFirst | src/proxy/forwarder.js:43 | JavaScript string replace with a string pattern: the first occurrence of the pattern, wherever it is, is replaced; with no occurrence the string is returned unchanged |
| Forwarder.ServiceName | src/proxy/forwarder.js:43 | the first occurrence of "/api/" is removed wherever it is (so a prefix starting with "/api/" loses exactly that, and "/v1/api/orders" gives "/v1orders"); a prefix not containing "/api/" is kept unchanged |
| Forwarder.ServiceNameOfApiPrefix | src/proxy/forwarder.js:43 | the prefix "/api/" + name yields the service name name |
| Forwarder.DownstreamUrl | src/proxy/forwarder.js:54-55 | target + the URL with the first occurrence of the prefix removed wherever it is (when the URL starts with the prefix, the URL without that prefix); a URL not containing the prefix is appended to target unchanged |
| Forwarder.Forward | src/proxy/forwarder.js:39-82 | no downstream call is made iff the circuit check says open, and then the reply is 503, no failure or success is recorded and the circuit is unchanged; otherwise exactly one call to the rewritten URL and one or two circuit updates; the reply status is always one reply.code accepts (100..599); circuit invariants preserved |
| Forwarder.ForwardedOutcome | src/proxy/forwarder.js:57-81 | the first update is a failure iff the status is >= 500 or the call threw; a status in 100..599 is relayed unchanged (5xx included) with no further update; a network error, or a status reply.code refuses, ends in the catch block: 502 Bad Gateway, and for the refused status a second recorded failure; the circuit is the updates applied in order |
| Forwarder.ThreeFailuresBlockFourth | src/proxy/forwarder.js:46-81 | from a circuit with no failures, three forwards failing with a network error or a 5xx status all reach the downstream and a fourth within 30000 ms of the third failure gets 503 with no downstream call |
| Forwarder.FailuresWithinCooldownBlockFourth | src/proxy/forwarder.js:46-81 | for any failing outcomes, out-of-range statuses included: four forwards in time order, all within 30000 ms of the first failure, leave the fourth answered 503 with no downstream call |
| Forwarder.ForwardRequest | src/proxy/forwarder.js:39-82 | replies, calls and updates the registry as Forward on this service's circuit, including the catch block's second recordFailure when reply.code throws; only that service's circuit changes |
| RedisClient.ReconnectStrategy | src/redis/client.js:9-15 | gives up iff retries > 10; otherwise the delay is retries*100, never above 3000 |
| RedisClient.DelayMonotone | src/redis/client.js:14 | the delay never decreases as retries grow |
| RedisClient.CapNeverBinds | src/redis/client.js:10-14 | for every accepted retries (0..10) the delay is at most 1000 ms, so the 3000 ms cap never applies |

## Left out

- The HTTP call of the forwarder (method, header and body forwarding, the 3000 ms timeout): its result is the input `Outcome`, and a timeout is a `NetworkError`.
- Logging (`console.error`, `request.log.error`), the server bootstrap (`src/server.js`, `src/app.js`) and the Redis connection (`createClient`, `connectRedis`, the error handler): I/O only.
- Concurrency: the model is sequential, so lost updates between concurrent requests and the cross-process atomicity the Lua script provides are not represented; the script is one atomic method.
- `Date.now()` is a parameter; nothing is said about how the clock moves except where a lemma requires it.
- `Math.ceil` of a floating-point division is integer ceiling division, which agrees with it for integer milliseconds.
- Redis details: PTTL's negative answers (no key, no expiry), PEXPIRE with a non-positive window (which deletes the key), INCR's 64-bit overflow and non-integer values; every key the script writes has an expiry.
- The rate-limit configuration and the route table are parameters (`map<string, WindowLimit>`, `seq<Route>`); the circuit breaker index module is taken to re-export src/circuitBreaker/store.js. Configuration values that are not integers are not modelled.
- JavaScript object quirks: `circuits` is a plain object, so a service named like an `Object.prototype` member (e.g. "constructor") would find an inherited value; the model treats every name as an ordinary key. `Object.keys` order for integer-like prefixes is not modelled; the route table is an ordered sequence.
- In the in-memory limiter the stored record is mutated in place and then set again; since only the map refers to it, the model writes a new value instead.
- The counters are unbounded integers, not floating-point numbers.
- Metrics.Incremented (and Metrics.MetricsStore.Increment): `metrics[name] !== undefined` also holds for names inherited from `Object.prototype` ("constructor", "toString", "valueOf", "hasOwnProperty", ...), and there `+= 1` adds a sixth own property holding a string, which `getMetrics` then copies and `resetMetrics` sets to 0; the model treats those names as unknown and keeps exactly the five counters.
- RedisClient.ReconnectStrategy: takes `retries` as a natural number; the client never passes a negative count.
- Correlation ids, API-key authentication, protected routes and metrics increments around forwarding do not appear in the modelled source files and are not modelled.
- Forwarder.ThreeFailuresBlockFourth: stated only for network errors and 5xx statuses in 100..599, where each request records exactly one failure; Forwarder.FailuresWithinCooldownBlockFourth states the blocking for every failing outcome under a time-order premise instead.
- Forwarder.Forward (and Forwarder.ForwardRequest): the second `recordFailure` of the catch block reads the same clock value as the first; the source calls `Date.now()` again a moment later. Any other throw inside the try block (a `send` that fails to serialise the data) is not modelled.
- RouteResolver.ResolveRoute: the table is a sequence and may repeat a prefix, which the source's object keys cannot; the first entry with that prefix is then the result, and the later ones are never used.
