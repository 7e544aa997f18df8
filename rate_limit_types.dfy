/**
 * What the two rate limiters of src/rateLimit share: the client a request
 * carries, the per-client-type configuration, the decision, and the
 * `Math.ceil(ms / 1000)` conversion to whole seconds.
 */
module RateLimitTypes {

  /** `request.client`: anonymous, or identified by its API key. */
  datatype Client = Anonymous | Identified(apiKey: string)

  /** `request.client.type`, the key into the rate-limit configuration. */
  function ClientType(c: Client): string {
    match c
    case Anonymous => "anonymous"
    case Identified(_) => "identified"
  }

  /** One entry of the rate-limit configuration: `{ limit, windowMs }`. */
  datatype WindowLimit = WindowLimit(limit: int, windowMs: int)

  /** `{ allowed: true }` or `{ allowed: false, retryAfter }`. */
  datatype Decision = Allowed | Rejected(retryAfter: int)

  /** `Math.ceil(ms / 1000)` on an integer number of milliseconds. */
  function CeilSeconds(ms: int): (s: int)
    ensures (s - 1) * 1000 < ms <= s * 1000
  {
    -((-ms) / 1000)
  }

  /** The ceiling is monotone, so a bound on milliseconds bounds the seconds. */
  lemma CeilSecondsMonotone(a: int, b: int)
    requires a <= b
    ensures CeilSeconds(a) <= CeilSeconds(b)
  {
  }
}
