/** The reconnect policy of the Redis client in src/redis/client.js. */
module RedisClient {

  /** The callback's answer: an `Error` (stop reconnecting) or a delay in ms. */
  datatype Reconnect = GiveUp(message: string) | RetryIn(delayMs: int)

  const MaxRetries: nat := 10
  const MaxDelayMs: int := 3000

  /** `reconnectStrategy(retries)`. */
  function ReconnectStrategy(retries: nat): (r: Reconnect)
    ensures r.GiveUp? <==> retries > MaxRetries
    ensures r.RetryIn? ==> 0 <= r.delayMs <= MaxDelayMs
    ensures r.RetryIn? ==> r.delayMs == retries * 100
  {
    if retries > MaxRetries then GiveUp("Redis reconnection failed after 10 attempts")
    else RetryIn(if retries * 100 < MaxDelayMs then retries * 100 else MaxDelayMs)
  }

  /** More retries never mean a shorter delay. */
  lemma DelayMonotone(a: nat, b: nat)
    requires a <= b <= MaxRetries
    ensures ReconnectStrategy(a).delayMs <= ReconnectStrategy(b).delayMs
  {
  }

  /** Every accepted retry waits at most one second: the 3000 ms cap never applies. */
  lemma CapNeverBinds(retries: nat)
    requires retries <= MaxRetries
    ensures ReconnectStrategy(retries).delayMs <= 1000 < MaxDelayMs
  {
  }
}
