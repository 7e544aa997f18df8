/**
 * The Redis-backed rate limiter of src/rateLimit/redisLimiter.js. The Lua
 * script (INCR, PEXPIRE when the new count is 1, PTTL) runs as one atomic
 * step on a key -> (count, expiry) store; around it sit the key derivation,
 * the `count > limit` decision and fail-open on any error.
 */
module RedisLimiter {
  import opened Wrappers
  import opened Strings
  import opened RateLimitTypes

  /** `rate:<apiKey>` for identified clients, `rate:anonymous:<ip>` otherwise. */
  function RedisKey(c: Client, ip: string): (r: string)
    ensures StartsWith(r, "rate:")
    ensures c.Identified? ==> r[5..] == c.apiKey
    ensures c.Anonymous? ==> |r| >= 15 && r[..15] == "rate:anonymous:" && r[15..] == ip
  {
    match c
    case Identified(apiKey) => "rate:" + apiKey
    case Anonymous => "rate:anonymous:" + ip
  }

  /** Anonymous callers with different addresses never share a bucket. */
  lemma AnonymousIsolation(ip1: string, ip2: string)
    requires ip1 != ip2
    ensures RedisKey(Anonymous, ip1) != RedisKey(Anonymous, ip2)
  {
    if RedisKey(Anonymous, ip1) == RedisKey(Anonymous, ip2) {
      PrefixCancel("rate:anonymous:", ip1, ip2);
    }
  }

  /** Identified callers with different API keys never share a bucket. */
  lemma IdentifiedIsolation(k1: string, k2: string, ip1: string, ip2: string)
    requires k1 != k2
    ensures RedisKey(Identified(k1), ip1) != RedisKey(Identified(k2), ip2)
  {
    if RedisKey(Identified(k1), ip1) == RedisKey(Identified(k2), ip2) {
      PrefixCancel("rate:", k1, k2);
    }
  }

  /**
   * An identified caller shares an anonymous caller's bucket exactly when its
   * API key is "anonymous:" followed by that caller's address.
   */
  lemma CrossBucketIff(apiKey: string, ip1: string, ip2: string)
    ensures RedisKey(Identified(apiKey), ip1) == RedisKey(Anonymous, ip2) <==> apiKey == "anonymous:" + ip2
  {
    assert "rate:anonymous:" + ip2 == "rate:" + ("anonymous:" + ip2);
    if RedisKey(Identified(apiKey), ip1) == RedisKey(Anonymous, ip2) {
      PrefixCancel("rate:", apiKey, "anonymous:" + ip2);
    }
  }

  /** A counter key: its value and the instant (in ms) at which it expires. */
  datatype Entry = Entry(count: int, expiresAt: int)

  /** The key exists and has not expired at `now`: Redis drops a key only once its clock is past the expiry. */
  predicate Live(entries: map<string, Entry>, key: string, now: int) {
    key in entries && now <= entries[key].expiresAt
  }

  /** `{current, ttl}`: the count after INCR and the PTTL in milliseconds. */
  datatype ScriptReply = ScriptReply(count: int, ttl: int)

  /** The key's new entry and the script's reply. */
  datatype ScriptEffect = ScriptEffect(entry: Entry, reply: ScriptReply)

  /** One run of the Lua script on `key` at time `now`. */
  function Script(entries: map<string, Entry>, key: string, windowMs: int, now: int): (r: ScriptEffect)
    ensures !Live(entries, key, now) ==> r.reply == ScriptReply(1, windowMs)
    ensures Live(entries, key, now) ==> r.reply.count == entries[key].count + 1
    ensures r.reply.count != 1 ==> r.entry.expiresAt == entries[key].expiresAt
    ensures r.reply.count == 1 ==> r.entry.expiresAt == now + windowMs
    ensures r.entry.count == r.reply.count && r.reply.ttl == r.entry.expiresAt - now
  {
    var current := (if Live(entries, key, now) then entries[key].count else 0) + 1;
    var expiresAt := if current == 1 then now + windowMs else entries[key].expiresAt;
    ScriptEffect(Entry(current, expiresAt), ScriptReply(current, expiresAt - now))
  }

  /**
   * At the very instant of its expiry a key is still counted: INCR continues
   * it, PEXPIRE is skipped and PTTL answers 0, so a full window rejects with
   * retryAfter 0.
   */
  lemma ExpiryInstantStillCounts()
    ensures var eff := Script(map["k" := Entry(5, 100)], "k", 1000, 100);
      && eff.reply == ScriptReply(6, 0)
      && eff.entry == Entry(6, 100)
      && Decide(Some(eff.reply), 3) == Rejected(0)
  {
  }

  /** The Redis keyspace the script runs against. */
  class ScriptStore {
    var entries: map<string, Entry>

    constructor ()
      ensures entries == map[]
    {
      entries := map[];
    }

    /** `client.eval(LUA_SCRIPT, ...)`: one atomic INCR / PEXPIRE / PTTL on `key` only. */
    method EvalScript(key: string, windowMs: int, now: int) returns (count: int, ttl: int)
      modifies this
      ensures var eff := Script(old(entries), key, windowMs, now);
        && ScriptReply(count, ttl) == eff.reply
        && entries == old(entries)[key := eff.entry]
    {
      if Live(entries, key, now) {
        count := entries[key].count + 1;
      } else {
        count := 1;
      }
      var expiresAt: int;
      if count == 1 {
        expiresAt := now + windowMs;
      } else {
        expiresAt := entries[key].expiresAt;
      }
      entries := entries[key := Entry(count, expiresAt)];
      ttl := expiresAt - now;
    }
  }

  /**
   * The decision on the script's reply, or on `None` when the store call
   * threw: more than `limit` requests reject, anything else (errors
   * included) allows.
   */
  function Decide(reply: Option<ScriptReply>, limit: int): (d: Decision)
    ensures d.Rejected? <==> reply.Some? && reply.value.count > limit
    ensures d.Rejected? ==> d.retryAfter == CeilSeconds(reply.value.ttl)
  {
    match reply
    case None => Allowed
    case Some(ScriptReply(count, ttl)) =>
      if count > limit then Rejected(CeilSeconds(ttl)) else Allowed
  }

  /**
   * How the `client.eval` call ends: with a reply, with an error before the
   * script ran (the command never reached Redis), or with an error after the
   * script ran (the connection dropped before the reply came back).
   */
  datatype StoreCall = Replied | FailedBeforeScript | ReplyLost

  /**
   * `rateLimit(request)`. A missing configuration entry or a failing store
   * call ends in the catch block, which allows the request; a script that ran
   * before its reply was lost has still counted the request.
   */
  method RateLimit(store: ScriptStore, client: Client, ip: string, limits: map<string, WindowLimit>,
                   now: int, call: StoreCall)
    returns (d: Decision)
    modifies store
    ensures ClientType(client) !in limits || call == FailedBeforeScript ==>
      d == Allowed && store.entries == old(store.entries)
    ensures ClientType(client) in limits && call != FailedBeforeScript ==>
      var cfg := limits[ClientType(client)];
      var eff := Script(old(store.entries), RedisKey(client, ip), cfg.windowMs, now);
      && d == Decide(if call == ReplyLost then None else Some(eff.reply), cfg.limit)
      && store.entries == old(store.entries)[RedisKey(client, ip) := eff.entry]
  {
    var clientType := ClientType(client);
    var key := RedisKey(client, ip);
    if clientType !in limits || call == FailedBeforeScript {
      return Allowed;
    }
    var limit, windowMs := limits[clientType].limit, limits[clientType].windowMs;
    var count, ttl := store.EvalScript(key, windowMs, now);
    if call == ReplyLost {
      return Allowed;
    }
    if count > limit {
      return Rejected(CeilSeconds(ttl));
    }
    return Allowed;
  }

  /** The replies to scripts run on one key at the successive instants `times`. */
  function Replies(entries: map<string, Entry>, key: string, windowMs: int, times: seq<int>): seq<ScriptReply>
    decreases |times|
  {
    if times == [] then []
    else
      var eff := Script(entries, key, windowMs, times[0]);
      [eff.reply] + Replies(entries[key := eff.entry], key, windowMs, times[1..])
  }

  /** Inside a live window already at `count`, each call adds one and keeps the expiry. */
  lemma {:induction false} RepliesInsideWindow(entries: map<string, Entry>, key: string, windowMs: int,
                                               times: seq<int>, count: int, expiresAt: int)
    requires key in entries && entries[key] == Entry(count, expiresAt) && count >= 1
    requires forall i :: 0 <= i < |times| ==> times[i] <= expiresAt
    ensures var rs := Replies(entries, key, windowMs, times);
      && |rs| == |times|
      && forall i :: 0 <= i < |times| ==> rs[i] == ScriptReply(count + i + 1, expiresAt - times[i])
    decreases |times|
  {
    if times != [] {
      var eff := Script(entries, key, windowMs, times[0]);
      assert eff.entry == Entry(count + 1, expiresAt);
      RepliesInsideWindow(entries[key := eff.entry], key, windowMs, times[1..], count + 1, expiresAt);
    }
  }

  /**
   * Within one unexpired window that starts with the first of `times`, the
   * i-th call (from 0) sees count i + 1 and a ttl in [0, windowMs]; calls
   * 1..limit are allowed, later ones are rejected with a retryAfter of at
   * most ceil(windowMs / 1000) seconds.
   */
  lemma WindowDecisions(entries: map<string, Entry>, key: string, windowMs: int, limit: int,
                          times: seq<int>)
    requires windowMs > 0 && |times| >= 1
    requires !Live(entries, key, times[0])
    requires forall i :: 1 <= i < |times| ==> times[0] <= times[i] <= times[0] + windowMs
    ensures var rs := Replies(entries, key, windowMs, times);
      && |rs| == |times|
      && forall i :: 0 <= i < |times| ==>
        && rs[i].count == i + 1
        && 0 <= rs[i].ttl <= windowMs
        && (Decide(Some(rs[i]), limit).Allowed? <==> i + 1 <= limit)
        && (Decide(Some(rs[i]), limit).Rejected? ==> Decide(Some(rs[i]), limit).retryAfter <= CeilSeconds(windowMs))
  {
    var first := Script(entries, key, windowMs, times[0]);
    var expiresAt := times[0] + windowMs;
    assert first.entry == Entry(1, expiresAt);
    var rest := times[1..];
    forall i | 0 <= i < |rest| ensures rest[i] <= expiresAt {
      assert rest[i] == times[i + 1];
    }
    RepliesInsideWindow(entries[key := first.entry], key, windowMs, rest, 1, expiresAt);
    var rs := Replies(entries, key, windowMs, times);
    forall i | 0 <= i < |times|
      ensures rs[i].count == i + 1 && 0 <= rs[i].ttl <= windowMs
    {
      if i > 0 {
        assert rs[i] == Replies(entries[key := first.entry], key, windowMs, rest)[i - 1];
        assert rest[i - 1] == times[i];
      }
    }
    forall i | 0 <= i < |times|
      ensures Decide(Some(rs[i]), limit).Rejected? ==> Decide(Some(rs[i]), limit).retryAfter <= CeilSeconds(windowMs)
    {
      CeilSecondsMonotone(rs[i].ttl, windowMs);
    }
  }
}
