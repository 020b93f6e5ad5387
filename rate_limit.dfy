/** The API gateway's sliding-window rate limiter (api_gateway/src/middleware/rate_limit.py).

    The limiter keeps, per client address, the times of its accepted requests.  Times
    are datetime values, here integer microseconds, so one minute is 60_000_000. */
module RateLimit {

  import opened Wrappers

  const ONE_MINUTE := 60_000_000
  const DEFAULT_REQUESTS_PER_MINUTE := 60
  const HEALTH_PATH := "/health"
  const UNKNOWN_CLIENT := "unknown"
  const RETRY_AFTER := "60"

  /** The times strictly after `cutoff`, in their order. */
  function Recent(times: seq<int>, cutoff: int): (r: seq<int>)
    ensures |r| <= |times|
    ensures forall t <- r :: t > cutoff
  {
    if times == [] then []
    else (if times[0] > cutoff then [times[0]] else []) + Recent(times[1..], cutoff)
  }

  /** Recent keeps exactly the times after the cutoff: each of them, and nothing else. */
  lemma {:induction false} RecentKeepsExactly(times: seq<int>, cutoff: int, t: int)
    ensures t in Recent(times, cutoff) <==> t in times && t > cutoff
    decreases |times|
  {
    if times != [] {
      RecentKeepsExactly(times[1..], cutoff, t);
      assert times == [times[0]] + times[1..];
    }
  }

  /** Filtering twice with the same cutoff filters once. */
  lemma {:induction false} RecentIdempotent(times: seq<int>, cutoff: int)
    ensures Recent(Recent(times, cutoff), cutoff) == Recent(times, cutoff)
    decreases |times|
  {
    if times != [] {
      RecentIdempotent(times[1..], cutoff);
      var head := if times[0] > cutoff then [times[0]] else [];
      RecentAppend(head, Recent(times[1..], cutoff), cutoff);
    }
  }

  lemma {:induction false} RecentAppend(a: seq<int>, b: seq<int>, cutoff: int)
    ensures Recent(a + b, cutoff) == Recent(a, cutoff) + Recent(b, cutoff)
    decreases |a|
  {
    if a != [] {
      RecentAppend(a[1..], b, cutoff);
      assert (a + b)[1..] == a[1..] + b;
    } else {
      assert a + b == b;
    }
  }

  function Lookup(m: map<string, seq<int>>, client: string): seq<int>
  {
    if client in m then m[client] else []
  }

  /** is_allowed(client) at time `now`: the client's list is replaced by its entries of
      the last minute; at or over the limit the answer is no, otherwise `now` is
      appended and the answer is yes. */
  function AllowStep(m: map<string, seq<int>>, client: string, now: int, limit: int): (map<string, seq<int>>, bool)
  {
    var kept := Recent(Lookup(m, client), now - ONE_MINUTE);
    if |kept| >= limit then (m[client := kept], false)
    else (m[client := kept + [now]], true)
  }

  /** Every client holds at most `limit` times. */
  predicate Bounded(m: map<string, seq<int>>, limit: int) {
    forall c <- m :: |m[c]| <= limit
  }

  /** How rate_limit_middleware ends: the request is passed on, or 429 is raised. */
  datatype LimitOutcome =
    | PassedOn
    | TooManyRequests(status: int, detail: string, retryAfter: string)

  /** rate_limit_middleware: the client is the peer host or "unknown"; "/health" is
      never counted. */
  function MiddlewareStep(m: map<string, seq<int>>, path: string, peer: Option<string>, now: int, limit: int)
    : (map<string, seq<int>>, LimitOutcome)
  {
    var client := if peer.Some? then peer.value else UNKNOWN_CLIENT;
    if path == HEALTH_PATH then (m, PassedOn)
    else
      var (m', allowed) := AllowStep(m, client, now, limit);
      (m', if allowed then PassedOn else TooManyRequests(429, "Too many requests", RETRY_AFTER))
  }

  class RateLimiter {
    const requestsPerMinute: int
    var requests: map<string, seq<int>>

    constructor (perMinute: int)
      ensures requestsPerMinute == perMinute && requests == map[]
    {
      requestsPerMinute := perMinute;
      requests := map[];
    }

    method IsAllowed(client: string, now: int) returns (allowed: bool)
      modifies this
      ensures (requests, allowed) == AllowStep(old(requests), client, now, requestsPerMinute)
    {
      var minuteAgo := now - ONE_MINUTE;
      var kept := Recent(Lookup(requests, client), minuteAgo);
      requests := requests[client := kept];
      if |requests[client]| >= requestsPerMinute {
        return false;
      }
      requests := requests[client := requests[client] + [now]];
      assert requests == old(requests)[client := kept + [now]];
      return true;
    }

    method Middleware(path: string, peer: Option<string>, now: int) returns (outcome: LimitOutcome)
      modifies this
      ensures (requests, outcome) == MiddlewareStep(old(requests), path, peer, now, requestsPerMinute)
    {
      var client := if peer.Some? then peer.value else UNKNOWN_CLIENT;
      if path == HEALTH_PATH {
        return PassedOn;
      }
      var allowed := IsAllowed(client, now);
      if !allowed {
        return TooManyRequests(429, "Too many requests", RETRY_AFTER);
      }
      return PassedOn;
    }
  }

  // ---- what is_allowed promises ----

  /** The answer is yes exactly when fewer than `limit` requests of the client fall in
      the last minute; a no adds nothing, a yes appends `now` as the last entry; every
      kept time is later than one minute ago; other clients are untouched. */
  lemma AllowStepSpec(m: map<string, seq<int>>, client: string, now: int, limit: int)
    ensures var (m', allowed) := AllowStep(m, client, now, limit);
            var kept := Recent(Lookup(m, client), now - ONE_MINUTE);
            && (allowed <==> |kept| < limit)
            && client in m'
            && (!allowed ==> m'[client] == kept)
            && (allowed ==> m'[client] == kept + [now] && |m'[client]| == |kept| + 1)
            && (forall t <- m'[client] :: t > now - ONE_MINUTE)
            && m'.Keys == m.Keys + {client}
            && (forall c <- m :: c != client ==> m'[c] == m[c])
  {
  }

  /** The bound `limit` per client holds before a call only if it holds after it. */
  lemma BoundedPreserved(m: map<string, seq<int>>, client: string, now: int, limit: int)
    requires limit >= 0 && Bounded(m, limit)
    ensures Bounded(AllowStep(m, client, now, limit).0, limit)
  {
  }

  /** The middleware keeps the bound too. */
  lemma MiddlewareBounded(m: map<string, seq<int>>, path: string, peer: Option<string>, now: int, limit: int)
    requires limit >= 0 && Bounded(m, limit)
    ensures Bounded(MiddlewareStep(m, path, peer, now, limit).0, limit)
  {
    if path != HEALTH_PATH {
      BoundedPreserved(m, if peer.Some? then peer.value else UNKNOWN_CLIENT, now, limit);
    }
  }

  /** "/health" passes without being counted; any other path is counted under the peer
      host, or "unknown" without one, and refused with 429, "Too many requests" and
      Retry-After "60" exactly when is_allowed says no. */
  lemma MiddlewareSpec(m: map<string, seq<int>>, path: string, peer: Option<string>, now: int, limit: int)
    ensures var (m', out) := MiddlewareStep(m, path, peer, now, limit);
            && (path == "/health" ==> m' == m && out == PassedOn)
            && (path != "/health" ==>
                  var (m2, allowed) := AllowStep(m, if peer.Some? then peer.value else "unknown", now, limit);
                  m' == m2 && (out == PassedOn <==> allowed)
                  && (!allowed ==> out == TooManyRequests(429, "Too many requests", "60")))
  {
  }

  /** Waiting the advertised 60 seconds is enough: when the client's times are not in
      the future, a request a minute or more after a refusal is allowed. */
  lemma RetryAfterSuffices(m: map<string, seq<int>>, client: string, now: int, later: int, limit: int)
    requires forall t <- Lookup(m, client) :: t <= now
    requires limit >= 1 && later >= now + ONE_MINUTE
    ensures AllowStep(AllowStep(m, client, now, limit).0, client, later, limit).1
  {
    var m1 := AllowStep(m, client, now, limit).0;
    var old_ := Lookup(m1, client);
    forall t | t in old_ ensures t <= later - ONE_MINUTE {
      var kept := Recent(Lookup(m, client), now - ONE_MINUTE);
      assert old_ == kept || old_ == kept + [now];
      if t in kept {
        RecentKeepsExactly(Lookup(m, client), now - ONE_MINUTE, t);
      }
    }
    NothingRecent(old_, later - ONE_MINUTE);
  }

  lemma {:induction false} NothingRecent(times: seq<int>, cutoff: int)
    requires forall t <- times :: t <= cutoff
    ensures Recent(times, cutoff) == []
    decreases |times|
  {
    if times != [] {
      assert times[0] in times && forall t <- times[1..] :: t in times;
      NothingRecent(times[1..], cutoff);
      assert Recent(times, cutoff) == [] + Recent(times[1..], cutoff);
    }
  }
}
