/** The API gateway's router (api_gateway/src/core/services.py, forward_request): the
    path is rewritten, its first segment picks the service, the headers are copied, and
    the request is sent upstream with up to three attempts.

    The upstream is the environment: `upstream(k)` is what attempt k gets back.
    Sleeping is recorded as the backoff in milliseconds, not performed.  Every str of
    the verified payload and the headers is a PyStr, whatever its text, so `.PyStr?` is
    isinstance(x, str). */
module GatewayServices {

  import opened Wrappers
  import opened Text
  import opened PyValues
  import opened GatewayConfig
  import opened GatewayRequests

  const MAX_ATTEMPTS := 3
  /** backoff = 0.25 seconds, multiplied by the attempt number. */
  const BACKOFF_MS := 250

  // ---- path handling ----

  /** The versioned prefix "/api/<version>/" is cut off; any other "/api/..." path
      loses its first two segments (exactly two segments become "/"). */
  function RewritePath(path: string, version: string): (r: string)
    ensures StartsWith(path, "/api/" + version + "/") ==> path == "/api/" + version + "/" + r
    ensures !StartsWith(path, "/api/") ==> r == path
  {
    var prefix := "/api/" + version + "/";
    if StartsWith(path, prefix) then
      assert path == path[..|prefix|] + path[|prefix|..];
      path[|prefix|..]
    else if StartsWith(path, "/api/") then
      var parts := Split(StripChar(path, '/'), '/');
      if |parts| >= 2 then (if |parts| > 2 then "/" + Join(parts[2..], "/") else "/")
      else path
    else path
  }

  /** Where a request goes: the service, its host, the path the service sees, and the URL. */
  datatype Target = Target(service: string, host: string, forwardingPath: string, url: string)

  /** The rewritten path's first segment names the service; an unknown one is 404
      "Service not found".  The "Invalid path" branch cannot be taken. */
  function Resolve(path: string, routes: map<string, Route>): (r: Result<Target, string>)
    ensures r.Ok? ==> r.value.service in routes && r.value.url == routes[r.value.service].host + r.value.forwardingPath
    ensures r.Ok? ==> StartsWith(r.value.forwardingPath, "/")
    ensures r.Err? <==> Split(StripChar(path, '/'), '/')[0] !in routes
    ensures r.Err? ==> r.error == "Service not found"
  {
    var parts := Split(StripChar(path, '/'), '/');
    if |parts| == 0 then Err("Invalid path")
    else if parts[0] !in routes then Err("Service not found")
    else
      var forwardingPath := if |parts| > 1 then "/" + Join(parts[1..], "/") else "/";
      Ok(Target(parts[0], routes[parts[0]].host, forwardingPath, routes[parts[0]].host + forwardingPath))
  }

  /** Nothing of the path is lost: the service name followed by the forwarding path is
      the path without its outer slashes (a path of one segment is forwarded as "/"). */
  lemma ResolveKeepsPath(path: string, routes: map<string, Route>)
    requires Resolve(path, routes).Ok?
    ensures var t := Resolve(path, routes).value;
            var stripped := StripChar(path, '/');
            stripped == t.service + t.forwardingPath || (stripped == t.service && t.forwardingPath == "/")
  {
    var stripped := StripChar(path, '/');
    var parts := Split(stripped, '/');
    JoinSplit(stripped, '/');
    if |parts| > 1 {
      assert Join(parts, "/") == parts[0] + "/" + Join(parts[1..], "/");
    }
  }

  /** Which forwarding path forward_request sends upstream: as written it drops the
      service segment; the upstream routers serve under it ("/orders", "/auth/token"),
      so the corrected gateway keeps it. */
  datatype PathForwarding = StripServiceSegment | KeepServiceSegment

  /** The corrected target: same service and host, forwarded by the whole path
      without its outer slashes. */
  function ResolveKeepingService(path: string, routes: map<string, Route>): (r: Result<Target, string>)
    ensures r.Err? <==> Resolve(path, routes).Err?
    ensures r.Err? ==> r.error == Resolve(path, routes).error
    ensures r.Ok? ==> r.value.service in routes && r.value.url == routes[r.value.service].host + r.value.forwardingPath
  {
    match Resolve(path, routes)
    case Err(e) => Err(e)
    case Ok(t) =>
      var forwardingPath := "/" + StripChar(path, '/');
      Ok(Target(t.service, t.host, forwardingPath, t.host + forwardingPath))
  }

  /** The corrected forwarding path is the as-written one with "/<service>" put back in
      front of it. */
  lemma KeepingServiceRestoresSegment(path: string, routes: map<string, Route>)
    requires Resolve(path, routes).Ok?
    ensures var a := Resolve(path, routes).value;
            var c := ResolveKeepingService(path, routes).value;
            && c.service == a.service && c.host == a.host
            && (c.forwardingPath == "/" + a.service + a.forwardingPath
                || (c.forwardingPath == "/" + a.service && a.forwardingPath == "/"))
  {
    ResolveKeepsPath(path, routes);
    var a := Resolve(path, routes).value;
    var stripped := StripChar(path, '/');
    if stripped == a.service + a.forwardingPath {
      assert "/" + stripped == "/" + a.service + a.forwardingPath;
    }
  }

  function Resolved(path: string, routes: map<string, Route>, fwd: PathForwarding): Result<Target, string>
  {
    if fwd == StripServiceSegment then Resolve(path, routes) else ResolveKeepingService(path, routes)
  }

  /** The service is never the "Invalid path" 404: split always yields a first part. */
  lemma InvalidPathUnreachable(path: string, routes: map<string, Route>)
    ensures Resolve(path, routes) != Err("Invalid path")
  {
  }

  /** A path under the versioned prefix is forwarded by what follows the prefix. */
  lemma RewriteVersioned(version: string, rest: string)
    ensures RewritePath("/api/" + version + "/" + rest, version) == rest
  {
    var prefix := "/api/" + version + "/";
    var path := prefix + rest;
    assert path[..|prefix|] == prefix;
    assert path[|prefix|..] == rest;
  }

  /** A path "/api/<x><tail>" whose <x> is not the configured version does not start
      with the versioned prefix. */
  lemma NotVersioned(x: string, tail: string, v: string)
    requires '/' !in x && '/' !in v && x != v
    requires tail == [] || tail[0] == '/'
    ensures !StartsWith("/api/" + x + tail, "/api/" + v + "/")
  {
    var path := "/api/" + x + tail;
    var prefix := "/api/" + v + "/";
    // the two differ at the first slash of the shorter segment, or inside the segments
    if |x| < |v| {
      if 5 + |x| < |path| {
        assert path[5 + |x|] == '/' && prefix[5 + |x|] == v[|x|];
      }
    } else if |x| > |v| {
      assert path[5 + |v|] == x[|v|] && prefix[5 + |v|] == '/';
    } else {
      var i :| 0 <= i < |x| && x[i] != v[i];
      assert path[5 + i] == x[i] && prefix[5 + i] == v[i];
    }
  }

  /** A path that starts with one slash and does not end with one loses only that slash. */
  lemma StripOuter(p: string)
    requires |p| >= 2 && p[0] == '/' && p[1] != '/' && p[|p| - 1] != '/'
    ensures StripChar(p, '/') == p[1..]
  {
    assert LStripChar(p[1..], '/') == p[1..];
    assert RStripChar(p[1..], '/') == p[1..];
  }

  /** A path between single slashes loses both. */
  lemma StripOuterTrailing(p: string)
    requires |p| >= 3 && p[0] == '/' && p[1] != '/' && p[|p| - 1] == '/' && p[|p| - 2] != '/'
    ensures StripChar(p, '/') == p[1..|p| - 1]
  {
    var q := p[1..];
    assert LStripChar(q, '/') == q;
    assert q[..|q| - 1] == p[1..|p| - 1];
    assert RStripChar(q[..|q| - 1], '/') == q[..|q| - 1];
  }

  lemma ApiLiteral()
    ensures "api" + "/" == "api/"
  {
  }

  /** "api/<s>" splits into "api" and the parts of <s>. */
  lemma SplitApi(s: string)
    ensures Split("api/" + s, '/') == ["api"] + Split(s, '/')
  {
    ApiLiteral();
    assert "api/" + s == "api" + "/" + s;
    SplitSegment("api", s, '/');
  }

  /** "/api/<s>" with <s> neither starting nor ending in a slash strips to "api/<s>",
      and "/api/<s>/" strips to the same. */
  lemma StripApi(s: string)
    requires s != [] && s[0] != '/' && s[|s| - 1] != '/'
    ensures StripChar("/api/" + s, '/') == "api/" + s
    ensures StripChar("/api/" + s + "/", '/') == "api/" + s
  {
    var p := "/api/" + s;
    StripOuter(p);
    assert p[1..] == "api/" + s;
    var q := p + "/";
    StripOuterTrailing(q);
    assert q[1..|q| - 1] == "api/" + s;
  }

  /** Outside the versioned prefix, a "/api/" path is rewritten from its split parts. */
  lemma RewriteBareParts(path: string, v: string, parts: seq<string>)
    requires !StartsWith(path, "/api/" + v + "/") && StartsWith(path, "/api/")
    requires parts == Split(StripChar(path, '/'), '/') && |parts| >= 2
    ensures RewritePath(path, v) == if |parts| > 2 then "/" + Join(parts[2..], "/") else "/"
  {
  }

  lemma BareApiRestParts(x: string, rest: string)
    requires x != [] && '/' !in x
    requires rest != [] && rest[0] != '/' && rest[|rest| - 1] != '/'
    ensures Split(StripChar("/api/" + x + "/" + rest, '/'), '/') == ["api", x] + Split(rest, '/')
  {
    var s := x + "/" + rest;
    var path := "/api/" + x + "/" + rest;
    ConcatAssoc("/api/", x, "/", rest);
    assert s[0] == x[0] && s[|s| - 1] == rest[|rest| - 1];
    StripApi(s);
    assert StripChar(path, '/') == "api/" + s;
    SplitApi(s);
    SplitSegment(x, rest, '/');
    assert Split(s, '/') == [x] + Split(rest, '/');
    var parts := Split(StripChar(path, '/'), '/');
    assert parts == ["api"] + ([x] + Split(rest, '/'));
    PrependTwo("api", x, Split(rest, '/'));
  }

  lemma PrependTwo<T>(a: T, b: T, l: seq<T>)
    ensures [a] + ([b] + l) == [a, b] + l
  {
  }

  lemma BareApiTwoParts(x: string)
    requires x != [] && '/' !in x
    ensures Split(StripChar("/api/" + x, '/'), '/') == ["api", x]
    ensures Split(StripChar("/api/" + x + "/", '/'), '/') == ["api", x]
  {
    assert x[0] != '/' && x[|x| - 1] != '/';
    StripApi(x);
    SplitApi(x);
    SplitPrefix(x, "", '/');
    assert x + "" == x;
  }

  /** A bare "/api/<x>/<rest>" path, <x> not the configured version, loses its first
      two segments. */
  lemma RewriteBareApi(x: string, rest: string, v: string)
    requires x != [] && '/' !in x && '/' !in v && x != v
    requires rest != [] && rest[0] != '/' && rest[|rest| - 1] != '/'
    ensures RewritePath("/api/" + x + "/" + rest, v) == "/" + rest
  {
    var path := "/api/" + x + "/" + rest;
    assert path == "/api/" + x + ("/" + rest);
    NotVersioned(x, "/" + rest, v);
    assert StartsWith(path, "/api/") by { assert path[..5] == "/api/"; }
    var parts := Split(StripChar(path, '/'), '/');
    BareApiRestParts(x, rest);
    assert parts[2..] == Split(rest, '/');
    JoinSplit(rest, '/');
    RewriteBareParts(path, v, parts);
  }

  /** Exactly two segments, "/api/<x>" or "/api/<x>/", become "/". */
  lemma RewriteBareApiTwoSegments(x: string, v: string)
    requires x != [] && '/' !in x && '/' !in v && x != v
    ensures RewritePath("/api/" + x, v) == "/"
    ensures RewritePath("/api/" + x + "/", v) == "/"
  {
    BareApiTwoParts(x);
    var path := "/api/" + x;
    NotVersioned(x, [], v);
    assert path + [] == path;
    assert StartsWith(path, "/api/") by { assert path[..5] == "/api/"; }
    RewriteBareParts(path, v, Split(StripChar(path, '/'), '/'));
    var slashed := "/api/" + x + "/";
    NotVersioned(x, "/", v);
    assert StartsWith(slashed, "/api/") by { assert slashed[..5] == "/api/"; }
    RewriteBareParts(slashed, v, Split(StripChar(slashed, '/'), '/'));
  }

  /** "<service>/<rest>" with a known service resolves to that service, forwarding
      "/<rest>" to its host. */
  lemma ResolveServiceRest(service: string, rest: string, routes: map<string, Route>)
    requires service in routes && service != [] && '/' !in service
    requires rest != [] && rest[0] != '/' && rest[|rest| - 1] != '/'
    ensures Resolve(service + "/" + rest, routes)
            == Ok(Target(service, routes[service].host, "/" + rest, routes[service].host + "/" + rest))
    ensures StripChar(service + "/" + rest, '/') == service + "/" + rest
  {
    var path := service + "/" + rest;
    assert path[0] == service[0] && path[|path| - 1] == rest[|rest| - 1];
    assert LStripChar(path, '/') == path;
    assert RStripChar(path, '/') == path;
    SplitPrefix(service, "/" + rest, '/');
    assert path == service + ("/" + rest);
    assert ("/" + rest)[1..] == rest;
    var tail := Split("/" + rest, '/');
    assert tail == [""] + Split(rest, '/');
    assert service + tail[0] == service;
    var parts := Split(path, '/');
    assert parts == [service] + Split(rest, '/');
    assert parts[1..] == Split(rest, '/');
    JoinSplit(rest, '/');
    assert StripChar(path, '/') == path;
    assert |parts| > 1 && parts[0] == service;
    var host := routes[service].host;
    assert host + ("/" + rest) == host + "/" + rest;
  }

  lemma OrdersHost()
    ensures "orders" in ServiceRoutes(DEFAULTS)
    ensures ServiceRoutes(DEFAULTS)["orders"].host == "http://" + "order_service" + ":" + "9001"
  {
    DefaultHosts();
  }

  /** Corrected, "/api/v1/orders/123" goes to the order service's host with path
      "/orders/123", which its "/orders" router serves. */
  lemma ForwardKeepingExample()
    ensures ResolveKeepingService(RewritePath("/api/" + "v1" + "/" + ("orders" + "/" + "123"), "v1"), ServiceRoutes(DEFAULTS))
            == Ok(Target("orders", "http://" + "order_service" + ":" + "9001", "/" + ("orders" + "/" + "123"),
                         "http://" + "order_service" + ":" + "9001" + ("/" + ("orders" + "/" + "123"))))
  {
    RewriteVersioned("v1", "orders" + "/" + "123");
    OrdersHost();
    ResolveServiceRest("orders", "123", ServiceRoutes(DEFAULTS));
  }

  /** "/api/v1/orders/123" goes to the order service's host with path "/123". */
  lemma ForwardExample()
    ensures Resolve(RewritePath("/api/" + "v1" + "/" + ("orders" + "/" + "123"), "v1"), ServiceRoutes(DEFAULTS))
            == Ok(Target("orders", "http://" + "order_service" + ":" + "9001", "/" + "123",
                         "http://" + "order_service" + ":" + "9001" + "/" + "123"))
  {
    RewriteVersioned("v1", "orders" + "/" + "123");
    OrdersHost();
    ResolveServiceRest("orders", "123", ServiceRoutes(DEFAULTS));
  }

  // ---- headers ----

  /** dict(request.headers) without "host", plus X-User carrying the payload's "sub"
      (None when absent) when the auth middleware set a user. */
  function BuildHeaders(headers: map<string, string>, user: Option<Claims>): (r: map<string, PyValue>)
    ensures "host" !in r
    ensures user.Some? ==> "X-User" in r && r["X-User"] == (if "sub" in user.value then user.value["sub"] else PyNone)
    ensures forall k <- headers :: k != "host" && (user.None? || k != "X-User") ==> k in r && r[k] == PyStr(headers[k])
    ensures forall k <- r :: k in headers || (user.Some? && k == "X-User")
  {
    var copied := map k | k in headers && k != "host" :: PyStr(headers[k]);
    if user.Some? then copied["X-User" := if "sub" in user.value then user.value["sub"] else PyNone] else copied
  }

  /** httpx accepts only str header values; anything else raises TypeError. */
  predicate Sendable(headers: map<string, PyValue>) {
    forall k <- headers :: headers[k].PyStr?
  }

  /** Without a user the copied headers are always sendable; with one, exactly when
      its "sub" is a str. */
  lemma SendableIff(headers: map<string, string>, user: Option<Claims>)
    ensures Sendable(BuildHeaders(headers, user)) <==>
            (user.None? || ("sub" in user.value && user.value["sub"].PyStr?))
  {
    var h := BuildHeaders(headers, user);
    if user.Some? {
      assert "X-User" in h;
    }
  }

  // ---- the retry loop ----

  datatype Upstream = Responds(status: int) | TransientError | OtherError

  /** The client variable: the app-scoped client, none, or a local one, open or closed. */
  datatype ClientState = NoClient | AppClient | LocalOpen | LocalClosed

  /** AsWritten keeps the closed local client for the next attempt; FreshLocalClient
      forgets it, so the next attempt creates a new one. */
  datatype RetryPolicy = AsWritten | FreshLocalClient

  datatype Failure =
    | ServiceUnavailable    // 503 after the third transient error
    | ClientClosed          // RuntimeError: request on a closed client
    | UpstreamRaised        // a non-transient exception from the request
    | HeaderType            // TypeError: a header value that is not a str

  datatype Outcome = Response(status: int) | Failed(failure: Failure)

  /** What the loop did: how it ended, how many requests reached the upstream, the
      backoffs slept, and the client left behind. */
  datatype Attempts = Attempts(outcome: Outcome, calls: nat, sleepsMs: seq<nat>, client: ClientState)

  function NextClient(c: ClientState, policy: RetryPolicy): ClientState
  {
    if policy == FreshLocalClient && c == LocalClosed then NoClient else c
  }

  /** Attempts `attempt`..3 of forward_request.  Each attempt creates a local client
      when there is none and closes it in `finally`; a transient error before the
      third attempt backs off and continues; the third yields 503. */
  function RunAttempts(attempt: nat, client: ClientState, sendable: bool, upstream: nat -> Upstream, policy: RetryPolicy): Attempts
    requires 1 <= attempt <= MAX_ATTEMPTS
    decreases MAX_ATTEMPTS - attempt
  {
    var local := client == NoClient;
    var c := if local then LocalOpen else client;
    var after := if local then LocalClosed else c;
    if !sendable then Attempts(Failed(HeaderType), 0, [], after)
    else if c == LocalClosed then Attempts(Failed(ClientClosed), 0, [], c)
    else match upstream(attempt)
      case Responds(st) => Attempts(Response(st), 1, [], after)
      case OtherError => Attempts(Failed(UpstreamRaised), 1, [], after)
      case TransientError =>
        if attempt < MAX_ATTEMPTS then
          var rest := RunAttempts(attempt + 1, NextClient(after, policy), sendable, upstream, policy);
          rest.(calls := rest.calls + 1, sleepsMs := [BACKOFF_MS * attempt] + rest.sleepsMs)
        else Attempts(Failed(ServiceUnavailable), 1, [], after)
  }

  /** The loop state so far put in front of what the remaining attempts do. */
  function After(calls: nat, sleeps: seq<nat>, rest: Attempts): Attempts
  {
    rest.(calls := calls + rest.calls, sleepsMs := sleeps + rest.sleepsMs)
  }

  lemma AfterAfter(calls: nat, sleeps: seq<nat>, slept: nat, rest: Attempts)
    ensures After(calls, sleeps, After(1, [slept], rest)) == After(calls + 1, sleeps + [slept], rest)
  {
    assert sleeps + ([slept] + rest.sleepsMs) == (sleeps + [slept]) + rest.sleepsMs;
  }

  /** How one attempt ends: the loop returns or raises with `result`, or it backs off
      and continues with `client`. */
  datatype AttemptEnd = Finished(result: Attempts) | Continue(client: ClientState)

  /** One pass of the loop body: the try, the except and the finally. */
  function AttemptStep(attempt: nat, client: ClientState, sendable: bool, upstream: nat -> Upstream, policy: RetryPolicy): AttemptEnd
  {
    var c := if client == NoClient then LocalOpen else client;
    var after := if client == NoClient then LocalClosed else c;
    if !sendable then Finished(Attempts(Failed(HeaderType), 0, [], after))
    else if c == LocalClosed then Finished(Attempts(Failed(ClientClosed), 0, [], c))
    else match upstream(attempt)
      case Responds(st) => Finished(Attempts(Response(st), 1, [], after))
      case OtherError => Finished(Attempts(Failed(UpstreamRaised), 1, [], after))
      case TransientError =>
        if attempt < MAX_ATTEMPTS then Continue(NextClient(after, policy))
        else Finished(Attempts(Failed(ServiceUnavailable), 1, [], after))
  }

  /** The attempts from `attempt` on are the first attempt followed, when it continues,
      by one request, one backoff and the attempts after it. */
  lemma RunAttemptsStep(attempt: nat, client: ClientState, sendable: bool, upstream: nat -> Upstream, policy: RetryPolicy)
    requires 1 <= attempt <= MAX_ATTEMPTS
    ensures match AttemptStep(attempt, client, sendable, upstream, policy)
            case Finished(r) => RunAttempts(attempt, client, sendable, upstream, policy) == r
            case Continue(next) =>
              attempt < MAX_ATTEMPTS
              && RunAttempts(attempt, client, sendable, upstream, policy)
                 == After(1, [BACKOFF_MS * attempt], RunAttempts(attempt + 1, next, sendable, upstream, policy))
  {
  }

  /** An attempt that returns or raises ends the run with its result. */
  lemma FinishedAttempt(calls: nat, sleeps: seq<nat>, attempt: nat, client: ClientState, sendable: bool,
                        upstream: nat -> Upstream, policy: RetryPolicy)
    requires 1 <= attempt <= MAX_ATTEMPTS
    requires AttemptStep(attempt, client, sendable, upstream, policy).Finished?
    ensures After(calls, sleeps, AttemptStep(attempt, client, sendable, upstream, policy).result)
            == After(calls, sleeps, RunAttempts(attempt, client, sendable, upstream, policy))
  {
    RunAttemptsStep(attempt, client, sendable, upstream, policy);
  }

  /** An attempt that backs off leaves the rest of the run to the next attempt, one
      request and one backoff later. */
  lemma ContinuedAttempt(calls: nat, sleeps: seq<nat>, attempt: nat, client: ClientState, sendable: bool,
                         upstream: nat -> Upstream, policy: RetryPolicy)
    requires 1 <= attempt <= MAX_ATTEMPTS
    requires AttemptStep(attempt, client, sendable, upstream, policy).Continue?
    ensures attempt < MAX_ATTEMPTS
    ensures var next := AttemptStep(attempt, client, sendable, upstream, policy).client;
            After(calls + 1, sleeps + [BACKOFF_MS * attempt], RunAttempts(attempt + 1, next, sendable, upstream, policy))
            == After(calls, sleeps, RunAttempts(attempt, client, sendable, upstream, policy))
  {
    RunAttemptsStep(attempt, client, sendable, upstream, policy);
    var next := AttemptStep(attempt, client, sendable, upstream, policy).client;
    AfterAfter(calls, sleeps, BACKOFF_MS * attempt, RunAttempts(attempt + 1, next, sendable, upstream, policy));
  }

  /** One attempt: a local client is created when there is none, the request is sent,
      and a client created here is closed in `finally`. */
  method Attempt(attempt: nat, client: ClientState, sendable: bool, upstream: nat -> Upstream, policy: RetryPolicy)
    returns (e: AttemptEnd)
    ensures e == AttemptStep(attempt, client, sendable, upstream, policy)
  {
    var current := client;
    var createdLocal := false;
    if current == NoClient {
      current := LocalOpen;
      createdLocal := true;
    }
    if !sendable {
      // httpx raises TypeError while building the request; finally closes the client
      if createdLocal { current := LocalClosed; }
      return Finished(Attempts(Failed(HeaderType), 0, [], current));
    }
    if current == LocalClosed {
      return Finished(Attempts(Failed(ClientClosed), 0, [], current));
    }
    var answer := upstream(attempt);
    if createdLocal { current := LocalClosed; }
    match answer {
      case Responds(st) =>
        return Finished(Attempts(Response(st), 1, [], current));
      case OtherError =>
        return Finished(Attempts(Failed(UpstreamRaised), 1, [], current));
      case TransientError =>
        if attempt < MAX_ATTEMPTS {
          return Continue(NextClient(current, policy));
        }
        return Finished(Attempts(Failed(ServiceUnavailable), 1, [], current));
    }
  }

  /** The `for attempt in range(1, max_attempts + 1)` loop; every iteration returns,
      raises, or continues with a later attempt. */
  method RetryLoop(client0: ClientState, sendable: bool, upstream: nat -> Upstream, policy: RetryPolicy) returns (res: Attempts)
    ensures res == RunAttempts(1, client0, sendable, upstream, policy)
  {
    var client := client0;
    var calls: nat := 0;
    var sleeps: seq<nat> := [];
    var attempt := 1;
    ghost var whole := RunAttempts(1, client0, sendable, upstream, policy);
    assert After(0, [], whole) == whole;
    while true
      invariant 1 <= attempt <= MAX_ATTEMPTS
      invariant After(calls, sleeps, RunAttempts(attempt, client, sendable, upstream, policy)) == whole
      decreases MAX_ATTEMPTS - attempt
    {
      var e := Attempt(attempt, client, sendable, upstream, policy);
      if e.Finished? {
        FinishedAttempt(calls, sleeps, attempt, client, sendable, upstream, policy);
        return After(calls, sleeps, e.result);
      }
      // asyncio.sleep(backoff * attempt), then the next attempt
      ContinuedAttempt(calls, sleeps, attempt, client, sendable, upstream, policy);
      calls := calls + 1;
      sleeps := sleeps + [BACKOFF_MS * attempt];
      client := e.client;
      attempt := attempt + 1;
    }
  }

  // ---- what the retry loop promises ----

  /** At most three requests reach the upstream, one per attempt left. */
  lemma {:induction false} AtMostThreeCalls(attempt: nat, client: ClientState, sendable: bool, upstream: nat -> Upstream, policy: RetryPolicy)
    requires 1 <= attempt <= MAX_ATTEMPTS
    ensures RunAttempts(attempt, client, sendable, upstream, policy).calls <= MAX_ATTEMPTS - attempt + 1
    ensures |RunAttempts(attempt, client, sendable, upstream, policy).sleepsMs| < MAX_ATTEMPTS - attempt + 1
    decreases MAX_ATTEMPTS - attempt
  {
    var local := client == NoClient;
    var after := if local then LocalClosed else client;
    if attempt < MAX_ATTEMPTS {
      AtMostThreeCalls(attempt + 1, NextClient(after, policy), sendable, upstream, policy);
    }
  }

  /** With a usable client (the app's, or a fresh local one each time), the loop returns
      the first upstream answer that is not a transient error, with the status code
      unchanged and without retrying a non-transient exception; three transient errors
      give 503 after backoffs of 250 and 500 ms. */
  lemma AppClientOutcome(upstream: nat -> Upstream, policy: RetryPolicy)
    ensures var r := RunAttempts(1, AppClient, true, upstream, policy);
            && (!upstream(1).TransientError? ==>
                  r.calls == 1 && r.sleepsMs == []
                  && r.outcome == (if upstream(1).Responds? then Response(upstream(1).status) else Failed(UpstreamRaised)))
            && (upstream(1).TransientError? && !upstream(2).TransientError? ==>
                  r.calls == 2 && r.sleepsMs == [250]
                  && r.outcome == (if upstream(2).Responds? then Response(upstream(2).status) else Failed(UpstreamRaised)))
            && (upstream(1).TransientError? && upstream(2).TransientError? ==>
                  r.calls == 3 && r.sleepsMs == [250, 500]
                  && r.outcome == (if upstream(3).Responds? then Response(upstream(3).status)
                                   else if upstream(3).OtherError? then Failed(UpstreamRaised)
                                   else Failed(ServiceUnavailable)))
  {
  }

  /** As written: without an app client, a transient error on the first attempt closes
      the local client, and the second attempt reuses it and raises RuntimeError, which
      is not retried.  Only one request is ever sent and no 503 is produced. */
  lemma AsWrittenClosedClient(upstream: nat -> Upstream)
    requires upstream(1).TransientError?
    ensures var r := RunAttempts(1, NoClient, true, upstream, AsWritten);
            r.outcome == Failed(ClientClosed) && r.calls == 1 && r.sleepsMs == [250]
  {
  }

  /** Forgetting the closed client makes the local-client loop behave as the app-client
      loop: same outcome, same requests, same backoffs, and the client is left closed. */
  lemma {:induction false} FreshClientMatchesAppClient(attempt: nat, upstream: nat -> Upstream)
    requires 1 <= attempt <= MAX_ATTEMPTS
    ensures var viaLocal := RunAttempts(attempt, NoClient, true, upstream, FreshLocalClient);
            var app := RunAttempts(attempt, AppClient, true, upstream, FreshLocalClient);
            viaLocal.outcome == app.outcome && viaLocal.calls == app.calls && viaLocal.sleepsMs == app.sleepsMs
            && viaLocal.client == LocalClosed
    decreases MAX_ATTEMPTS - attempt
  {
    if attempt < MAX_ATTEMPTS && upstream(attempt).TransientError? {
      FreshClientMatchesAppClient(attempt + 1, upstream);
    }
  }

  // ---- forward_request ----

  datatype Forwarded =
    | NotFound(detail: string)
    | Sent(target: Target, headers: map<string, PyValue>, run: Attempts)

  /** forward_request: rewrite, resolve, build headers, then the retry loop starting
      from the app-scoped client when there is one.  `policy` and `fwd` choose between
      the code as written and the corrected gateway. */
  function Forward(path: string, headers: map<string, string>, user: Option<Claims>, s: GatewaySettings,
                   appClient: bool, upstream: nat -> Upstream, policy: RetryPolicy, fwd: PathForwarding): Forwarded
  {
    match Resolved(RewritePath(path, s.apiVersion), ServiceRoutes(s), fwd)
    case Err(detail) => NotFound(detail)
    case Ok(target) =>
      var h := BuildHeaders(headers, user);
      Sent(target, h, RunAttempts(1, if appClient then AppClient else NoClient, Sendable(h), upstream, policy))
  }

  method ForwardRequest(req: Request, s: GatewaySettings, appClient: bool, upstream: nat -> Upstream, policy: RetryPolicy,
                        fwd: PathForwarding)
    returns (r: Forwarded)
    ensures r == Forward(req.path, req.headers, req.user, s, appClient, upstream, policy, fwd)
  {
    var path := RewritePath(req.path, s.apiVersion);
    var resolved := if fwd == StripServiceSegment then Resolve(path, ServiceRoutes(s)) else ResolveKeepingService(path, ServiceRoutes(s));
    if resolved.Err? {
      return NotFound(resolved.error);
    }
    var headers := BuildHeaders(req.headers, req.user);
    var run := RetryLoop(if appClient then AppClient else NoClient, Sendable(headers), upstream, policy);
    return Sent(resolved.value, headers, run);
  }
}
