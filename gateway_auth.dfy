/** The API gateway's authentication middleware (api_gateway/src/middleware/auth.py):
    which paths are public, and what the Authorization header must hold otherwise
    (the Bearer scheme of section 2.1 of RFC 6750).

    Token verification (jose's jwt.decode in api_gateway/src/security.py) is a
    parameter: `verify(token)` is the payload, or None when decoding raises. */
module GatewayAuth {

  import opened Wrappers
  import opened Text
  import opened PyValues
  import opened GatewayConfig
  import opened GatewayRequests
  import opened GatewayServices

  // ---- is_public_path ----

  /** The service part of is_public_path: at least two segments after stripping the
      outer slashes, a known service, and "/" plus the rest among its public paths. */
  predicate PublicServicePath(path: string, routes: map<string, Route>)
  {
    var parts := Split(StripChar(path, '/'), '/');
    |parts| >= 2 && parts[0] in routes && "/" + Join(parts[1..], "/") in routes[parts[0]].publicPaths
  }

  /** is_public_path as written: the literal "health", or a public service path. */
  predicate IsPublicPath(path: string, routes: map<string, Route>)
  {
    path == "health" || PublicServicePath(path, routes)
  }

  /** is_public_path as evidently intended: the URL path "/health" (which the rate
      limiter also exempts), or a public service path once the "/api/<version>/" prefix
      that forward_request strips is gone. */
  predicate IsPublicPathCorrected(path: string, s: GatewaySettings)
  {
    path == "/health" || PublicServicePath(RewritePath(path, s.apiVersion), ServiceRoutes(s))
  }

  /** A segment without slashes splits to itself. */
  lemma SplitOne(w: string)
    requires '/' !in w
    ensures Split(w, '/') == [w]
  {
    SplitPrefix(w, "", '/');
    assert w + "" == w;
  }

  lemma SplitTwo(a: string, b: string)
    requires '/' !in a && '/' !in b
    ensures Split(a + "/" + b, '/') == [a, b]
  {
    SplitOne(b);
    assert ("/" + b)[1..] == b;
    assert Split("/" + b, '/') == [""] + Split(b, '/');
    SplitPrefix(a, "/" + b, '/');
    assert a + "/" + b == a + ("/" + b);
    assert a + "" == a;
  }

  /** The first part of a split is the text before the first slash. */
  lemma SplitFirst(a: string, rest: string)
    requires '/' !in a
    ensures Split(a + "/" + rest, '/')[0] == a
  {
    assert ("/" + rest)[1..] == rest;
    assert Split("/" + rest, '/') == [""] + Split(rest, '/');
    SplitPrefix(a, "/" + rest, '/');
    assert a + "/" + rest == a + ("/" + rest);
    assert a + "" == a;
  }

  /** Stripping slashes from "/w" leaves w when w neither starts nor ends with one. */
  lemma StripLeadingSlash(w: string)
    requires w != [] && w[0] != '/' && w[|w| - 1] != '/'
    ensures StripChar("/" + w, '/') == w
  {
    assert ("/" + w)[1..] == w;
    assert LStripChar(w, '/') == w;
    assert LStripChar("/" + w, '/') == w;
    assert RStripChar(w, '/') == w;
  }

  /** A public service path is "auth/register" or "auth/token" once stripped. */
  lemma PublicServicePathSound(path: string, s: GatewaySettings)
    requires PublicServicePath(path, ServiceRoutes(s))
    ensures StripChar(path, '/') == "auth" + "/" + "register" || StripChar(path, '/') == "auth" + "/" + "token"
  {
    var routes := ServiceRoutes(s);
    var p := StripChar(path, '/');
    var parts := Split(p, '/');
    var rest := Join(parts[1..], "/");
    assert parts[0] in routes && "/" + rest in routes[parts[0]].publicPaths;
    assert parts[0] == "auth" by {
      assert parts[0] in SERVICES;
    }
    assert "/" + rest == "/register" || "/" + rest == "/token";
    assert rest == ("/" + rest)[1..];
    assert rest == "register" || rest == "token";
    JoinSplit(p, '/');
    assert p == Join(parts, "/") == parts[0] + "/" + rest;
  }

  /** A path that strips to "<service>/<last>" is a public service path when
      "/<last>" is among that service's public paths. */
  lemma TwoSegmentsPublic(path: string, service: string, last: string, routes: map<string, Route>)
    requires '/' !in service && '/' !in last
    requires StripChar(path, '/') == service + "/" + last
    requires service in routes && "/" + last in routes[service].publicPaths
    ensures PublicServicePath(path, routes)
  {
    var parts := Split(StripChar(path, '/'), '/');
    SplitTwo(service, last);
    assert parts[1..] == [last];
    assert Join(parts[1..], "/") == last;
  }

  lemma SlashRegister()
    ensures "/" + "register" == "/register"
  {
  }

  lemma SlashToken()
    ensures "/" + "token" == "/token"
  {
  }

  /** The auth service's first public path, "/register". */
  lemma RegisterPublic(path: string, s: GatewaySettings)
    requires StripChar(path, '/') == "auth" + "/" + "register"
    ensures PublicServicePath(path, ServiceRoutes(s))
  {
    var routes := ServiceRoutes(s);
    assert "/" + "register" in routes["auth"].publicPaths by {
      SlashRegister();
      assert routes["auth"].publicPaths[0] == "/register";
    }
    assert '/' !in "auth" && '/' !in "register";
    TwoSegmentsPublic(path, "auth", "register", routes);
  }

  /** The auth service's second public path, "/token". */
  lemma TokenPublic(path: string, s: GatewaySettings)
    requires StripChar(path, '/') == "auth" + "/" + "token"
    ensures PublicServicePath(path, ServiceRoutes(s))
  {
    var routes := ServiceRoutes(s);
    assert "/" + "token" in routes["auth"].publicPaths by {
      SlashToken();
      assert routes["auth"].publicPaths[1] == "/token";
    }
    assert '/' !in "auth" && '/' !in "token";
    TwoSegmentsPublic(path, "auth", "token", routes);
  }

  /** Both auth paths are public service paths. */
  lemma PublicServicePathComplete(path: string, s: GatewaySettings)
    requires StripChar(path, '/') == "auth" + "/" + "register" || StripChar(path, '/') == "auth" + "/" + "token"
    ensures PublicServicePath(path, ServiceRoutes(s))
  {
    if StripChar(path, '/') == "auth" + "/" + "register" {
      RegisterPublic(path, s);
    } else {
      TokenPublic(path, s);
    }
  }

  /** With the gateway's routes, a path is a public service path exactly when, without
      its outer slashes, it is "auth/register" or "auth/token". */
  lemma PublicServicePathIff(path: string, s: GatewaySettings)
    ensures PublicServicePath(path, ServiceRoutes(s)) <==>
            (StripChar(path, '/') == "auth" + "/" + "register" || StripChar(path, '/') == "auth" + "/" + "token")
  {
    if PublicServicePath(path, ServiceRoutes(s)) {
      PublicServicePathSound(path, s);
    }
    if StripChar(path, '/') == "auth" + "/" + "register" || StripChar(path, '/') == "auth" + "/" + "token" {
      PublicServicePathComplete(path, s);
    }
  }

  /** As written, a path is public exactly when it is the literal "health" or strips
      to "auth/register" or "auth/token". */
  lemma AsWrittenPublicPaths(path: string, s: GatewaySettings)
    ensures IsPublicPath(path, ServiceRoutes(s)) <==>
            (path == "health" || StripChar(path, '/') == "auth" + "/" + "register" || StripChar(path, '/') == "auth" + "/" + "token")
  {
    PublicServicePathIff(path, s);
  }

  /** As written, the URL path "/health" needs a token: it strips to one segment. */
  lemma AsWrittenHealthNotPublic(s: GatewaySettings)
    ensures !IsPublicPath("/" + "health", ServiceRoutes(s))
  {
    StripLeadingSlash("health");
    SplitOne("health");
  }

  /** As written, a path whose first segment names no service is never a public
      service path. */
  lemma FirstSegmentNotService(first: string, rest: string, s: GatewaySettings)
    requires first != [] && first[0] != '/' && '/' !in first && first !in SERVICES
    requires rest != [] && rest[|rest| - 1] != '/'
    ensures !PublicServicePath("/" + first + "/" + rest, ServiceRoutes(s))
  {
    var w := first + "/" + rest;
    assert "/" + first + "/" + rest == "/" + w;
    assert w[0] == first[0] && w[|w| - 1] == rest[|rest| - 1];
    StripLeadingSlash(w);
    SplitFirst(first, rest);
  }

  /** As written, the versioned login path "/api/v1/auth/token" needs a token: its
      first segment is "api", which is no service. */
  lemma AsWrittenVersionedLoginNotPublic(s: GatewaySettings)
    ensures !IsPublicPath("/" + "api" + "/" + "v1/auth/token", ServiceRoutes(s))
  {
    FirstSegmentNotService("api", "v1/auth/token", s);
  }

  /** Corrected: the URL path "/health" is public. */
  lemma CorrectedHealthPublic(s: GatewaySettings)
    ensures IsPublicPathCorrected("/health", s)
  {
  }

  /** Corrected: under the versioned prefix exactly the two auth paths are public. */
  lemma CorrectedVersionedPaths(rest: string, s: GatewaySettings)
    ensures IsPublicPathCorrected("/api/" + s.apiVersion + "/" + rest, s) <==>
            (StripChar(rest, '/') == "auth" + "/" + "register" || StripChar(rest, '/') == "auth" + "/" + "token")
  {
    var path := "/api/" + s.apiVersion + "/" + rest;
    RewriteVersioned(s.apiVersion, rest);
    PublicServicePathIff(rest, s);
    assert path[1] == 'a';
    assert path != "/health" by { assert "/health"[1] == 'h'; }
  }

  // ---- auth_middleware ----

  /** Which is_public_path the middleware consults. */
  datatype PathCheck = AsWrittenCheck | CorrectedCheck

  function IsPublic(path: string, s: GatewaySettings, check: PathCheck): bool
  {
    if check == AsWrittenCheck then IsPublicPath(path, ServiceRoutes(s)) else IsPublicPathCorrected(path, s)
  }

  /** The WWW-Authenticate challenge every 401 of the middleware carries. */
  const WWW_AUTHENTICATE := "Bearer"

  /** Passing the request on, or raising HTTPException(401) with a challenge and a detail. */
  datatype AuthOutcome = PassedOn | Unauthorized(challenge: string, detail: string)

  /** auth_middleware's decision and the payload it stores in request.state.user. */
  function AuthDecision(path: string, authorization: Option<string>, verify: string -> Option<Claims>,
                        s: GatewaySettings, check: PathCheck): (Option<Claims>, AuthOutcome)
  {
    if IsPublic(path, s, check) then (None, PassedOn)
    else if authorization.None? || authorization.value == "" then (None, Unauthorized(WWW_AUTHENTICATE, "Missing authentication token"))
    else
      var parts := Words(authorization.value);
      if |parts| != 2 then (None, Unauthorized(WWW_AUTHENTICATE, "Invalid authentication format"))
      else if LowerAscii(parts[0]) != "bearer" then (None, Unauthorized(WWW_AUTHENTICATE, "Invalid authentication scheme"))
      else match verify(parts[1])
        case None => (None, Unauthorized(WWW_AUTHENTICATE, "Invalid authentication credentials"))
        case Some(payload) => (Some(payload), PassedOn)
  }

  method AuthMiddleware(req: Request, s: GatewaySettings, verify: string -> Option<Claims>, check: PathCheck)
    returns (outcome: AuthOutcome)
    modifies req
    ensures var (user, out) := AuthDecision(req.path, Authorization(req.headers), verify, s, check);
            outcome == out && req.user == (if user.Some? then user else old(req.user))
  {
    if IsPublic(req.path, s, check) {
      return PassedOn;
    }
    var header := Authorization(req.headers);
    if header.None? || header.value == "" {
      return Unauthorized(WWW_AUTHENTICATE, "Missing authentication token");
    }
    // scheme, token = auth_header.split(); a ValueError means "Invalid authentication format"
    var parts := Words(header.value);
    if |parts| != 2 {
      return Unauthorized(WWW_AUTHENTICATE, "Invalid authentication format");
    }
    var scheme, token := parts[0], parts[1];
    if LowerAscii(scheme) != "bearer" {
      return Unauthorized(WWW_AUTHENTICATE, "Invalid authentication scheme");
    }
    var payload := verify(token);
    if payload.None? {
      return Unauthorized(WWW_AUTHENTICATE, "Invalid authentication credentials");
    }
    req.user := payload;
    return PassedOn;
  }

  // ---- what the middleware promises ----

  /** A public path passes whatever the header says, and no user is set. */
  lemma PublicIgnoresHeader(path: string, a: Option<string>, b: Option<string>, verify: string -> Option<Claims>,
                            s: GatewaySettings, check: PathCheck)
    requires IsPublic(path, s, check)
    ensures AuthDecision(path, a, verify, s, check) == AuthDecision(path, b, verify, s, check) == (None, PassedOn)
  {
  }

  /** Errors come in this order: missing header, not two words, scheme not "bearer"
      (any case), token not verified.  A request passes a non-public path exactly when
      all four checks pass, and then the stored user is the verified payload. */
  lemma ErrorPrecedence(path: string, authorization: Option<string>, verify: string -> Option<Claims>,
                        s: GatewaySettings, check: PathCheck)
    requires !IsPublic(path, s, check)
    ensures var (user, out) := AuthDecision(path, authorization, verify, s, check);
            && ((authorization.None? || authorization.value == "") ==> out == Unauthorized(WWW_AUTHENTICATE, "Missing authentication token"))
            && (authorization.Some? && authorization.value != "" ==>
                  var parts := Words(authorization.value);
                  && (|parts| != 2 ==> out == Unauthorized(WWW_AUTHENTICATE, "Invalid authentication format"))
                  && (|parts| == 2 && LowerAscii(parts[0]) != "bearer" ==> out == Unauthorized(WWW_AUTHENTICATE, "Invalid authentication scheme"))
                  && (|parts| == 2 && LowerAscii(parts[0]) == "bearer" ==>
                        (out == PassedOn <==> verify(parts[1]).Some?) && user == verify(parts[1])))
            && (out == PassedOn <==> user.Some?)
            && (out.Unauthorized? ==> out.challenge == WWW_AUTHENTICATE)
  {
  }

  /** A header of nothing but whitespace is present, so it is not "missing": it splits
      into no words and is refused as a malformed header. */
  lemma BlankHeaderIsFormatError(path: string, header: string, verify: string -> Option<Claims>,
                                 s: GatewaySettings, check: PathCheck)
    requires !IsPublic(path, s, check)
    requires header != [] && forall i :: 0 <= i < |header| ==> IsSpace(header[i])
    ensures AuthDecision(path, Some(header), verify, s, check)
            == (None, Unauthorized(WWW_AUTHENTICATE, "Invalid authentication format"))
  {
    BlankHasNoWords(header);
  }

  /** "<scheme><spaces><token>" with a scheme that lower-cases to "bearer" hands
      exactly the token to the verifier. */
  lemma BearerToken(path: string, scheme: string, gap: string, token: string, verify: string -> Option<Claims>,
                    s: GatewaySettings, check: PathCheck)
    requires !IsPublic(path, s, check)
    requires IsWord(scheme) && IsWord(token) && LowerAscii(scheme) == "bearer"
    requires gap != [] && forall i :: 0 <= i < |gap| ==> IsSpace(gap[i])
    ensures AuthDecision(path, Some(scheme + gap + token), verify, s, check)
            == (if verify(token).Some? then (verify(token), PassedOn) else (None, Unauthorized(WWW_AUTHENTICATE, "Invalid authentication credentials")))
  {
    WordsOfTwo(scheme, gap, token);
  }
}
