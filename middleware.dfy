/** The edge middleware in front of every /api route: a request id, a per-IP
    limit on the auth endpoints, then (outside /api/auth/) the Origin check for
    non-GET methods and the double-submit CSRF check. */
module Middleware {
  import opened Common
  import opened Json
  import opened Requests
  import opened RateLimit
  import opened Http
  import opened Csrf
  import opened Origin

  const SkipCsrfForPaths := ["/api/security/csrf"]
  const SkipAllForPrefixes := ["/api/auth/"]
  const AuthWindowMs := 60_000

  /** `shouldSkipAll`: some skip prefix starts the path. */
  predicate ShouldSkipAll(pathname: string) {
    exists p | p in SkipAllForPrefixes :: StartsWith(pathname, p)
  }

  /** `shouldSkipCsrf`: the path is exactly one of the listed paths. */
  predicate ShouldSkipCsrf(pathname: string) {
    pathname in SkipCsrfForPaths
  }

  /** The environment the middleware reads: RL_AUTH_PER_IP_PER_MIN (a number, `None` when
      unset or empty), the Origin policy's variables and the CSRF names. */
  datatype MiddlewareEnv = MiddlewareEnv(authPerIpPerMin: Option<int>, origin: OriginEnv, csrf: CsrfNames)

  /** `Number(process.env.RL_AUTH_PER_IP_PER_MIN || 10)`. */
  function AuthLimit(env: MiddlewareEnv): int {
    if env.authPerIpPerMin.Some? then env.authPerIpPerMin.value else 10
  }

  /** A request as the middleware sees it: the framework's parsed cookies beside it. */
  datatype EdgeRequest = EdgeRequest(req: Request, cookies: map<string, string>)

  /** `NextResponse.next()` carrying the request id, or a denial. */
  datatype Verdict = Forward(requestId: string) | Denied(res: Response)

  /** The status the client sees: a forwarded request gets the route's answer, 200 here. */
  function StatusOf(v: Verdict): int {
    if v.Forward? then 200 else v.res.status
  }

  /** `denyJson`: `{ ok: false, error, requestId }` with the request id also in the header. */
  function DenyJson(requestId: string, status: int, error: string): (res: Response)
    ensures res.status == status
    ensures res.body == Obj(map["ok" := Bool(false), "error" := Str(error), "requestId" := Str(requestId)])
    ensures res.headers == map["x-request-id" := requestId]
  {
    Response(status, Obj(map["ok" := Bool(false), "error" := Str(error), "requestId" := Str(requestId)]),
             map["x-request-id" := requestId])
  }

  /** The 429 of the auth limiter: the denial plus the rate-limit headers. */
  function AuthDenied(requestId: string, stats: RateStats): Response {
    var res := DenyJson(requestId, 429, "Too Many Requests");
    res.(headers := res.headers["retry-after" := IntToString(if stats.retryAfter.Some? then stats.retryAfter.value else 60)]
                               ["x-ratelimit-limit" := IntToString(stats.limit)]
                               ["x-ratelimit-remaining" := IntToString(stats.remaining)])
  }

  /** The limiter key of a client address on the auth endpoints. */
  function AuthKey(h: Headers): string {
    "auth:ip:" + IpFromRequest(h)
  }

  predicate IsAuthPath(pathname: string) {
    StartsWith(pathname, "/api/auth/")
  }

  /** The gates in order, over the limiter store before the call; answers the verdict and the
      store after it. */
  function Gates(store: map<string, Bucket>, env: MiddlewareEnv, r: EdgeRequest, now: int, generated: string)
    : (out: (Verdict, map<string, Bucket>))
    ensures var requestId := GetOrCreateRequestId(r.req.headers, generated);
      (out.0.Forward? ==> out.0.requestId == requestId)
      && (out.0.Denied? ==>
            "x-request-id" in out.0.res.headers && out.0.res.headers["x-request-id"] == requestId
            && out.0.res.body.Obj? && "requestId" in out.0.res.body.fields
            && out.0.res.body.fields["requestId"] == Str(requestId))
    ensures !IsAuthPath(r.req.url.pathname) ==> out.1 == store
    ensures IsAuthPath(r.req.url.pathname) ==>
      out.1 == Hit(store, AuthKey(r.req.headers), AuthLimit(env), AuthWindowMs, now).1
    ensures out.0.Denied? && out.0.res.status == 429 <==>
      IsAuthPath(r.req.url.pathname) && !Hit(store, AuthKey(r.req.headers), AuthLimit(env), AuthWindowMs, now).0.ok
    ensures out.0.Denied? ==> out.0.res.status in {403, 429}
    ensures IsAuthPath(r.req.url.pathname) ==>
      (out.0.Forward? <==> Hit(store, AuthKey(r.req.headers), AuthLimit(env), AuthWindowMs, now).0.ok)
    ensures !IsAuthPath(r.req.url.pathname) ==>
      var origin := if r.req.verb != "GET" then VerifyOriginStrict(r.req.verb, r.req.headers, env.origin) else Pass;
      var csrf := if ShouldSkipCsrf(r.req.url.pathname) then Pass else VerifyDoubleSubmit(r.cookies, r.req.headers, env.csrf);
      (origin.Deny? ==> out.0 == Denied(DenyJson(GetOrCreateRequestId(r.req.headers, generated), 403, origin.error)))
      && (origin.Pass? && csrf.Deny? ==> out.0 == Denied(DenyJson(GetOrCreateRequestId(r.req.headers, generated), 403, csrf.error)))
      && (out.0.Forward? <==> origin.Pass? && csrf.Pass?)
  {
    var requestId := GetOrCreateRequestId(r.req.headers, generated);
    var pathname := r.req.url.pathname;
    var (stats, store') := if IsAuthPath(pathname) then Hit(store, AuthKey(r.req.headers), AuthLimit(env), AuthWindowMs, now)
                           else (RateStats(true, 0, 0, None, 0), store);
    if !stats.ok then (Denied(AuthDenied(requestId, stats)), store')
    else if ShouldSkipAll(pathname) then (Forward(requestId), store')
    else
      var originCheck := if r.req.verb != "GET" then VerifyOriginStrict(r.req.verb, r.req.headers, env.origin) else Pass;
      if originCheck.Deny? then (Denied(DenyJson(requestId, 403, originCheck.error)), store')
      else
        var csrfCheck := if ShouldSkipCsrf(pathname) then Pass else VerifyDoubleSubmit(r.cookies, r.req.headers, env.csrf);
        if csrfCheck.Deny? then (Denied(DenyJson(requestId, 403, csrfCheck.error)), store')
        else (Forward(requestId), store')
  }

  /** `middleware(req)`: the limiter store is the only state it changes. */
  method RunMiddleware(limiter: RateLimiter, env: MiddlewareEnv, r: EdgeRequest, now: int, generated: string)
    returns (v: Verdict)
    modifies limiter
    ensures (v, limiter.store) == Gates(old(limiter.store), env, r, now, generated)
  {
    var requestId := GetOrCreateRequestId(r.req.headers, generated);
    var pathname := r.req.url.pathname;
    if IsAuthPath(pathname) {
      var stats := limiter.RateLimitFixedWindow(AuthKey(r.req.headers), AuthLimit(env), AuthWindowMs, now);
      if !stats.ok {
        return Denied(AuthDenied(requestId, stats));
      }
    }
    if ShouldSkipAll(pathname) {
      return Forward(requestId);
    }
    if r.req.verb != "GET" {
      var originCheck := VerifyOriginStrict(r.req.verb, r.req.headers, env.origin);
      if originCheck.Deny? {
        return Denied(DenyJson(requestId, 403, originCheck.error));
      }
    }
    if !ShouldSkipCsrf(pathname) {
      var csrfCheck := VerifyDoubleSubmit(r.cookies, r.req.headers, env.csrf);
      if csrfCheck.Deny? {
        return Denied(DenyJson(requestId, 403, csrfCheck.error));
      }
    }
    v := Forward(requestId);
  }

  /** A GET without the double-submit pair is refused, except on the token endpoint itself. */
  lemma GetNeedsCsrf(store: map<string, Bucket>, env: MiddlewareEnv, r: EdgeRequest, now: int, generated: string)
    requires r.req.verb == "GET" && !IsAuthPath(r.req.url.pathname) && !ShouldSkipCsrf(r.req.url.pathname)
    requires CsrfHeader(r.req.headers, env.csrf).None?
    ensures StatusOf(Gates(store, env, r, now, generated).0) == 403
  {
  }
}
