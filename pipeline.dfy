/** The route wrappers: `withApi` for admin routes (per-IP mutation rate limit, cookie
    fallback allowed) and `withPublic` for storefront routes (host-resolved tenant only).
    Both run the handler inside the tenant context and turn anything it throws into a
    `fail` envelope. */
module RouteWrappers {
  import opened Common
  import opened Json
  import opened Requests
  import opened TtlCaches
  import opened Hosts
  import opened ResolveTenant
  import opened WithTenant
  import opened RateLimit
  import opened PrismaErrors
  import opened Http

  /** What the environment contributes: NODE_ENV and RL_MUTATION_PER_IP_PER_MIN (as a number;
      `None` when unset or empty). */
  datatype Env = Env(isProduction: bool, mutationPerIpPerMin: Option<int>)

  const MutationWindowMs := 60_000

  /** `Number(process.env.RL_MUTATION_PER_IP_PER_MIN || 120)`. */
  function MutationLimit(env: Env): int {
    if env.mutationPerIpPerMin.Some? then env.mutationPerIpPerMin.value else 120
  }

  /** The rate-limit bucket of a client address. */
  function MutationKey(ip: string): (k: string)
    ensures StartsWith(k, "mut:ip:") && k[7..] == ip
  {
    "mut:ip:" + ip
  }

  /** A thrown value: a ZodError (with its flattened issues), or another error whose own
      properties are `props` (a Prisma error has `code` and `meta` among them). */
  datatype ErrorKind = SyntaxErr | OtherErr
  datatype Thrown = ZodErr(flattened: Value) | Err(kind: ErrorKind, props: Value)

  /** What a handler does: answers a response, or throws. */
  datatype Outcome = Returned(res: Response) | Threw(err: Thrown)

  /** The catch block shared by both wrappers: validation errors, then database errors,
      then malformed JSON, then everything else. */
  function Classify(err: Thrown, req: Request, generated: string): (res: Response)
    ensures res.status in {400, 404, 409, 422, 500}
    ensures err.ZodErr? ==> res == Fail(422, "Invalid input", map["issues" := err.flattened], Some(req), None, generated)
    ensures err.Err? && IsPrismaKnownError(err.props) ==>
      res.status == StatusOfCode(Get(err.props, "code"))
      && res == Fail(res.status, MapPrismaError(err.props).value.message, map[], Some(req), None, generated)
    ensures err.Err? && !IsPrismaKnownError(err.props) && err.kind == SyntaxErr ==>
      res == Fail(400, "Malformed JSON", map[], Some(req), None, generated)
    ensures err.Err? && !IsPrismaKnownError(err.props) && err.kind == OtherErr ==>
      res == Fail(500, "Internal Server Error", map[], Some(req), None, generated)
  {
    match err
    case ZodErr(issues) => Fail(422, "Invalid input", map["issues" := issues], Some(req), None, generated)
    case Err(kind, props) =>
      var mapped := MapPrismaError(props);
      if mapped.Some? then Fail(mapped.value.status, mapped.value.message, map[], Some(req), None, generated)
      else if kind == SyntaxErr then Fail(400, "Malformed JSON", map[], Some(req), None, generated)
      else Fail(500, "Internal Server Error", map[], Some(req), None, generated)
  }

  /** A unique-constraint violation thrown by a handler reaches the client as 409. */
  lemma UniqueViolationAnswers409(props: Value, kind: ErrorKind, req: Request, generated: string)
    requires IsUniqueViolation(props, None)
    ensures Classify(Err(kind, props), req, generated).status == 409
    ensures Classify(Err(kind, props), req, generated).body.fields["error"] == Str("Unique constraint violation")
  {
    UniqueViolationIs409(props, None);
  }

  /** The outcome of the handler as the wrapper answers it: a returned response gets the
      request id header; a thrown error is classified. */
  function Finish(out: Outcome, req: Request, requestId: string, generated: string): (res: Response)
    ensures out.Returned? ==>
      res.status == out.res.status && res.body == out.res.body
      && "x-request-id" in res.headers && res.headers["x-request-id"] == requestId
    ensures out.Threw? ==> res == Classify(out.err, req, generated)
  {
    match out
    case Returned(r) => SetHeader(r, "x-request-id", requestId)
    case Threw(e) => Classify(e, req, generated)
  }

  function ApiOpts(env: Env): WithTenantOpts {
    WithTenantOpts(true, !env.isProduction)
  }

  function PublicOpts(env: Env): WithTenantOpts {
    WithTenantOpts(false, !env.isProduction)
  }

  /** The 429 answer of the mutation limiter. */
  function TooManyRequests(stats: RateStats, req: Request, generated: string): (res: Response)
    ensures res.status == 429
    ensures res.body.Obj? && "error" in res.body.fields && res.body.fields["error"] == Str("Too Many Requests")
    ensures "retry-after" in res.headers && "x-ratelimit-limit" in res.headers && "x-ratelimit-remaining" in res.headers
    ensures res.headers["retry-after"] == IntToString(if stats.retryAfter.Some? then stats.retryAfter.value else 60)
    ensures res.headers["x-ratelimit-limit"] == IntToString(stats.limit)
    ensures res.headers["x-ratelimit-remaining"] == IntToString(stats.remaining)
  {
    var retry := if stats.retryAfter.Some? then stats.retryAfter.value else 60;
    Fail(429, "Too Many Requests", map[], Some(req),
         Some(Init(None, map["retry-after" := IntToString(retry),
                             "x-ratelimit-limit" := IntToString(stats.limit),
                             "x-ratelimit-remaining" := IntToString(stats.remaining)])), generated)
  }

  /** `withApi(handler)(req)`. `logId` and `failId` are the ids the random generator would
      produce for the logger's and for `fail`'s own `getOrCreateRequestId` call; `ctx` is the
      context the handler ran with, `None` when it was not invoked. */
  method WithApi(limiter: RateLimiter, cache: TtlCache<string, Option<Resolution>>, domains: seq<Domain>,
                 env: Env, now: int, req: Request, handler: TenantContext -> Outcome,
                 logId: string, failId: string)
    returns (res: Response, resolved: Option<Resolution>, ctx: Option<TenantContext>)
    requires cache.Valid()
    modifies limiter, cache
    ensures cache.Valid()
    ensures req.verb == "GET" ==> limiter.store == old(limiter.store)
    ensures var (stats, store) := Hit(old(limiter.store), MutationKey(IpFromRequest(req.headers)),
                                      MutationLimit(env), MutationWindowMs, now);
      req.verb != "GET" ==>
        limiter.store == store
        && (!stats.ok <==> ctx.None?)
        && (!stats.ok ==> res == TooManyRequests(stats, req, failId))
    ensures req.verb == "GET" ==> ctx.Some?
    ensures ctx.None? ==> resolved.None? && cache.entries == old(cache.entries)
    ensures ctx.Some? ==>
      ResolveStep(old(cache.entries), cache.entries, cache.ttlMs, domains, HostFrom(req.headers),
                  ApiOpts(env).allowPendingInDev, env.isProduction, now, resolved)
    ensures ctx.Some? ==>
      ctx.value == Choose(resolved, CookieValue(HeaderOf(req.headers, "cookie"), TenantCookie), ApiOpts(env),
                          env.isProduction, req.headers, Some(req.url))
      && res == Finish(handler(ctx.value), req, GetOrCreateRequestId(req.headers, logId), failId)
  {
    var requestId := GetOrCreateRequestId(req.headers, logId);
    if req.verb != "GET" {
      var ip := IpFromRequest(req.headers);
      var stats := limiter.RateLimitFixedWindow(MutationKey(ip), MutationLimit(env), MutationWindowMs, now);
      if !stats.ok {
        return TooManyRequests(stats, req, failId), None, None;
      }
    }
    var jar := new CookieJar(map[]);
    var cookieTid, c;
    resolved, cookieTid, c := WithTenant.WithTenant(cache, domains, now, ApiOpts(env), env.isProduction, Some(req), map[], jar);
    ctx := Some(c);
    res := Finish(handler(c), req, requestId, failId);
  }

  /** The handler `withPublic` runs inside the tenant context: without a tenant it pretends
      the route does not exist. */
  function PublicInner(c: TenantContext, handler: TenantContext -> Outcome, req: Request, failId: string): Outcome {
    if c.tenantId.None? then Returned(Fail(404, "Not found", map[], Some(req), None, failId))
    else handler(c)
  }

  /** `withPublic(handler)(req)`. */
  method WithPublic(cache: TtlCache<string, Option<Resolution>>, domains: seq<Domain>,
                    env: Env, now: int, req: Request, handler: TenantContext -> Outcome,
                    logId: string, failId: string)
    returns (res: Response, resolved: Option<Resolution>, ctx: TenantContext)
    requires cache.Valid()
    modifies cache
    ensures cache.Valid()
    ensures ctx == Choose(resolved, CookieValue(HeaderOf(req.headers, "cookie"), TenantCookie), PublicOpts(env),
                          env.isProduction, req.headers, Some(req.url))
    ensures ResolveStep(old(cache.entries), cache.entries, cache.ttlMs, domains, HostFrom(req.headers),
                        PublicOpts(env).allowPendingInDev, env.isProduction, now, resolved)
    ensures ctx.source != Some(CookieSource)
    ensures env.isProduction ==> ctx.source.None? || ctx.source == Some(HostSource)
    ensures ctx.tenantId.None? ==>
      res.status == 404 && res.body.Obj? && "error" in res.body.fields && res.body.fields["error"] == Str("Not found")
    ensures res == Finish(PublicInner(ctx, handler, req, failId), req, GetOrCreateRequestId(req.headers, logId), failId)
  {
    var requestId := GetOrCreateRequestId(req.headers, logId);
    var jar := new CookieJar(map[]);
    var cookieTid;
    resolved, cookieTid, ctx := WithTenant.WithTenant(cache, domains, now, PublicOpts(env), env.isProduction, Some(req), map[], jar);
    res := Finish(PublicInner(ctx, handler, req, failId), req, requestId, failId);
  }
}
