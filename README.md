# Multi-tenant request-safety layer, in Dafny

This project models the request-safety core of a multi-tenant e-commerce admin API (a Next.js
application over a Prisma database) and proves properties of that model. The modelled pieces are:

- the **tenant guard**: a query extension bound to one tenant. It ANDs the tenant into every
  multi-row filter, injects or checks the tenant on created rows, insists that upserts are keyed
  by the tenant, and bans single-row operations;
- the product repository on top of the guard;
- the **idempotency store**: reservation, replay, persistence and the retention sweep;
- the fixed-window **rate limiter** and the **TTL cache**;
- **tenant resolution**: host normalisation, the host-to-domain lookup behind a negative cache,
  and the precedence of host, cookie, development header and development query parameter;
- the **request pipeline**: the edge middleware's gates, the `withApi`/`withPublic` wrappers, the
  Prisma error table and the `{ ok, … }` response envelope;
- the admin **handlers**: member listing and idempotent member creation, the product listing with
  cursor paging and product creation, and tenant selection;
- the **validators** and string logic: the zod schemas as explicit checks, audit redaction and
  diffs, CSRF double-submit with a constant-time compare, the Origin/Referer policy, URL joining
  and query setting, and the canonical origin.

Each source file becomes one module (`tenant-scoped.ts` → `TenantGuard`, `idempotency.ts` →
`Idempotency`, …). Shared vocabulary lives in `Common` (strings), `Json` (JavaScript values:
`Undef | Null | Bool | Num | Str | Arr | Obj`), `Requests` (headers, URLs) and `Table`.

`Table` is a small query engine: rows with fields, `where` evaluation with `AND`/`OR`/`NOT`,
and the Prisma operations the guard dispatches. It stands in for Prisma's database so that the
guard's isolation can be stated.

Code that changes state in place is modelled as classes with `modifies` clauses:

- `TtlCache`, `RateLimiter`, `IdempotencyStore`, `TenantClient`, `SystemDb`, `CookieJar`,
  `ResponseCookies`;
- the guard's argument object `QueryArgs`, which `$allOperations` rewrites;
- loops become methods with invariants: `RandomHex`, `TimingSafeEqual`, `RedactOnce`, `Pick`,
  `ReadCookie`, `SetEntries`.

Each such method is specified by a function of its inputs and old state, and the properties are
proved about those functions. Tenant resolution is the exception: it is specified by a relation
(`ResolveTenant.ResolveStep`) between the cache contents before and after a lookup and the answer,
which leaves open which other entry a miss drops (the stale one, or the oldest when the cache is
full).

Inputs the system takes from its environment are parameters:

- the clock becomes `now: int`;
- environment variables become explicit records (`Env`, `OriginEnv`, `CanonEnv`, `MiddlewareEnv`);
- randomness becomes the byte sequence it would produce;
- the session's user id and the current tenant id are handler inputs;
- the rows other requests insert concurrently are a `raced` parameter, and a failed insert is an
  `insertFails` flag.

Behaviour of the code worth noting:

- The resolver caches under the normalised host only. A result computed with
  `allowPendingInDev` on is served to a later call with it off (`CacheIgnoresPendingFlag`).
- The product `POST` does not use the idempotency store, so a retried creation answers 409
  (`SkuConflictAnswered`), not a replay.
- The members `POST` replays a stored answer with status 201, whatever status was stored.
- The product listing's `select` has no `version` (`Selected`).

## Model

| member | source | states |
|---|---|---|
| TenantGuard.CreateTenantGuard | src/lib/db/tenant-scoped.ts:67-68 | a guard exists exactly for a non-empty tenant id, and is bound to it; an empty id is refused with "tenantId required" |
| TenantGuard.Message | src/lib/db/tenant-scoped.ts:13 | every guard error message starts with the `[TenantGuard]` prefix |
| TenantGuard.WithTenantMeaning | src/lib/db/tenant-scoped.ts:16-19 | the rewritten filter matches a row exactly when the row belongs to the bound tenant and the caller's filter matches it; the caller cannot drop the tenant conjunct |
| TenantGuard.InjectTenantInData | src/lib/db/tenant-scoped.ts:25-65 | non-objects pass unchanged; both `tenantId` and `tenant` is refused; a foreign relation id or a different flat `tenantId` is refused; an absent or null `tenantId` is filled in; an accepted object always writes the bound tenant and keeps every other field |
| TenantGuard.InjectIdempotent | src/lib/db/tenant-scoped.ts:25-65 | injecting into an already injected payload changes nothing (for a payload whose `tenant` entry, if any, is an object) |
| TenantGuard.InjectAll | src/lib/db/tenant-scoped.ts:98-107 | `createMany` over an array applies the create rule element by element, keeps the length, and fails exactly when some element fails |
| TenantGuard.Police | src/lib/db/tenant-scoped.ts:74-150 | the hook as written: models outside Product/Membership/AuditLog pass unchanged; banned operations throw; read and write-many operations get the tenant conjunct; an upsert without a tenant-keyed `where` is refused; unlisted names pass through untouched |
| TenantGuard.PoliceUpsert | src/lib/db/tenant-scoped.ts:110-135 | an accepted upsert keeps its `where`, sends `create` through the injection rule, and sends `update` through it only when `update` is truthy |
| TenantGuard.AllOperations | src/lib/db/tenant-scoped.ts:74-150 | rewrites the argument object in place to the policed arguments, and answers what the guard and the query answer together |
| GuardIsolation.ClassifyStrict | src/lib/db/tenant-scoped.ts:80-149 | the corrected dispatcher: no operation passes through unguarded; every listed operation keeps its bucket; only the `OrThrow`/`AndReturn` siblings of listed reads and writes are admitted, all other names are banned |
| GuardIsolation.PoliceStrict | src/lib/db/tenant-scoped.ts:74-150 | the corrected hook: same refusals as the original, plus `updateMany` data goes through the injection rule and the upsert key test ignores `NOT` |
| GuardIsolation.StrictAgreesWithWritten | src/lib/db/tenant-scoped.ts:74-150 | on every listed operation except `updateMany`, and on upserts that pass the stricter key test, the corrected hook answers exactly what the original answers |
| GuardIsolation.StrictKeyedMatchesOwn | src/lib/db/tenant-scoped.ts:110-125 | a `where` that passes the strict key test matches only rows of the bound tenant |
| GuardIsolation.InjectedKeepsOwner | src/lib/db/tenant-scoped.ts:25-65 | a payload the injection rule accepts never writes another tenant into a row |
| GuardIsolation.FilteredRowsOwned | src/lib/db/tenant-scoped.ts:82-91 | every row a tenant-rewritten filter selects belongs to the bound tenant |
| GuardIsolation.GuardedReadsIsolated | src/lib/db/tenant-scoped.ts:82-91 | a guarded read as written answers only rows of the bound tenant and leaves the table unchanged |
| GuardIsolation.StrictGuardIsolation | src/lib/db/tenant-scoped.ts:74-150 | a caller bound to tenant A is never handed a row of tenant B, and B's rows are exactly as they were, whatever operation and arguments are used |
| GuardIsolation.CreatedRowsNotOwned | src/lib/db/tenant-scoped.ts:98-107 | rows `createMany` inserts after the create rule belong to no other tenant |
| GuardIsolation.UpsertNotOwned | src/lib/db/tenant-scoped.ts:110-135 | a strictly keyed upsert neither reads nor writes another tenant's rows |
| GuardIsolation.OrThrowBypassesGuard | src/lib/db/tenant-scoped.ts:147-149 | as written, `findFirstOrThrow` falls to `default` and returns tenant B's row to a caller bound to A; the corrected guard finds nothing |
| GuardIsolation.UpdateManyRehomesRows | src/lib/db/tenant-scoped.ts:82-91 | as written, `updateMany` with `data: { tenantId: B }` moves tenant A's row to tenant B; the corrected guard refuses it |
| GuardIsolation.NotFilterEscapesKeyTest | src/lib/db/tenant-scoped.ts:113-125 | a `where` `{ id, NOT: { tenantId: A } }` passes the original key test, fails the strict one, and matches tenant B's row |
| GuardIsolation.UpsertNotKeyedViaNot | src/lib/db/tenant-scoped.ts:110-135 | as written, that upsert takes over tenant B's row |
| GuardIsolation.StrictRefusesNotFilter | src/lib/db/tenant-scoped.ts:126-128 | the corrected guard refuses that upsert as not tenant-keyed |
| RepoUtils.AssertOne | src/lib/core/repo-utils.ts:3-5 | returns normally exactly when the count is 1, otherwise a `NotFoundError` carrying the given message |
| RepoUtils.DefaultNotFound | src/lib/core/repo-utils.ts:7-9 | the default error's message is "Not found" and its name is "NotFoundError" |
| ProductRepo.Fields | src/lib/core/product.repo.ts:6-13 | the caller's record holds sku, name and price, and each optional field exactly when it is given |
| ProductRepo.CreatePayloadAccepted | src/lib/core/product.repo.ts:26-37 | the guard lets the create payload through unchanged, and the inserted row carries the caller's fields, the bound tenant and the new id |
| ProductRepo.IdFilterMeaning | src/lib/core/product.repo.ts:15-17 | the guarded by-id filter matches exactly the tenant's row with that id |
| ProductRepo.FilterByIdCount | src/lib/core/product.repo.ts:39-51 | a guarded by-id `updateMany`/`deleteMany` counts exactly the tenant's rows with that id |
| ProductRepo.TenantClient.ById | src/lib/core/product.repo.ts:15-17 | answers the guarded `findFirst`; a found row is the tenant's and has the id; nothing found means the tenant has no such row |
| ProductRepo.TenantClient.RequireById | src/lib/core/product.repo.ts:19-23 | throws `NotFoundError("Product not found")` exactly when the tenant has no product with that id |
| ProductRepo.TenantClient.Create | src/lib/core/product.repo.ts:26-37 | a `tenantId` argument naming another tenant is refused by the guard (`RelationMismatch`, "Data tenant.connect.id does not match context") and nothing is written; otherwise one row owned by the bound tenant with the caller's fields is inserted, or a sku the tenant already has fails with the (tenantId, sku) unique violation and changes nothing |
| ProductRepo.CreatePayloadPoliced | src/lib/core/product.repo.ts:26-37 | the guard refuses a payload connecting another (non-empty) tenant id with `RelationMismatch`; a payload connecting the bound tenant, or an empty id, is passed on connected to the bound tenant |
| ProductRepo.CreateExecuted | src/lib/core/product.repo.ts:26-37 | `create(db, tenantIdArg, d)` through the guard: a foreign `tenantIdArg` is rejected with the table unchanged; otherwise exactly the row its payload describes is appended, owned by the bound tenant and carrying the caller's sku and name |
| ProductRepo.TenantClient.UpdateById | src/lib/core/product.repo.ts:39-46 | runs the guarded `updateMany`; fails with "Product not updated" unless exactly one row matched; other tenants' rows are untouched |
| ProductRepo.TenantClient.DeleteById | src/lib/core/product.repo.ts:48-51 | removes exactly the tenant's rows with that id; fails with "Product not deleted" unless there was exactly one; other tenants' rows are untouched |
| Idempotency.GetIdempotencyKey | src/lib/security/idempotency.ts:7-16 | no key for an absent or blank header; an error for a trimmed key over 200 characters; otherwise the trimmed, non-empty key |
| Idempotency.FpFrom | src/lib/security/idempotency.ts:26-35 | the fingerprint is the key, the upper-cased method, the path, and the user and tenant (or null) |
| Idempotency.FingerprintIgnoresQuery | src/lib/security/idempotency.ts:26-35 | the query string and the method's letter case do not change the fingerprint |
| Idempotency.FindFirst | src/lib/security/idempotency.ts:62-69 | finds the first record with the fingerprint, and nothing exactly when none has it |
| Idempotency.Existing | src/lib/security/idempotency.ts:70-75 | a found record with a stored status and response replays exactly those; any other found record is in progress |
| Idempotency.Reserve | src/lib/security/idempotency.ts:49-107 | no key: "none", nothing stored; an over-long key: error; when a record with the request's fingerprint exists, the answer is `Existing` of the first such record (replay when completed, in progress otherwise) and nothing is stored; when none exists and the insert fails or loses the race, the answer is `Existing` of the first matching record after the re-read; when no row has the fingerprint after the re-read and the insert succeeds, a pending row is appended and "reserved" is answered; "none" is answered exactly when there is no key; a replay is always the first completed record with the request's own fingerprint; rows are only ever added |
| Idempotency.Persist | src/lib/security/idempotency.ts:110-129 | a status outside [200, 300) changes nothing; otherwise exactly the records with the fingerprint get the status and the response (an `undefined` response is left out of the update, so the stored one stays), and every other record is unchanged |
| Idempotency.PersistIsolated | src/lib/security/idempotency.ts:110-129 | persisting under one fingerprint never changes what a lookup of another fingerprint finds |
| Idempotency.PersistThenFind | src/lib/security/idempotency.ts:110-129 | after persisting a success, the lookup finds the record completed with that status and response |
| Idempotency.ReplayAfterPersist | src/lib/security/idempotency.ts:49-129 | a retry of a reserved, then persisted, request (same key, method, path, user and tenant; any query) replays exactly the stored answer |
| Idempotency.DuplicateWhilePending | src/lib/security/idempotency.ts:70-75 | a duplicate that arrives while the first is pending is answered "in progress" |
| Idempotency.UndefinedBodyStaysInProgress | src/lib/security/idempotency.ts:70-75 | a reserved request whose success is persisted with an `undefined` body keeps a null response, so a retry is answered "in progress" |
| Idempotency.FindFirstAppend | src/lib/security/idempotency.ts:79-89 | a pending row appended for an unseen fingerprint is what the next lookup finds |
| Idempotency.RetentionHours | scripts/cleanup-idempotency.mjs:8 | the retention window is 24 hours unless configured |
| Idempotency.Cutoff | scripts/cleanup-idempotency.mjs:9 | the cutoff is now minus the window in milliseconds, 86 400 000 by default |
| Idempotency.Sweep | scripts/cleanup-idempotency.mjs:11-13 | exactly the records created before the cutoff are removed, pending or completed alike |
| Idempotency.SweepIdempotent | scripts/cleanup-idempotency.mjs:11-13 | sweeping twice with the same cutoff removes nothing more |
| Idempotency.IdempotencyStore.ReserveIdempotency | src/lib/security/idempotency.ts:49-107 | answers and leaves the table exactly as `Reserve` describes: "none" exactly without a key; a request with a key whose fingerprint no row holds, whose insert succeeds, is reserved with a pending row appended; a replay is the stored answer of the request's own fingerprint |
| Idempotency.IdempotencyStore.PersistIdempotentSuccess | src/lib/security/idempotency.ts:110-129 | leaves the table as `Persist` describes |
| Idempotency.IdempotencyStore.Cleanup | scripts/cleanup-idempotency.mjs:7-13 | leaves the table as `Sweep` at the computed cutoff describes, and reports how many rows were deleted |
| RateLimit.CeilDiv | src/lib/security/rate-limit.ts:53 | the quotient rounded up |
| RateLimit.Live | src/lib/security/rate-limit.ts:41-45 | a live bucket is kept; an absent or expired one restarts at count 0 with resetAt = now + window |
| RateLimit.Hit | src/lib/security/rate-limit.ts:33-65 | allowed exactly when the live count is under the limit; allowed calls add 1 and report the remaining count; denied calls leave the bucket, report 0 remaining and retryAfter = max(1, ceil((resetAt − now)/1000)); no other key changes |
| RateLimit.LiveWindowKept | src/lib/security/rate-limit.ts:41-45 | a call inside a live window never moves its resetAt |
| RateLimit.ExpiredWindowRestarts | src/lib/security/rate-limit.ts:41-45 | the first call after resetAt is allowed and starts a new window with count 1 |
| RateLimit.Calls | src/lib/security/rate-limit.ts:33-65 | a sequence of calls answers one verdict per call |
| RateLimit.CallsInLiveWindow | src/lib/security/rate-limit.ts:41-64 | inside one live window the i-th call is allowed exactly when the count before it plus i is under the limit |
| RateLimit.ExactlyLimitPerWindow | src/lib/security/rate-limit.ts:41-64 | starting a fresh window, exactly the first `limit` calls inside it are allowed |
| RateLimit.RateLimiter.RateLimitFixedWindow | src/lib/security/rate-limit.ts:33-65 | updates the store and answers as `Hit` describes |
| RateLimit.KeyOf | src/lib/security/rate-limit.ts:16-18 | the key is empty exactly when no part is truthy |
| RateLimit.KeyOfSplits | src/lib/security/rate-limit.ts:16-18 | splitting the key on "\|" gives back the truthy parts' texts |
| RateLimit.IpFromRequest | src/lib/security/rate-limit.ts:20-27 | the trimmed first x-forwarded-for entry, else x-real-ip, else "127.0.0.1" |
| TtlCaches.TtlCache.constructor | src/lib/cache/ttlCache.ts:4-7 | an empty cache with the given TTL and size bound |
| TtlCaches.TtlCache.Get | src/lib/cache/ttlCache.ts:8-16 | an absent key answers nothing and changes nothing; an expired entry answers nothing and is removed; a live one answers its value and changes nothing |
| TtlCaches.TtlCache.Set | src/lib/cache/ttlCache.ts:18-25 | with a bound reached, the oldest key is evicted first, even when it is the key being set; the entry then holds the value with expiry now + TTL; a re-set key keeps its place in the order; size stays within a non-zero bound |
| TtlCaches.TtlCache.Delete | src/lib/cache/ttlCache.ts:27 | removes only that key |
| TtlCaches.TtlCache.Clear | src/lib/cache/ttlCache.ts:28 | empties the cache |
| TtlCaches.ExpiredStaysGone | src/lib/cache/ttlCache.ts:11-14 | a read after expiry removes the entry, and a later read also finds nothing |
| Hosts.TrailingDigits | src/lib/hosts/normalizeHost.ts:15 | the length of the longest all-digit suffix |
| Hosts.StripPort | src/lib/hosts/normalizeHost.ts:15 | a trailing ":" plus digits is removed; anything else is kept |
| Hosts.NormalizeHost | src/lib/hosts/normalizeHost.ts:7-28 | null and "" give null, as does a blank first value; a result is localhost, domain-like or IP-like, and contains only lower-case letters, digits, '.' and '-' |
| Hosts.FirstValueOnly | src/lib/hosts/normalizeHost.ts:10-12 | only the first comma-separated value counts: `a + "," + b` normalises like `a` for any `a` without a comma |
| Hosts.PortIgnored | src/lib/hosts/normalizeHost.ts:14-15 | a trailing ":<digits>" is dropped: `h + ":" + d` normalises like `h` for digits `d` and any comma-free `h` that does not end in a space or a port of its own |
| Hosts.NormalizeLowered | src/lib/hosts/normalizeHost.ts:17-18 | normalising the lower-cased header gives the same result as normalising the header |
| Hosts.CaseInsensitive | src/lib/hosts/normalizeHost.ts:17-18 | two headers that agree up to letter case normalise alike |
| Hosts.UpperCaseIgnored | src/lib/hosts/normalizeHost.ts:17-18 | upper-casing the header does not change its normal form |
| Hosts.NormalizeExample | src/lib/hosts/normalizeHost.ts:7-28 | "Shop.Example.COM:3000, x" normalises to "shop.example.com" (first value, port stripped, lower-cased) |
| Hosts.HostCharset | src/lib/hosts/normalizeHost.ts:22-27 | an accepted host has no upper case, comma, blank or ':' |
| Hosts.NormalizeFixpoint | src/lib/hosts/normalizeHost.ts:7-28 | a result that does not start with "www." normalises to itself |
| Hosts.NotIdempotent | src/lib/hosts/normalizeHost.ts:18-19 | only one "www." is stripped: "www.www.example.com" gives "www.example.com", and normalising again gives "example.com" |
| Hosts.HostFrom | src/lib/tenant/withTenant.ts:24-29 | a normalisable x-forwarded-host wins; otherwise the normalised Host; an invalid forwarded host does not block the fallback (getRequestHost.ts:6-15 makes the same choice) |
| ResolveTenant.FindDomain | src/lib/tenant/resolveTenantByHost.ts:22-25 | the domain row whose host equals the normalised host, or nothing exactly when none does |
| ResolveTenant.Decide | src/lib/tenant/resolveTenantByHost.ts:29-37 | resolves exactly for a verified domain, or a pending one with the development flag on outside production, to its tenant and primary flag |
| ResolveTenant.ProductionNeedsVerified | src/lib/tenant/resolveTenantByHost.ts:32-35 | in production an unverified domain never resolves |
| ResolveTenant.NewResolveCache | src/lib/tenant/resolveTenantByHost.ts:9 | an empty cache with a 30 s TTL and at most 500 entries |
| ResolveTenant.ResolveTenantByHost | src/lib/tenant/resolveTenantByHost.ts:11-41 | a host that does not normalise gives null and leaves the cache alone; a live cached answer, null included, is returned without a lookup and the cache is left as it was; otherwise the domain table's decision is returned and cached under the host until now + TTL, and every other entry is kept or dropped, never changed |
| ResolveTenant.ResolveHost | src/lib/tenant/resolveTenantByHost.ts:18-40 | a fresh cached answer is returned with the cache untouched; otherwise the domain table's decision is returned and cached under the host until now + TTL; no other host's entry is added or changed |
| ResolveTenant.RepeatWithinTtl | src/lib/tenant/resolveTenantByHost.ts:15-40 | after a lookup that missed the cache, a second lookup of the same host within the TTL gives the same answer and leaves the cache as it was, whatever the domain table and the flags are by then |
| ResolveTenant.ProductionMissNeedsVerified | src/lib/tenant/resolveTenantByHost.ts:22-37 | a production lookup that misses the cache and answers a tenant has found a verified domain with that host, and answers its tenant and primary flag |
| ResolveTenant.ClearResolveTenantCache | src/lib/tenant/resolveTenantByHost.ts:43-45 | empties the cache |
| ResolveTenant.CacheIgnoresPendingFlag | src/lib/tenant/resolveTenantByHost.ts:18-39 | a pending domain resolved with the development flag on is then answered from the cache to a call with the flag off, which on its own would give null |
| WithTenant.CookieParts | src/lib/tenant/withTenant.ts:16-17 | the header's pairs, split on ";" with the leading blanks removed |
| WithTenant.PairValue | src/lib/tenant/withTenant.ts:18-19 | the value is everything after the first "=", so "=" inside a value is kept |
| WithTenant.FirstNamedIndex | src/lib/tenant/withTenant.ts:17-20 | the position of the first pair with the name, and no earlier pair has it |
| WithTenant.FindPair | src/lib/tenant/withTenant.ts:17-20 | the loop answers the first pair with the name |
| WithTenant.ReadCookie | src/lib/tenant/withTenant.ts:14-21 | undefined for an absent header or no match; otherwise the first matching pair's value |
| WithTenant.ReadCookieFirstPair | src/lib/tenant/withTenant.ts:14-21 | writing `name=value` first and reading `name` gives `value` back |
| WithTenant.Choose | src/lib/tenant/withTenant.ts:48-97 | a host-resolved tenant always wins; the cookie is used only when the host fails and fallback is enabled; header and query fallbacks only outside production; the header beats the query, and the header is trimmed; no tenant exactly when no source |
| WithTenant.CookieJar.Get | src/lib/tenant/withTenant.ts:46 | reads the jar's cookie |
| WithTenant.CookieJar.Set | src/lib/tenant/withTenant.ts:57-62 | writes one cookie and nothing else |
| WithTenant.WithTenant | src/lib/tenant/withTenant.ts:31-111 | the resolution is one `resolveTenantByHost` step on the request's host, with the same cache behaviour; the context is `Choose` on that resolution and the cookie; the jar is written only without a request object, only when the stored cookie is absent or differs on the host path, and only outside the cookie path |
| RouteWrappers.MutationKey | src/lib/utils/with-api.ts:31 | the limiter key is "mut:ip:" followed by the IP |
| RouteWrappers.Classify | src/lib/utils/with-api.ts:73-96 | thrown errors in order: validation error 422 with issues, Prisma-coded error by the code table, syntax error 400, anything else 500 |
| RouteWrappers.UniqueViolationAnswers409 | src/lib/utils/with-api.ts:79-87 | a unique violation reaching the wrapper is answered 409 "Unique constraint violation" |
| RouteWrappers.Finish | src/lib/utils/with-api.ts:59-96 | a returned response gets x-request-id set; a thrown error is classified; nothing escapes |
| RouteWrappers.TooManyRequests | src/lib/utils/with-api.ts:43-56 | 429 "Too Many Requests" with Retry-After = retryAfter or 60, X-RateLimit-Limit and X-RateLimit-Remaining |
| RouteWrappers.WithApi | src/lib/utils/with-api.ts:20-97 | GET skips the per-IP limiter; other methods hit it first and are refused 429 without running the handler or touching the resolver cache; otherwise the host is resolved as `resolveTenantByHost` does, and the handler runs under the tenant context with cookie fallback on and pending domains allowed outside production |
| RouteWrappers.WithPublic | src/lib/utils/with-public.ts:17-69 | no limiter; the host is resolved as `resolveTenantByHost` does; the context never comes from the cookie, and in production only from the host; without a tenant the answer is 404 "Not found" and the handler does not run; errors use the same classification |
| PrismaErrors.UniqueViolationMeaning | src/lib/utils/prisma-errors.ts:12-25 | not a violation unless the error is known and its code is P2002; with no or empty names every P2002 is one |
| PrismaErrors.StringTargetIsSingleton | src/lib/utils/prisma-errors.ts:21-22 | a string target counts as a one-element list |
| PrismaErrors.LeadingTargetRecognised | src/lib/utils/prisma-errors.ts:21-24 | a violation whose first target is among the names is recognised |
| PrismaErrors.StatusOfCode | src/lib/utils/prisma-errors.ts:39-57 | P2002 409; P2025 and P2001 404; P2003 and P2014 409; P2000, P2011, P2012, P2013, P2020 422; any other code 500 |
| PrismaErrors.MapPrismaError | src/lib/utils/prisma-errors.ts:31-58 | null exactly for errors that are not known errors; otherwise the status by the table, with the code and meta carried along |
| PrismaErrors.UniqueViolationIs409 | src/lib/utils/prisma-errors.ts:31-58 | every unique violation maps to 409 "Unique constraint violation" |
| Http.GetOrCreateRequestId | src/lib/utils/http.ts:22-25 | the incoming x-request-id, else x-correlation-id, else a generated id |
| Http.Respond | src/lib/utils/http.ts:27-37 | an init status overrides the status; the request id goes into the body and the x-request-id header; init headers are kept |
| Http.Ok | src/lib/utils/http.ts:14-38 | `{ ok: true, data }`, with the request id exactly when a request is given; the numeric status, else 200 |
| Http.Fail | src/lib/utils/http.ts:47-65 | `{ ok: false, error }` overridden by `extra`, then the request id when a request is given; init overrides the status |
| Http.PlainFailShape | src/lib/utils/http.ts:47-65 | without extra or init, the body is exactly ok false, the error and the request id, and the status is the one given |
| Http.SetHeader | src/lib/utils/with-api.ts:70 | sets one header and keeps the status, the body and every other header |
| Middleware.DenyJson | src/middleware.ts:22-32 | the status given, body `{ ok: false, error, requestId }`, and the x-request-id header |
| Middleware.Gates | src/middleware.ts:34-105 | auth paths are only limited per IP and denied 429 when over the limit; other paths skip the limiter; for non-GET methods the Origin check runs before CSRF and fails 403; CSRF is checked for every method except on "/api/security/csrf"; every answer carries the request id |
| Middleware.RunMiddleware | src/middleware.ts:34-105 | updates the limiter and answers as `Gates` describes |
| Middleware.GetNeedsCsrf | src/middleware.ts:86-99 | a GET outside the skip list without a CSRF header is refused 403 |
| Csrf.CsrfNamesFrom | src/lib/security/csrf.ts:4-5 | the cookie name defaults to "csrf_token"; the header name defaults to "x-csrf-token" and is lower-cased |
| Csrf.Hex | src/lib/security/csrf.ts:8-17 | two lower-case hex characters per byte |
| Csrf.UnhexHex | src/lib/security/csrf.ts:8-17 | the hex text decodes back to the bytes, so no two byte strings share a token |
| Csrf.RandomHex | src/lib/security/csrf.ts:8-17 | the loop's text is the hex of the bytes, 2n characters long |
| Csrf.GenerateCsrfToken | src/lib/security/csrf.ts:19-21 | 64 lower-case hex characters that decode to the 32 random bytes |
| Csrf.XorZeroIffSame | src/lib/security/csrf.ts:28 | the XOR of two codes is 0 exactly when they are equal |
| Csrf.OrZero | src/lib/security/csrf.ts:28 | the OR-accumulated difference is 0 exactly when both parts are 0 |
| Csrf.TimingSafeEqual | src/lib/security/csrf.ts:24-31 | true exactly when the strings are equal; with equal lengths every index is visited |
| Csrf.CsrfHeader | src/lib/security/csrf.ts:47-50 | a missing or blank header counts as absent |
| Csrf.VerifyDoubleSubmit | src/lib/security/csrf.ts:53-64 | "CSRF token missing" exactly when the cookie or header token is absent; otherwise passes exactly when they are equal, and "CSRF token mismatch" otherwise |
| Csrf.IssueCsrfToken | src/lib/security/csrf.ts:33-72 | answers the token and sets the cookie to it: readable by scripts, secure in production, one hour |
| Csrf.IssuedTokenVerifies | src/lib/security/csrf.ts:33-72 | an issued token, echoed in the header, passes the double-submit check |
| Origin.Dedupe | src/lib/security/origin.ts:28-31 | duplicates are dropped and every entry is kept |
| Origin.ListEntries | src/lib/security/origin.ts:15-18 | the trimmed, non-empty entries of the list |
| Origin.ParseAll | src/lib/security/origin.ts:32-41 | unparsable entries are dropped and each parsable one is kept |
| Origin.ParseAllowedOrigins | src/lib/security/origin.ts:13-42 | the allow-list is the configured list, the app URLs and, outside production, the local development origins, de-duplicated, unparsable entries dropped |
| Origin.ProductionUsesConfiguredOnly | src/lib/security/origin.ts:13-42 | in production every allowed origin comes from configuration |
| Origin.MatchesAllowed | src/lib/security/origin.ts:44-52 | false for an absent or unparsable URL; otherwise true exactly when some allowed origin has the same protocol and host |
| Origin.VerifyOriginStrict | src/lib/security/origin.ts:54-93 | safe methods pass; a present Origin decides alone; otherwise a present Referer must match; with neither, the configured flag decides; refusals name the reason |
| Origin.RefererIgnoredWithOrigin | src/lib/security/origin.ts:67-71 | with an Origin present, changing the Referer changes nothing |
| Audit.MaskElement | src/lib/core/audit.ts:36-41 | object elements become "[object]"; others are kept |
| Audit.RedactEntry | src/lib/core/audit.ts:44-53 | secret keys become "[REDACTED]"; other object values "[object]"; primitives are kept |
| Audit.Redacted | src/lib/core/audit.ts:32-55 | primitives unchanged; arrays keep their length and hold no objects; objects keep their key set, hold no nested objects, and mask every secret key |
| Audit.ArrayPrimitivesKept | src/lib/core/audit.ts:36-41 | a primitive array element is kept as it is |
| Audit.PlainFieldKept | src/lib/core/audit.ts:48-53 | a non-secret primitive field is kept as it is |
| Audit.RedactedIdempotent | src/lib/core/audit.ts:32-55 | redacting a redacted value changes nothing |
| Audit.RedactOnce | src/lib/core/audit.ts:32-55 | the loop's result is the redacted value |
| Audit.Picked | src/lib/core/audit.ts:89-95 | exactly the changed keys, each with its value or undefined |
| Audit.Pick | src/lib/core/audit.ts:89-95 | the loop's result is the picked record |
| Audit.DiffForUpdate | src/lib/core/audit.ts:84-97 | `{ before, after }`, each the changed keys picked from its input |
| Audit.DiffMeaning | src/lib/core/audit.ts:84-97 | both halves have the same keys, and they are equal exactly when no changed key differs |
| Audit.AuditIpMeaning | src/lib/core/audit.ts:67-71 | the trimmed first x-forwarded-for entry, else x-real-ip, else undefined |
| Audit.AuditData | src/lib/core/audit.ts:60-73 | the row data carries no tenant of its own; the diff is redacted only when truthy |
| Audit.AuditInsertAccepted | src/lib/core/audit.ts:60-73 | a tenant-bound client's guard accepts the audit insert and fills in the tenant |
| Audit.ScopedAuditRowOwned | src/lib/core/audit.ts:57-79 | through a tenant-bound client the audit row belongs to that tenant |
| Audit.SystemAuditRowUnowned | src/lib/core/audit.ts:57-79 | through the system client the audit row has no tenant |
| Audit.WriteAudit | src/lib/core/audit.ts:57-79 | never fails: a failed insert leaves the log unchanged, otherwise exactly one row is appended |
| Schemas.Sku | src/lib/core/schemas.ts:5-10 | accepts exactly a string whose trimmed form has 1–64 letters, digits, '.', '_' or '-', and answers it trimmed |
| Schemas.TrimmedText | src/lib/core/schemas.ts:16 | accepts a string whose trimmed length is in bounds, answered trimmed |
| Schemas.NullableText | src/lib/core/schemas.ts:17 | absent, null, or a trimmed text within the bound |
| Schemas.IntIn | src/lib/core/schemas.ts:18 | an integer within the bounds |
| Schemas.OptionalGbp | src/lib/core/schemas.ts:19 | absent, or exactly "GBP" |
| Schemas.OptionalBool | src/lib/core/schemas.ts:20 | absent or a boolean |
| Schemas.OptionalOf | src/lib/core/schemas.ts:26 | `.partial()`: an absent field passes |
| Schemas.UnknownKeys | src/lib/core/schemas.ts:22 | no issue exactly for an object whose keys are all known |
| Schemas.ParseProductCreate | src/lib/core/schemas.ts:13-24 | a non-object or an unknown key is refused; an accepted value holds the trimmed sku and name, the price as sent, and only allowed optional fields |
| Schemas.ProductCreateRoundTrip | src/lib/core/schemas.ts:13-24 | every value the schema describes, sent as it is, parses to itself |
| Schemas.ProductCreateNormalises | src/lib/core/schemas.ts:13-24 | an accepted value, sent again, is accepted unchanged |
| Schemas.ParseProductUpdate | src/lib/core/schemas.ts:26-36 | a positive expected version, no unknown key, each present field valid, and at least one change; a body defining no field gets the body-level issue unless a field of the wrong type aborts the parse first |
| Schemas.ProductUpdateRoundTrip | src/lib/core/schemas.ts:26-36 | every patch the schema describes (a positive version, at least one change, each field valid and trimmed), sent as it is, is accepted and parses to itself |
| Schemas.UpdateReportsBothIssues | src/lib/core/schemas.ts:26-36 | `{"expectedVersion": 0}` is refused with both the version issue and "No changes provided" |
| Schemas.ParseProductUpdateRefuses | src/lib/core/schemas.ts:26-36 | a non-object body, a body without `expectedVersion`, and a body carrying only `expectedVersion` are all refused |
| Schemas.ParseCaps | src/lib/core/schemas.ts:39-46 | accepts exactly an object of the four optional booleans and nothing else |
| Schemas.ParseMemberCreate | src/lib/core/schemas.ts:48-54 | a trimmed valid e-mail, no unknown key, and caps defaulting to {} when absent; null caps are refused |
| Schemas.MemberCreateAccepts | src/lib/core/schemas.ts:48-54 | a body with only `email` and `caps`, whose trimmed e-mail is an address and whose caps are absent or well-formed, is accepted with the trimmed address and those caps |
| Schemas.ParseMemberUpdateCaps | src/lib/core/schemas.ts:56-64 | an accepted body holds only a positive `expectedVersion`, which is answered, and caps with at least one defined field; empty caps are refused |
| Schemas.MemberUpdateCapsAccepts | src/lib/core/schemas.ts:56-64 | a body with only a positive `expectedVersion` and well-formed caps that define some capability is accepted with that version and those caps |
| Schemas.ParseTenantSelect | src/lib/core/schemas.ts:66-68 | accepts exactly an object holding only a UUID `tenantId` |
| ProductValidation.NonEmptyText | src/lib/validation/product.ts:5-6 | a non-empty string, untrimmed |
| ProductValidation.AnyNullableText | src/lib/validation/product.ts:7 | absent, null or any string |
| ProductValidation.OptionalCode | src/lib/validation/product.ts:9 | absent, or a string of exactly three characters |
| ProductValidation.ParseCreateInput | src/lib/validation/product.ts:4-11 | non-empty sku and name, a non-negative integer price, a three-character currency when given; unknown keys are dropped |
| ProductValidation.CreateInputIgnoresUnknownKey | src/lib/validation/product.ts:4-11 | an extra key changes nothing |
| ProductValidation.CreateInputRoundTrip | src/lib/validation/product.ts:4-11 | every value the schema describes parses to itself |
| ProductValidation.StrictCreateImpliesLenient | src/lib/validation/product.ts:4-11 | whatever the strict create schema accepts, this one accepts too, with the same value |
| ProductValidation.LenientAcceptsUnknownKey | src/lib/validation/product.ts:4-11 | a body the strict schema accepts, plus one extra key, is refused there and accepted here |
| ProductValidation.CurrencyCode | src/lib/validation/product.ts:21 | a trimmed three-character code, upper-cased |
| ProductValidation.ParseUpdateInput | src/lib/validation/product.ts:13-28 | a positive version; name trimmed 1–200; description trimmed at most 1000 or null; price an integer ≥ 0; currency as above; at least one change; a body defining no field gets the body-level issue unless a field of the wrong type aborts the parse first |
| ProductValidation.UpdateInputReportsBothIssues | src/lib/validation/product.ts:13-28 | `{"expectedVersion": 0}` is refused with both the version issue and "No changes provided" |
| ProductValidation.UpdateInputRoundTrip | src/lib/validation/product.ts:13-28 | every patch the schema describes parses to itself |
| ProductValidation.UpdateInputNormalises | src/lib/validation/product.ts:13-28 | an accepted patch, sent again, is accepted unchanged |
| Urls.StripSlashes | src/lib/http/url.ts:22 | the text between the leading and trailing runs of slashes |
| Urls.JoinPath | src/lib/http/url.ts:19-25 | "/" followed by the kept segments joined with "/" |
| Urls.JoinPathOfNothing | src/lib/http/url.ts:19-25 | with nothing to keep, the path is "/" |
| Urls.SlashOnlyPartIsEmptySegment | src/lib/http/url.ts:20-22 | a part made only of slashes is kept, as an empty segment |
| Urls.JoinPathSplits | src/lib/http/url.ts:19-25 | splitting the joined path on "/" gives back the kept parts, when none holds a slash |
| Urls.SetParam | src/lib/http/url.ts:14 | afterwards exactly one pair has the name, holding the value; pairs of other names are untouched |
| Urls.ApplyAllSets | src/lib/http/url.ts:34-36 | every entry with a value is set; null and undefined entries are skipped |
| Urls.ApplyAllKeeps | src/lib/http/url.ts:34-36 | pairs whose name no entry sets are untouched |
| Urls.ApplyAllAppends | src/lib/http/url.ts:34-36 | on a query without those names, the set entries are appended in order |
| Urls.SetEntryIsRead | src/lib/http/url.ts:34-36 | a set parameter is what a later read of that name finds |
| Urls.SearchRoundTrip | src/lib/http/url.ts:40 | the serialised query reads back as the same pairs |
| Urls.ResolvePath | src/lib/http/url.ts:10 | a relative path resolves against the base's origin |
| Urls.SetEntries | src/lib/http/url.ts:34-36 | the loop's query is what setting every entry gives |
| Urls.WithQuery | src/lib/http/url.ts:27-41 | the full URL for input starting with "http", path and search otherwise; the query is the set entries applied |
| Urls.WithQueryOnPlainPath | src/lib/http/url.ts:27-41 | a plain path keeps its path and gains exactly the set entries |
| Urls.Rooted | src/lib/http/url.ts:10 | a path without a leading "/" gets one |
| Urls.AbsoluteUrl | src/lib/http/url.ts:4-17 | the rooted path, resolved against the canonical origin, with the entries set |
| Urls.AbsoluteUrlOnCanonicalOrigin | src/lib/http/url.ts:4-17 | a path that does not start with "//" stays on the canonical origin |
| Canonical.ForwardedToken | src/lib/http/canonical.ts:18-19 | the first comma-separated token of the header, trimmed |
| Canonical.CanonicalFrom | src/lib/http/canonical.ts:9-30 | a non-blank base URL wins; then the forwarded host with the forwarded protocol or https; then Host or localhost, https in production and http otherwise |
| Canonical.AppBaseWins | src/lib/http/canonical.ts:14-15 | with a base URL, the headers do not matter |
| Canonical.ForwardedHostUsed | src/lib/http/canonical.ts:18-23 | a well-formed forwarded host gives the origin, with the first forwarded protocol or https |
| Canonical.HostFallback | src/lib/http/canonical.ts:26-29 | otherwise Host (port kept) or localhost, with the production-dependent protocol |
| Canonical.ForwardedProtoNeedsHost | src/lib/http/canonical.ts:18-29 | a forwarded protocol without a forwarded host changes nothing |
| RouteAuth.MemberFilterMeaning | src/app/api/admin/members/route.ts:20-23 | the membership filter matches exactly the user's membership in the tenant |
| RouteAuth.FindMembership | src/app/api/admin/members/route.ts:20-23 | the actor's membership in the tenant, or nothing exactly when there is none |
| RouteAuth.Issues | src/app/api/admin/members/route.ts:112 | the flattened issues list one entry per failing field, and form-level issues apart |
| MembersRoute.EmailFilterMeaning | src/app/api/admin/members/route.ts:120-123 | the user filter matches exactly the rows with that e-mail |
| MembersRoute.FindUser | src/app/api/admin/members/route.ts:120-126 | a user with the e-mail, or nothing exactly when there is none |
| MembersRoute.UserView | src/app/api/admin/members/route.ts:122 | the user's id, e-mail and name |
| MembersRoute.UserOf | src/app/api/admin/members/route.ts:41-48 | the related user's view, or null exactly when no user has that id |
| MembersRoute.NewMembershipFields | src/app/api/admin/members/route.ts:129-137 | the new membership belongs to the tenant and user; isOwner and the manage flags are `!!caps.x`; view-products defaults to true |
| MembersRoute.MemberConflictRecognised | src/app/api/admin/members/route.ts:193 | the duplicate-membership error is the unique violation the route recognises |
| MembersRoute.MemberView | src/app/api/admin/members/route.ts:45-58 | one listing entry: the membership id, user id, user, caps and timestamps |
| MembersRoute.ListedMembers | src/app/api/admin/members/route.ts:28-43 | the guarded listing answers exactly the tenant's memberships |
| MembersRoute.MemberViews | src/app/api/admin/members/route.ts:45-58 | one view per listed membership, in order |
| MembersRoute.MembersGet | src/app/api/admin/members/route.ts:16-61 | no session throws; without manage-members 403; a permitted caller gets 200 with one view per membership of the tenant |
| MembersRoute.ListingIsTenantsMembers | src/app/api/admin/members/route.ts:20-60 | every entry of a 200 listing is one of the tenant's memberships, and every membership of the tenant is listed |
| MembersRoute.MembershipAudit | src/app/api/admin/members/route.ts:151-170 | the audit record names the tenant, the actor and MEMBERSHIP_CREATE on a Membership |
| MembersRoute.Rejected | src/app/api/admin/members/route.ts:75-125 | a returned 4xx answer with the given status |
| MembersRoute.Admit | src/app/api/admin/members/route.ts:101-197 | in order: 403 without manage-members, 422 invalid body, 403 isOwner from a non-owner, 404 unknown e-mail, 409 already a member; only a 201 changes the tables |
| MembersRoute.AdmitCommits | src/app/api/admin/members/route.ts:101-191 | a permitted caller sending a valid body for an existing user who is not yet a member, without granting ownership unless an owner, gets 201 with the new membership's view; the membership and its audit row are appended, and the answer is stored in "reserved" mode |
| MembersRoute.Insert | src/app/api/admin/members/route.ts:128-197 | an existing membership gives 409 and changes nothing; otherwise the creation is committed |
| MembersRoute.Commit | src/app/api/admin/members/route.ts:129-191 | inserts the membership, writes the audit row, stores the answer only in "reserved" mode, and answers 201 with the same data it stores |
| MembersRoute.Attach | src/app/api/admin/members/route.ts:64-198 | no session throws; reservation first: a replay answers 201 with the stored data, in progress answers 409, both before any other effect; then the per-user limiter, 429 leaving the key pending; then `Admit` |
| MembersRoute.SystemDb.CreateMembership | src/app/api/admin/members/route.ts:129-149 | refused exactly when the user is already a member; otherwise appends the new membership |
| MembersRoute.SystemDb.Audit | src/app/api/admin/members/route.ts:151-170 | appends the audit row through the system client, unless the insert fails |
| MembersRoute.MembersPost | src/app/api/admin/members/route.ts:64-198 | answers and leaves the idempotency table, limiter, memberships and audit log as `Attach` describes |
| MembersRoute.MembersAnswer | src/app/api/admin/members/route.ts:70-198 | the stateful handler after reservation: a replay answers 201 with the stored data, in progress 409, both changing nothing; otherwise it agrees with `Limited` |
| MembersRoute.MembersAdmit | src/app/api/admin/members/route.ts:101-197 | the stateful handler after reservation and limiting agrees with `Admit` |
| MembersRoute.MembersLimited | src/app/api/admin/members/route.ts:79-197 | the stateful limiter step agrees with `Limited`: a refused call answers 429 and only the limiter's bucket changes; an allowed one runs `Admit` on the updated buckets |
| MembersRoute.MembersInsert | src/app/api/admin/members/route.ts:128-197 | the stateful `try` block agrees with `Insert` |
| MembersRoute.RetryReplaysCreation | src/app/api/admin/members/route.ts:70-191 | a retry of a request that created a membership under a reserved key replays its data with 201 and creates nothing |
| MembersRoute.LimitedRequestStaysInProgress | src/app/api/admin/members/route.ts:79-99 | a request refused by the limiter after reserving leaves the key pending, so its retry is answered 409 in progress |
| MembersRoute.CreationAuditCarriesNoTenant | src/app/api/admin/members/route.ts:151-170 | the membership audit row, written through the system client, has no tenant |
| ProductsRoute.NumberOfDigits | src/app/api/admin/products/route.ts:24 | `Number` of a string of decimal digits is the value of those digits |
| ProductsRoute.NumberOfDecimal | src/app/api/admin/products/route.ts:24 | `Number` of a decimal gives it back |
| ProductsRoute.Clamp | src/app/api/admin/products/route.ts:24 | `min(max(n, 1), 100)`: NaN stays NaN; the infinities go to the bounds; a value inside [1, 100] is kept |
| ProductsRoute.Limit | src/app/api/admin/products/route.ts:24 | 25 without a parameter; always within [1, 100]; no page size when `Number` gives NaN or the clamped value is a fraction; otherwise the clamped value |
| ProductsRoute.LimitOfDecimal | src/app/api/admin/products/route.ts:24 | a limit within [1, 100] is kept; 0 becomes 1; above 100 becomes 100 |
| ProductsRoute.LimitOfExponent | src/app/api/admin/products/route.ts:24 | `?limit=1e2` gives 100 |
| ProductsRoute.LimitOfHex | src/app/api/admin/products/route.ts:24 | `?limit=0x10` gives 16 |
| ProductsRoute.LimitOfPointZero | src/app/api/admin/products/route.ts:24 | `?limit=10.0` gives 10 |
| ProductsRoute.LimitOfHalf | src/app/api/admin/products/route.ts:24 | `?limit=0.5` is clamped to 1 |
| ProductsRoute.LimitOfFraction | src/app/api/admin/products/route.ts:24 | `?limit=2.5` gives no page size |
| ProductsRoute.SearchTerm | src/app/api/admin/products/route.ts:23 | the trimmed `q`, with an empty term meaning none |
| ProductsRoute.ContainsFilterMeaning | src/app/api/admin/products/route.ts:32-33 | the contains filter matches a field holding the term, ignoring case |
| ProductsRoute.SearchFilterMeaning | src/app/api/admin/products/route.ts:29-36 | without a term every row matches; with one, a row whose name or sku contains it |
| ProductsRoute.Selected | src/app/api/admin/products/route.ts:40-50 | the selected fields only: no tenant, no version |
| ProductsRoute.SelectedAll | src/app/api/admin/products/route.ts:40-50 | one selected view per row, in order |
| ProductsRoute.NextCursor | src/app/api/admin/products/route.ts:53 | the last item's id exactly when `limit` items came back, else null |
| ProductsRoute.ListingRows | src/app/api/admin/products/route.ts:22-51 | at most `limit` rows, all the tenant's; none exactly when `Limit` gives no page size (NaN or a fraction) |
| ProductsRoute.ListingIsTenantsOnly | src/app/api/admin/products/route.ts:27-51 | every listed row is one of the tenant's products that the term matches |
| ProductsRoute.ListingIsGuardedRead | src/app/api/admin/products/route.ts:27-39 | without a cursor, the page is the first `limit` rows of the guarded `findMany` |
| ProductsRoute.ListingData | src/app/api/admin/products/route.ts:53-54 | the body holds the selected items and the next cursor |
| ProductsRoute.ProductsGet | src/app/api/admin/products/route.ts:12-55 | no session throws; without manage-products 403; a permitted caller gets 200 with the listing, or the query's validation error when `take` is not an integer |
| ProductsRoute.Defaulted | src/app/api/admin/products/route.ts:77-85 | description defaults to null, currency to "GBP" and active to true; the rest is kept |
| ProductsRoute.NewProductFields | src/app/api/admin/products/route.ts:76-97 | the new row belongs to the tenant and has every field filled |
| ProductsRoute.CreationAudit | src/app/api/admin/products/route.ts:99-116 | the audit record names the tenant, the actor and PRODUCT_CREATE on a Product |
| ProductsRoute.SkuConflictRecognised | src/app/api/admin/products/route.ts:120 | the sku conflict is the unique violation the route recognises |
| ProductsRoute.Creation | src/app/api/admin/products/route.ts:57-125 | no session throws; 403 without manage-products; 422 with issues for a bad body; 409 for a taken sku; a permitted caller with a valid body and a free sku gets 201 with the product, and the product and its audit row are appended; only a 201 changes the tables |
| ProductsRoute.ProductsPost | src/app/api/admin/products/route.ts:57-125 | the stateful handler agrees with `Creation` |
| ProductsRoute.SkuConflictAnswered | src/app/api/admin/products/route.ts:119-124 | a sku the tenant already has is answered 409 "SKU already exists for this tenant" and nothing changes |
| Paging.CursorIndex | src/app/api/admin/products/route.ts:38 | the position of the row with the cursor id, and no earlier row has it |
| Paging.Front | src/app/api/admin/products/route.ts:37 | `take`: the first n rows |
| Paging.Page | src/app/api/admin/products/route.ts:28-39 | at most `take` rows, all matching the filter |
| Paging.RowsAfterCursor | src/app/api/admin/products/route.ts:38 | continuing from the k-th matching row reads the matching rows right after it, without the cursor row |
| Paging.PageAfterCursor | src/app/api/admin/products/route.ts:37-38 | the page after the k-th matching row is the next `take` matching rows |
| Paging.FirstPage | src/app/api/admin/products/route.ts:37 | without a cursor, the first `take` matching rows |
| Paging.PagesTile | src/app/api/admin/products/route.ts:37-53 | a full first page and the page its next cursor points to are, together, the first 2·take matching rows |
| TenantSelect.SelectionOptions | src/app/api/tenant/select/route.ts:26-32 | HTTP-only, same-site lax, secure in production, path "/", seven days |
| TenantSelect.RequestedTenant | src/app/api/tenant/select/route.ts:10 | the body's `tenantId`, undefined for a body that is not JSON |
| TenantSelect.MembershipMatching | src/app/api/tenant/select/route.ts:17-19 | the first membership the `{userId, tenantId}` filter matches; for a string tenant id, the user's membership in that tenant |
| TenantSelect.Select | src/app/api/tenant/select/route.ts:8-35 | no session throws first; a falsy tenant id is 400 "tenantId required"; a tenant id Prisma cannot take as a string filter throws its validation error; the cookie is written exactly when the filter finds a membership, with the tenant id's text; otherwise 403 |
| TenantSelect.ResponseCookies.Set | src/app/api/tenant/select/route.ts:26 | writes one cookie with its options |
| TenantSelect.Post | src/app/api/tenant/select/route.ts:8-35 | answers as `Select` and writes the jar only as `Select` says |
| TenantSelect.NoCookieWithoutMembership | src/app/api/tenant/select/route.ts:17-22 | selecting a tenant the user does not belong to never writes the cookie, and answers 403 |
| TenantSelect.FilterObjectSelects | src/app/api/tenant/select/route.ts:10-35 | the body `{"tenantId": {"contains": ""}}` selects any tenant the user belongs to: 200 and a cookie holding "[object Object]" |

## Left out

- Prisma, the database and its query planner are a small in-memory table engine (`Table`). It
  covers only what the guard and the handlers use: equality, `AND`/`OR`/`NOT`, case-insensitive
  `contains`, `cursor`/`skip`/`take` in table order, and unique indexes as explicit checks.
  `aggregate` and `groupBy` are not computed: they answer the filtered rows, like a read.
- Concurrency is not modelled. Rows inserted concurrently and a lost insert race are explicit
  inputs (`raced`, `insertFails`).
- `AsyncLocalStorage` (`src/lib/tenant/context.ts`) is not part of this model. The context is
  passed to the handler as a value.
- Sessions, authentication and the current-tenant cookie read (`src/lib/auth/*`,
  `src/lib/core/tenant.ts`) are not part of this model. The user id and the tenant id are inputs.
- Logging and the constant security headers (`src/lib/log.ts`, `src/lib/security/headers.ts`)
  are left out. They make no decisions.
- The URL parser, regular expressions, zod's e-mail and UUID checks, and `crypto` randomness are
  given functions, predicates or byte sequences. URL parsing covers absolute
  `scheme://authority/path?query#fragment` strings only. There is no percent-encoding, no
  userinfo removal, no default-port removal, no dot-segment removal, no reading of `\` as `/`,
  and no decoding of `+` as a space in a query.
- `Urls.ResolvePath`: a relative reference keeps its dot segments and backslashes. `new URL`
  resolves `/a/../b` to `/b` and reads `\` as `/` for http(s); the model keeps `/a/../b` as it
  is, and `Urls.WithQueryOnPlainPath` states that path.
- `Urls.WithQuery`: inherits the `Urls.ResolvePath` gap. An input that carries its own scheme
  but does not start with lower-case `http` (`HTTP://x.com`, `ftp://x.com`) is resolved as a
  path: `HTTP://x.com` gives `/HTTP://x.com` where JavaScript gives `/`.
- `Urls.AbsoluteUrl`: inherits the `Urls.ResolvePath` gap, so a path with dot segments or
  backslashes is not normalised.
- `ProductsRoute.SearchTerm`: `+` in the query is kept, so `?q=red+shoes` searches for
  `red+shoes` where `URLSearchParams` gives `red shoes`.
- `Number(...)` is modelled for the `limit` parameter only (`ProductsRoute.NumberOf`): blanks,
  the empty string, "0x"/"0o"/"0b" literals, a sign, `Infinity` and decimal literals with a
  fraction and an exponent. A finite value is the exact real the literal denotes; rounding to
  a double (long decimals, huge exponents) is not modelled, and the blanks trimmed are the
  ASCII ones. Other numbers read from the environment are integers (no NaN), and JSON
  numbers are integers.
- The optimistic-concurrency PATCH/DELETE handlers (`[id]` routes) are not part of this model.
  Only the repository's `updateById`/`deleteById` with `assertOne` are.
- UI code, scripts other than the idempotency sweep, and thin routes with no decisions are left
  out.
- `ProductRepo.TenantClient`: the repository is modelled over the corrected guard
  (`GuardIsolation.ExecuteStrict`). Its by-id filters, create payloads and `updateMany`s are
  handled the same by both guards, except `updateMany` data that names another tenant, which the
  corrected guard refuses.
- `ProductRepo.TenantClient.UpdateById`: the update payload is an uninterpreted JSON value. Its fields
  are not checked against the product schema.
- `TenantGuard.InjectIdempotent`: stated only for payloads whose `tenant` entry, if present, is an
  object. For a non-object `tenant` entry a second pass adds `tenantId` beside it and then refuses
  the payload.
- `Hosts.NormalizeHost`: the domain and IP patterns are written out as predicates, and case
  folding is ASCII only.
- `RateLimit.RateLimiter`: the store is never pruned, as in the source. Expired buckets are only
  replaced on their next use.
- Letter case and blanks are ASCII only: `ToLower`, `ToUpper` and the blanks `Trim` removes
  cover ASCII letters and ASCII white space, where JavaScript covers Unicode. This applies to
  `Idempotency.GetIdempotencyKey`, `Idempotency.FpFrom`, `ProductsRoute.SearchTerm`,
  `Schemas.TrimmedText`, `Audit.IsSecret`, `Csrf.CsrfNamesFrom`,
  `ProductsRoute.ContainsIgnoringCase`, `ProductValidation.CurrencyCode` and
  `ProductValidation.ParseUpdateInput`. JavaScript's `toUpperCase` can change a string's length
  ("ß" becomes "SS"), so the three-character currency those two promise holds for ASCII input
  only.
- `ProductsRoute.ListingRows`: `orderBy: { createdAt: "desc" }` is not applied. The table is
  taken to be in listing order (newest first) already, and pages and the cursor follow that
  order.
- `Table.FieldOp`: an object under a field is read with `equals`, `contains` and `mode` only;
  any other entry is compared as a field of a compound key. Prisma's other string filters
  (`startsWith`, `in`, `not`, ...) and its refusal of unknown operators are not modelled.
  This is what `TenantSelect.MembershipMatching` uses for a `tenantId` sent as an object.
- `TenantSelect.CookieText`: the cookie value is the text before percent-encoding.
- `Http.Respond`: the headers are the ones the code sets. The `content-type: application/json`
  header `NextResponse.json` adds on its own is not modelled.
- `Origin.MatchesAllowed`: the compared host is the authority as written, lower-cased. WHATWG
  `URL.host` drops userinfo and the scheme's default port, so an allow-list entry
  `https://shop.example.com:443` matches `Origin: https://shop.example.com` in JavaScript but not
  here, and a `user@` prefix makes the model refuse what JavaScript allows.
- `Origin.VerifyOriginStrict`: inherits the host comparison of `Origin.MatchesAllowed`, so it may
  refuse an Origin or Referer that differs from an allowed origin only by userinfo or an explicit
  default port. Every other branch is stated as the source has it.
- `MembersRoute.ListedMembers`: `orderBy: { createdAt: "asc" }` is not applied. The listing is
  stated as exactly the tenant's memberships, without an order, so `MembersRoute.MembersGet` does not
  promise the oldest-first order.

## Findings

| source | as written | input that shows it | evidently intended | confidence | as-written member | corrected member |
|---|---|---|---|---|---|---|
| src/lib/db/tenant-scoped.ts:147-149 | any operation the switch does not name falls to `default` and reaches the query untouched | a guard bound to A runs `findFirstOrThrow` with no filter on a table holding only tenant B's row: B's row is returned | the `OrThrow` and `AndReturn` variants are scoped like their siblings, and unknown operations are refused | not executed | GuardIsolation.OrThrowBypassesGuard | GuardIsolation.StrictGuardIsolation |
| src/lib/db/tenant-scoped.ts:82-91 | `updateMany` gets the tenant filter, but its `data` is not checked | a guard bound to A runs `updateMany` with `data: { tenantId: "B" }`: A's row now belongs to B | update data goes through the same tenant rule as create data | not executed | GuardIsolation.UpdateManyRehomesRows | GuardIsolation.PoliceStrict |
| src/lib/db/tenant-scoped.ts:113-125 | the upsert key test accepts any top-level object holding the bound tenant, including the one under `NOT` | a guard bound to A upserts with `where: { id: "b1", NOT: { tenantId: "A" } }`: tenant B's row b1 is updated to tenant A | the tenant must appear where it restricts the match, not where it negates it | not executed | GuardIsolation.UpsertNotKeyedViaNot | GuardIsolation.StrictRefusesNotFilter |
