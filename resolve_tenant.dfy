/** Host → tenant resolution through the domain table, with a process-wide
    TTL cache that remembers misses as well as hits. */
module ResolveTenant {
  import opened Common
  import opened Hosts
  import opened TtlCaches

  datatype DomainStatus = Verified | Pending | OtherStatus(name: string)

  datatype Domain = Domain(host: string, tenantId: string, isPrimary: bool, status: DomainStatus)

  datatype Resolution = Resolution(tenantId: string, isPrimary: bool)

  const ResolveTtlMs := 30_000
  const ResolveMaxSize := 500

  /** `findFirst` on `host` with `mode: "insensitive"`. */
  function FindDomain(domains: seq<Domain>, host: string): (r: Option<Domain>)
    ensures r.Some? ==> r.value in domains && ToLower(r.value.host) == ToLower(host)
    ensures r.None? ==> forall d | d in domains :: ToLower(d.host) != ToLower(host)
  {
    if domains == [] then None
    else if ToLower(domains[0].host) == ToLower(host) then Some(domains[0])
    else FindDomain(domains[1..], host)
  }

  /** The status decision: a verified domain resolves; any other status only when pending
      domains are allowed and the environment is not production. */
  function Decide(domain: Option<Domain>, allowPendingInDev: bool, isProduction: bool): (r: Option<Resolution>)
    ensures r.Some? <==> domain.Some? && (domain.value.status == Verified || (allowPendingInDev && !isProduction))
    ensures r.Some? ==> r.value == Resolution(domain.value.tenantId, domain.value.isPrimary)
  {
    match domain
    case None => None
    case Some(d) =>
      var isVerified := d.status == Verified;
      var allowPending := allowPendingInDev && !isProduction;
      if isVerified || allowPending then Some(Resolution(d.tenantId, d.isPrimary)) else None
  }

  /** In production a pending domain never resolves, whatever the caller allows. */
  lemma ProductionNeedsVerified(domain: Option<Domain>, allowPendingInDev: bool)
    requires domain.Some? && domain.value.status != Verified
    ensures Decide(domain, allowPendingInDev, true).None?
  {
  }

  /** The resolver cache's contents. */
  type Entries = map<string, Entry<Option<Resolution>>>

  /** A cache entry for `host` that has not expired at `now`. */
  predicate Live(entries: Entries, host: string, now: int) {
    host in entries && now <= entries[host].exp
  }

  /** One lookup of the normalised `host`, relating the answer `r` to the cache contents before
      (`e0`) and after (`e1`): a live entry is served and the cache is left as it was; otherwise
      the domain table decides, the answer is stored for `ttlMs`, and every other key keeps its
      entry or is gone (expired or evicted), never changed. */
  predicate HostStep(e0: Entries, e1: Entries, ttlMs: int, domains: seq<Domain>, host: string,
                     allowPendingInDev: bool, isProduction: bool, now: int, r: Option<Resolution>)
  {
    if Live(e0, host, now) then r == e0[host].v && e1 == e0
    else
      && r == Decide(FindDomain(domains, host), allowPendingInDev, isProduction)
      && host in e1 && e1[host] == Entry(r, now + ttlMs)
      && forall k | k in e1 && k != host :: k in e0 && e1[k] == e0[k]
  }

  /** One `resolveTenantByHost` call on the raw header value: no host answers none and leaves
      the cache alone; otherwise the normalised host takes a `HostStep`. */
  predicate ResolveStep(e0: Entries, e1: Entries, ttlMs: int, domains: seq<Domain>, rawHost: Option<string>,
                        allowPendingInDev: bool, isProduction: bool, now: int, r: Option<Resolution>)
  {
    match NormalizeHost(rawHost)
    case None => r.None? && e1 == e0
    case Some(host) => HostStep(e0, e1, ttlMs, domains, host, allowPendingInDev, isProduction, now, r)
  }

  /** Within the TTL of an answer computed from the domain table, a second lookup of the same
      host repeats it, whatever the domain table and the flags are by then. */
  lemma RepeatWithinTtl(e0: Entries, e1: Entries, e2: Entries, ttlMs: int, domains: seq<Domain>, domains2: seq<Domain>,
                        rawHost: Option<string>, allow: bool, prod: bool, allow2: bool, prod2: bool,
                        now: int, later: int, r: Option<Resolution>, r2: Option<Resolution>)
    requires ResolveStep(e0, e1, ttlMs, domains, rawHost, allow, prod, now, r)
    requires ResolveStep(e1, e2, ttlMs, domains2, rawHost, allow2, prod2, later, r2)
    requires NormalizeHost(rawHost).Some? && !Live(e0, NormalizeHost(rawHost).value, now)
    requires now <= later <= now + ttlMs
    ensures r2 == r && e2 == e1
    ensures r == Decide(FindDomain(domains, NormalizeHost(rawHost).value), allow, prod)
  {
  }

  /** Without a live entry, a production lookup answers only for a verified domain. */
  lemma ProductionMissNeedsVerified(e0: Entries, e1: Entries, ttlMs: int, domains: seq<Domain>, host: string,
                                    allow: bool, now: int, r: Option<Resolution>)
    requires HostStep(e0, e1, ttlMs, domains, host, allow, true, now, r)
    requires !Live(e0, host, now) && r.Some?
    ensures exists d | d in domains :: ToLower(d.host) == ToLower(host) && d.status == Verified
                                       && r.value == Resolution(d.tenantId, d.isPrimary)
  {
    var d := FindDomain(domains, host).value;
    assert d in domains;
  }

  /** The module-level cache: 30 s entries, at most 500 of them. */
  method NewResolveCache() returns (c: TtlCache<string, Option<Resolution>>)
    ensures fresh(c) && c.Valid() && c.entries == map[]
    ensures c.ttlMs == ResolveTtlMs && c.maxSize == ResolveMaxSize
  {
    c := new TtlCache(ResolveTtlMs, ResolveMaxSize);
  }

  /** `resolveTenantByHost`. The cache key is the normalised host alone. */
  method ResolveTenantByHost(cache: TtlCache<string, Option<Resolution>>, domains: seq<Domain>,
                             rawHost: Option<string>, allowPendingInDev: bool, isProduction: bool, now: int)
    returns (r: Option<Resolution>)
    requires cache.Valid()
    modifies cache
    ensures cache.Valid()
    ensures ResolveStep(old(cache.entries), cache.entries, cache.ttlMs, domains, rawHost, allowPendingInDev, isProduction, now, r)
    ensures NormalizeHost(rawHost).None? ==> r.None? && cache.entries == old(cache.entries) && cache.order == old(cache.order)
    ensures NormalizeHost(rawHost).Some? ==>
      var host := NormalizeHost(rawHost).value;
      if host in old(cache.entries) && now <= old(cache.entries)[host].exp then
        r == old(cache.entries)[host].v && cache.entries == old(cache.entries) && cache.order == old(cache.order)
      else
        r == Decide(FindDomain(domains, host), allowPendingInDev, isProduction)
        && host in cache.entries && cache.entries[host] == Entry(r, now + cache.ttlMs)
  {
    var host := NormalizeHost(rawHost);
    if host.None? {
      return None;
    }
    r := ResolveHost(cache, domains, host.value, allowPendingInDev, isProduction, now);
  }

  /** The part of `resolveTenantByHost` after normalisation: a fresh cached answer, else the
      domain table's answer, which is then cached. */
  method ResolveHost(cache: TtlCache<string, Option<Resolution>>, domains: seq<Domain>,
                     host: string, allowPendingInDev: bool, isProduction: bool, now: int)
    returns (r: Option<Resolution>)
    requires cache.Valid()
    modifies cache
    ensures cache.Valid()
    ensures if host in old(cache.entries) && now <= old(cache.entries)[host].exp then
        r == old(cache.entries)[host].v && cache.entries == old(cache.entries) && cache.order == old(cache.order)
      else
        r == Decide(FindDomain(domains, host), allowPendingInDev, isProduction)
        && host in cache.entries && cache.entries[host] == Entry(r, now + cache.ttlMs)
    ensures forall k | k in cache.entries && k != host :: k in old(cache.entries) && cache.entries[k] == old(cache.entries)[k]
    ensures HostStep(old(cache.entries), cache.entries, cache.ttlMs, domains, host, allowPendingInDev, isProduction, now, r)
  {
    var cached := cache.Get(host, now);
    if cached.Some? {
      return cached.value;
    }
    var domain := FindDomain(domains, host);
    r := Decide(domain, allowPendingInDev, isProduction);
    cache.Set(host, r, now);
  }

  /** `__clearResolveTenantCache`. */
  method ClearResolveTenantCache(cache: TtlCache<string, Option<Resolution>>)
    requires cache.Valid()
    modifies cache
    ensures cache.Valid() && cache.entries == map[]
  {
    cache.Clear();
  }

  /** Because the flag is not part of the cache key, a pending domain resolved for a caller that
      allows pending domains is served, within the TTL, to a caller that does not. */
  method CacheIgnoresPendingFlag(cache: TtlCache<string, Option<Resolution>>, d: Domain, now: int)
    returns (second: Option<Resolution>)
    requires cache.Valid() && cache.entries == map[] && cache.ttlMs == ResolveTtlMs
    requires d.status == Pending && NormalizeHost(Some(d.host)) == Some(d.host)
    modifies cache
    ensures Decide(Some(d), false, false).None?
    ensures second == Some(Resolution(d.tenantId, d.isPrimary))
  {
    var first := ResolveTenantByHost(cache, [d], Some(d.host), true, false, now);
    second := ResolveTenantByHost(cache, [d], Some(d.host), false, false, now + 1);
  }
}
