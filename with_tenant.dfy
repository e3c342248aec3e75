/** Choosing the tenant a request runs under: the request host first, then
    (for admin flows that opt in) the tenant_id cookie, then, outside
    production only, a test header and a `__tenant` query parameter. */
module WithTenant {
  import opened Common
  import opened Requests
  import opened Hosts
  import opened TtlCaches
  import opened ResolveTenant

  const TenantCookie := "tenant_id"

  /** The pieces of a Cookie header: `split(/;\s*\/)`. */
  function CookieParts(header: string): (parts: seq<string>)
    ensures |parts| >= 1
    ensures forall i | 0 <= i < |parts| :: ';' !in parts[i]
  {
    var pieces := Split(header, ';');
    seq(|pieces|, i requires 0 <= i < |pieces| => if i == 0 then pieces[0] else TrimStart(pieces[i]))
  }

  /** The name of a `k=v` piece: the text before the first '='. */
  function PairName(p: string): string {
    FirstToken(p, '=')
  }

  /** The value of a `k=v` piece: everything after the first '=', further '=' included
      (`rest.join("=")`); empty when there is no '='. */
  function PairValue(p: string): (v: string)
    ensures '=' in p ==> p == PairName(p) + "=" + v
  {
    var i := IndexOf(p, '=');
    if i == |p| then "" else p[i + 1..]
  }

  /** The index of the first piece named `name`, or `|parts|`. */
  function FirstNamedIndex(parts: seq<string>, name: string): (i: nat)
    ensures i <= |parts|
    ensures forall j | 0 <= j < i :: PairName(parts[j]) != name
    ensures i < |parts| ==> PairName(parts[i]) == name
  {
    if parts == [] then 0
    else if PairName(parts[0]) == name then 0
    else 1 + FirstNamedIndex(parts[1..], name)
  }

  /** The value of the first piece named `name`. */
  function FirstNamed(parts: seq<string>, name: string): Option<string> {
    var i := FirstNamedIndex(parts, name);
    if i < |parts| then Some(PairValue(parts[i])) else None
  }

  /** What `readCookie` answers: nothing for a missing or empty header. */
  function CookieValue(header: Option<string>, name: string): Option<string> {
    if header.None? || header.value == "" then None else FirstNamed(CookieParts(header.value), name)
  }

  /** The loop of `readCookie`: returns at the first piece named `name`. */
  method FindPair(parts: seq<string>, name: string) returns (r: Option<string>)
    ensures r == FirstNamed(parts, name)
  {
    var i := 0;
    while i < |parts|
      invariant 0 <= i <= |parts|
      invariant forall j | 0 <= j < i :: PairName(parts[j]) != name
    {
      if PairName(parts[i]) == name {
        assert FirstNamedIndex(parts, name) == i;
        return Some(PairValue(parts[i]));
      }
      i := i + 1;
    }
    assert FirstNamedIndex(parts, name) == |parts|;
    r := None;
  }

  /** `readCookie`. */
  method ReadCookie(header: Option<string>, name: string) returns (r: Option<string>)
    ensures r == CookieValue(header, name)
  {
    if header.None? || header.value == "" {
      return None;
    }
    r := FindPair(CookieParts(header.value), name);
  }

  /** A header that starts with `name=value` yields `value`, '=' signs inside it included. */
  lemma ReadCookieFirstPair(name: string, value: string, more: string)
    requires name != [] && '=' !in name && ';' !in name && ';' !in value
    requires more == [] || more[0] == ';'
    ensures CookieValue(Some(name + "=" + value + more), name) == Some(value)
  {
    var first := name + "=" + value;
    FirstPiece(first, more);
    var parts := CookieParts(first + more);
    assert parts[0] == first;
    PairOf(name, value);
    assert FirstNamedIndex(parts, name) == 0;
  }

  /** The first `;`-piece of a header is the text before its first `;`. */
  lemma FirstPiece(first: string, more: string)
    requires ';' !in first && (more == [] || more[0] == ';')
    ensures Split(first + more, ';')[0] == first
  {
    var h := first + more;
    if more == [] {
      assert h == first;
    } else {
      IndexOfJoined(first, more[1..], ';');
      assert h == first + [';'] + more[1..];
    }
    assert FirstToken(h, ';') == h[..IndexOf(h, ';')];
  }

  /** `name=value` is named `name` and carries `value`. */
  lemma PairOf(name: string, value: string)
    requires '=' !in name
    ensures PairName(name + "=" + value) == name && PairValue(name + "=" + value) == value
  {
    IndexOfJoined(name, value, '=');
    assert name + "=" + value == name + ['='] + value;
  }

  datatype Source = HostSource | CookieSource | HeaderSource | QuerySource

  /** The context the handler runs with; `None` stands for undefined / null. */
  datatype TenantContext = TenantContext(tenantId: Option<string>, source: Option<Source>)

  datatype WithTenantOpts = WithTenantOpts(allowCookieFallbackForAdmin: bool, allowPendingInDev: bool)

  predicate Filled(s: Option<string>) {
    s.Some? && s.value != ""
  }

  /** The dev header override: `x-test-tenant-id ?? x-tenant-id`; a present but empty
      x-test-tenant-id does not fall through. */
  function DevHeader(h: Headers): Option<string> {
    if "x-test-tenant-id" in h then Some(h["x-test-tenant-id"])
    else if "x-tenant-id" in h then Some(h["x-tenant-id"])
    else None
  }

  /** The URL the query override reads: the request's own URL when there is a request,
      otherwise the first non-empty of next-url and x-url, when it parses. */
  function FallbackUrl(req: Option<Request>, h: Headers): Option<Url> {
    if req.Some? then Some(req.value.url)
    else if HasNonEmpty(h, "next-url") then ParseUrl(h["next-url"])
    else if HasNonEmpty(h, "x-url") then ParseUrl(h["x-url"])
    else None
  }

  function QueryTenant(u: Option<Url>): Option<string> {
    if u.None? then None else SearchParam(u.value.query, "__tenant")
  }

  /** The precedence rule. */
  function Choose(resolved: Option<Resolution>, cookieTid: Option<string>, opts: WithTenantOpts,
                  isProduction: bool, h: Headers, url: Option<Url>): (ctx: TenantContext)
    ensures ctx.tenantId.None? <==> ctx.source.None?
    ensures ctx.tenantId.Some? ==> ctx.tenantId.value != ""
    ensures resolved.Some? && resolved.value.tenantId != "" ==>
      ctx == TenantContext(Some(resolved.value.tenantId), Some(HostSource))
    ensures ctx.source == Some(CookieSource) <==>
      !(resolved.Some? && resolved.value.tenantId != "") && opts.allowCookieFallbackForAdmin && Filled(cookieTid)
    ensures ctx.source == Some(CookieSource) ==> ctx.tenantId == cookieTid
    ensures ctx.source == Some(HeaderSource) || ctx.source == Some(QuerySource) ==>
      !isProduction && !(resolved.Some? && resolved.value.tenantId != "")
      && !(opts.allowCookieFallbackForAdmin && Filled(cookieTid))
    ensures ctx.source == Some(HeaderSource) ==> DevHeader(h).Some? && ctx.tenantId == Some(Trim(DevHeader(h).value))
    ensures ctx.source == Some(QuerySource) ==>
      ctx.tenantId == QueryTenant(url) && (DevHeader(h).None? || Trim(DevHeader(h).value) == "")
  {
    var first :=
      if resolved.Some? && resolved.value.tenantId != "" then TenantContext(Some(resolved.value.tenantId), Some(HostSource))
      else if opts.allowCookieFallbackForAdmin && Filled(cookieTid) then TenantContext(cookieTid, Some(CookieSource))
      else TenantContext(None, None);
    if first.tenantId.Some? || isProduction then first
    else
      var hTid := DevHeader(h);
      if hTid.Some? && Trim(hTid.value) != "" then TenantContext(Some(Trim(hTid.value)), Some(HeaderSource))
      else
        var q := QueryTenant(url);
        if Filled(q) then TenantContext(q, Some(QuerySource)) else first
  }

  /** The cookie jar of the response being built. */
  class CookieJar {
    var values: map<string, string>

    constructor (values: map<string, string>)
      ensures this.values == values
    {
      this.values := values;
    }

    method Get(name: string) returns (r: Option<string>)
      ensures r == HeaderOf(values, name)
    {
      r := HeaderOf(values, name);
    }

    method Set(name: string, value: string)
      modifies this
      ensures values == old(values)[name := value]
    {
      values := values[name := value];
    }
  }

  /** Whether the jar is written: only without a request object; on the host path only when
      the stored cookie differs; on the header and query paths always. */
  predicate WritesCookie(req: Option<Request>, ctx: TenantContext, cookieTid: Option<string>) {
    req.None? && ctx.tenantId.Some?
    && (ctx.source == Some(HeaderSource) || ctx.source == Some(QuerySource)
        || (ctx.source == Some(HostSource) && cookieTid != ctx.tenantId))
  }

  /** `withTenant`: the headers and cookies come from `req` when given, otherwise from the
      request-bound `nextHeaders` and `jar`. Answers the resolution used and the context the
      handler runs with. */
  method WithTenant(cache: TtlCache<string, Option<Resolution>>, domains: seq<Domain>, now: int,
                    opts: WithTenantOpts, isProduction: bool, req: Option<Request>,
                    nextHeaders: Headers, jar: CookieJar)
    returns (resolved: Option<Resolution>, cookieTid: Option<string>, ctx: TenantContext)
    requires cache.Valid()
    modifies cache, jar
    ensures cache.Valid()
    ensures var h := if req.Some? then req.value.headers else nextHeaders;
      HostFrom(h).None? ==> resolved.None?
    ensures var h := if req.Some? then req.value.headers else nextHeaders;
      ResolveStep(old(cache.entries), cache.entries, cache.ttlMs, domains, HostFrom(h),
                  opts.allowPendingInDev, isProduction, now, resolved)
    ensures var h := if req.Some? then req.value.headers else nextHeaders;
      cookieTid == (if req.Some? then CookieValue(HeaderOf(h, "cookie"), TenantCookie) else HeaderOf(old(jar.values), TenantCookie))
    ensures var h := if req.Some? then req.value.headers else nextHeaders;
      ctx == Choose(resolved, cookieTid, opts, isProduction, h, FallbackUrl(req, h))
    ensures jar.values == if WritesCookie(req, ctx, cookieTid) then old(jar.values)[TenantCookie := ctx.tenantId.value] else old(jar.values)
  {
    var h := if req.Some? then req.value.headers else nextHeaders;
    var host := HostFrom(h);
    resolved := ResolveTenantByHost(cache, domains, host, opts.allowPendingInDev, isProduction, now);
    cookieTid, ctx := Settle(resolved, opts, isProduction, req, h, jar);
  }

  /** The part of `withTenant` after resolution: read the tenant cookie, apply the precedence
      rule, and write the jar when there is no request object. */
  method Settle(resolved: Option<Resolution>, opts: WithTenantOpts, isProduction: bool,
                req: Option<Request>, h: Headers, jar: CookieJar)
    returns (cookieTid: Option<string>, ctx: TenantContext)
    modifies jar
    ensures cookieTid == (if req.Some? then CookieValue(HeaderOf(h, "cookie"), TenantCookie) else HeaderOf(old(jar.values), TenantCookie))
    ensures ctx == Choose(resolved, cookieTid, opts, isProduction, h, FallbackUrl(req, h))
    ensures jar.values == if WritesCookie(req, ctx, cookieTid) then old(jar.values)[TenantCookie := ctx.tenantId.value] else old(jar.values)
  {
    if req.Some? {
      cookieTid := ReadCookie(HeaderOf(h, "cookie"), TenantCookie);
    } else {
      cookieTid := jar.Get(TenantCookie);
    }
    ghost var want := Choose(resolved, cookieTid, opts, isProduction, h, FallbackUrl(req, h));
    var tenantId: Option<string> := None;
    var source: Option<Source> := None;
    if resolved.Some? && resolved.value.tenantId != "" {
      tenantId := Some(resolved.value.tenantId);
      source := Some(HostSource);
      if req.None? && cookieTid != tenantId {
        jar.Set(TenantCookie, tenantId.value);
      }
    } else if opts.allowCookieFallbackForAdmin && Filled(cookieTid) {
      tenantId := cookieTid;
      source := Some(CookieSource);
    }
    if tenantId.None? && !isProduction {
      var hTid := DevHeader(h);
      if hTid.Some? && Trim(hTid.value) != "" {
        tenantId := Some(Trim(hTid.value));
        source := Some(HeaderSource);
      }
      if tenantId.None? {
        var fullUrl := FallbackUrl(req, h);
        var qpTid := QueryTenant(fullUrl);
        if Filled(qpTid) {
          tenantId := qpTid;
          source := Some(QuerySource);
        }
      }
      if req.None? && tenantId.Some? && source != Some(CookieSource) {
        jar.Set(TenantCookie, tenantId.value);
      }
    }
    ctx := TenantContext(tenantId, source);
    assert ctx == want;
  }
}
