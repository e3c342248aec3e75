/** The canonical origin of the site for a request: the configured base URL when
    there is one, else the reverse proxy's forwarded host, else the Host header. */
module Canonical {
  import opened Common
  import opened Requests

  /** APP_BASE_URL (`None` when unset) and whether NODE_ENV is "production". */
  datatype CanonEnv = CanonEnv(appBaseUrl: Option<string>, isProduction: bool)

  /** `process.env.APP_BASE_URL?.trim()`, with an unset variable read as "". */
  function AppBase(env: CanonEnv): string {
    if env.appBaseUrl.Some? then Trim(env.appBaseUrl.value) else ""
  }

  /** `h.get(name)?.split(",")[0]?.trim()`, with an absent header read as "". */
  function ForwardedToken(h: Headers, name: string): (r: string)
    ensures name !in h ==> r == ""
    ensures name in h ==> r == Trim(FirstToken(h[name], ','))
  {
    if name in h then Trim(FirstToken(h[name], ',')) else ""
  }

  /** `(xfProto || "https").trim()`. */
  function ForwardedProto(h: Headers): (r: string)
    ensures ForwardedToken(h, "x-forwarded-proto") == "" ==> r == "https"
    ensures ForwardedToken(h, "x-forwarded-proto") != "" ==> r == ForwardedToken(h, "x-forwarded-proto")
  {
    var p := ForwardedToken(h, "x-forwarded-proto");
    if p == "" then "https" else p
  }

  /** `h.get("host") || "localhost"`: the port is kept. */
  function HostOrLocalhost(h: Headers): (r: string)
    ensures r != ""
    ensures HasNonEmpty(h, "host") ==> r == h["host"]
  {
    if HasNonEmpty(h, "host") then h["host"] else "localhost"
  }

  /** `canonicalFrom(h)`: `None` where the URL constructor would throw. */
  function CanonicalFrom(env: CanonEnv, h: Headers): (r: Option<Url>)
    ensures r.Some? ==> r.value.host != "" && r.value.pathname != ""
    ensures AppBase(env) != "" ==> r == ParseUrl(AppBase(env))
  {
    var appBase := AppBase(env);
    if appBase != "" then ParseUrl(appBase)
    else
      var xfHost := ForwardedToken(h, "x-forwarded-host");
      if xfHost != "" then ParseUrl(ForwardedProto(h) + "://" + xfHost)
      else ParseUrl((if env.isProduction then "https" else "http") + "://" + HostOrLocalhost(h))
  }

  /** A scheme the URL parser accepts: a letter, then letters, digits, '+', '-' or '.'. */
  predicate SchemeOk(s: string) {
    s != [] && (IsLowerAscii(s[0]) || IsUpperAscii(s[0])) && forall i | 0 <= i < |s| :: IsSchemeChar(s[i])
  }

  /** An authority the URL parser keeps whole: no blank, and nothing that starts a path,
      a query or a fragment. A port is allowed. */
  predicate AuthorityOk(h: string) {
    h != [] && NoSpace(h) && forall i | 0 <= i < |h| :: h[i] !in {'/', '?', '#'}
  }

  /** `new URL(scheme + "://" + host)` is the bare origin, lower-cased, with path "/". */
  lemma ParseOrigin(scheme: string, host: string)
    requires SchemeOk(scheme) && AuthorityOk(host)
    ensures ParseUrl(scheme + "://" + host) == Some(Url(ToLower(scheme) + ":", ToLower(host), "/", []))
  {
    var s := scheme + "://" + host;
    SchemeSplits(scheme, host);
    var i := |scheme|;
    assert IsLowerAscii(LowerChar(s[0]));
    assert forall j | 0 <= j < i :: IsSchemeChar(s[j]);
    var after := s[i + 1..][2..];
    assert after == host;
    assert IndexOfAny(after, {'/', '?', '#'}) == |host|;
    assert after[..|host|] == host && after[|host|..] == [];
  }

  /** The first ':' of `scheme + "://" + host` ends the scheme. */
  lemma SchemeSplits(scheme: string, host: string)
    requires SchemeOk(scheme)
    ensures var s := scheme + "://" + host;
      IndexOf(s, ':') == |scheme| && s[..|scheme|] == scheme && s[|scheme| + 1..] == "//" + host
  {
    var s := scheme + "://" + host;
    assert ':' !in scheme by {
      forall i | 0 <= i < |scheme| ensures scheme[i] != ':' {
        assert IsSchemeChar(scheme[i]);
      }
    }
    assert s == scheme + [':'] + ("//" + host);
    IndexOfJoined(scheme, "//" + host, ':');
  }

  /** A non-blank APP_BASE_URL wins: the headers do not matter. */
  lemma AppBaseWins(env: CanonEnv, h: Headers, h': Headers)
    requires AppBase(env) != ""
    ensures CanonicalFrom(env, h) == CanonicalFrom(env, h') == ParseUrl(AppBase(env))
  {
  }

  /** Without a base URL, a well-formed forwarded host gives the origin, with the first
      forwarded protocol or https. */
  lemma ForwardedHostUsed(env: CanonEnv, h: Headers)
    requires AppBase(env) == ""
    requires AuthorityOk(ForwardedToken(h, "x-forwarded-host"))
    requires SchemeOk(ForwardedProto(h))
    ensures CanonicalFrom(env, h) ==
      Some(Url(ToLower(ForwardedProto(h)) + ":", ToLower(ForwardedToken(h, "x-forwarded-host")), "/", []))
  {
    ParseOrigin(ForwardedProto(h), ForwardedToken(h, "x-forwarded-host"));
  }

  /** Without a base URL or a forwarded host, the Host header (or localhost) is used with
      its port, over https exactly in production. */
  lemma HostFallback(env: CanonEnv, h: Headers)
    requires AppBase(env) == "" && ForwardedToken(h, "x-forwarded-host") == ""
    requires AuthorityOk(HostOrLocalhost(h))
    ensures CanonicalFrom(env, h).Some?
    ensures CanonicalFrom(env, h).value.protocol == if env.isProduction then "https:" else "http:"
    ensures CanonicalFrom(env, h).value.host == ToLower(HostOrLocalhost(h))
  {
    var scheme := if env.isProduction then "https" else "http";
    var host := HostOrLocalhost(h);
    assert CanonicalFrom(env, h) == ParseUrl(scheme + "://" + host);
    SchemesOk(scheme);
    ParseOrigin(scheme, host);
  }

  /** The two fallback schemes are valid and already lower-case. */
  lemma SchemesOk(scheme: string)
    requires scheme in {"https", "http"}
    ensures SchemeOk(scheme) && ToLower(scheme) == scheme && ToLower(scheme) + ":" == scheme + ":"
  {
  }

  /** A forwarded protocol without a forwarded host changes nothing. */
  lemma ForwardedProtoNeedsHost(env: CanonEnv, h: Headers, proto: string)
    requires ForwardedToken(h, "x-forwarded-host") == ""
    ensures CanonicalFrom(env, h["x-forwarded-proto" := proto]) == CanonicalFrom(env, h)
  {
    var h' := h["x-forwarded-proto" := proto];
    assert ForwardedToken(h', "x-forwarded-host") == "";
    assert HostOrLocalhost(h') == HostOrLocalhost(h);
  }
}
