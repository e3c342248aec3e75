/** Strict Origin/Referer validation for state-changing requests: the Origin
    (or, without one, the Referer) must name an allowed protocol and host. */
module Origin {
  import opened Common
  import opened Requests

  /** The environment the policy reads: ORIGIN_ALLOW_LIST, APP_URL, NEXTAUTH_URL,
      NEXT_PUBLIC_APP_URL, NODE_ENV and ALLOW_MISSING_ORIGIN. */
  datatype OriginEnv = OriginEnv(allowList: Option<string>, appUrl: Option<string>, nextAuthUrl: Option<string>,
                                 publicAppUrl: Option<string>, isProduction: bool, allowMissing: Option<string>)

  predicate SafeMethod(upper: string) {
    upper in {"GET", "HEAD", "OPTIONS"}
  }

  /** `Array.from(new Set(s))`: first occurrences, in order. */
  function Dedupe<T(==)>(s: seq<T>): (r: seq<T>)
    ensures Distinct(r)
    ensures forall x | x in s :: x in r
    ensures forall x | x in r :: x in s
    ensures Distinct(s) ==> r == s
  {
    if s == [] then []
    else
      var d := Dedupe(s[..|s| - 1]);
      var last := s[|s| - 1];
      assert s == s[..|s| - 1] + [last];
      if last in d then d else d + [last]
  }

  /** The trimmed, non-empty entries of a comma-separated list. */
  function ListEntries(parts: seq<string>): (r: seq<string>)
    ensures forall x | x in r :: x != ""
  {
    if parts == [] then []
    else (if Trim(parts[0]) == "" then [] else [Trim(parts[0])]) + ListEntries(parts[1..])
  }

  function Present(v: Option<string>): seq<string> {
    if v.Some? && v.value != "" then [v.value] else []
  }

  /** The allow-list candidates before de-duplication: the env list, the app URLs, then the
      local development origins outside production. */
  function Candidates(env: OriginEnv): seq<string> {
    Configured(env) + (if env.isProduction then [] else ["http://localhost:3000", "http://127.0.0.1:3000"])
  }

  /** The origins the operator configured: the env list, then the app URLs. */
  function Configured(env: OriginEnv): seq<string> {
    ListEntries(Split(if env.allowList.Some? then env.allowList.value else "", ','))
    + Present(env.appUrl) + Present(env.nextAuthUrl) + Present(env.publicAppUrl)
  }

  /** The parsed entries, unparsable ones dropped. */
  function ParseAll(s: seq<string>): (r: seq<Url>)
    ensures forall u | u in r :: exists x | x in s :: ParseUrl(x) == Some(u)
    ensures forall x | x in s && ParseUrl(x).Some? :: ParseUrl(x).value in r
  {
    if s == [] then []
    else
      var rest := ParseAll(s[1..]);
      assert forall x | x in s[1..] :: x in s;
      (if ParseUrl(s[0]).Some? then [ParseUrl(s[0]).value] else []) + rest
  }

  /** `parseAllowedOrigins`. */
  function ParseAllowedOrigins(env: OriginEnv): (r: seq<Url>)
    ensures forall u | u in r :: exists x | x in Candidates(env) :: ParseUrl(x) == Some(u)
    ensures forall x | x in Candidates(env) && ParseUrl(x).Some? :: ParseUrl(x).value in r
  {
    ParseAll(Dedupe(Candidates(env)))
  }

  /** In production the allow-list holds only configured origins: nothing is added
      behind the operator's back. */
  lemma ProductionUsesConfiguredOnly(env: OriginEnv)
    requires env.isProduction
    ensures forall u | u in ParseAllowedOrigins(env) :: exists x | x in Configured(env) :: ParseUrl(x) == Some(u)
  {
    assert Candidates(env) == Configured(env);
  }

  /** `matchesAllowed`: a missing, empty or unparsable URL never matches. */
  function MatchesAllowed(urlStr: Option<string>, allowed: seq<Url>): (r: bool)
    ensures r <==>
      urlStr.Some? && urlStr.value != "" && ParseUrl(urlStr.value).Some?
      && exists a | a in allowed :: a.protocol == ParseUrl(urlStr.value).value.protocol
                                 && a.host == ParseUrl(urlStr.value).value.host
  {
    if urlStr.None? || urlStr.value == "" then false
    else
      var u := ParseUrl(urlStr.value);
      u.Some? && exists a | a in allowed :: a.protocol == u.value.protocol && a.host == u.value.host
  }

  /** `verifyOriginStrict`. */
  function VerifyOriginStrict(verb: string, h: Headers, env: OriginEnv): (r: Check)
    ensures SafeMethod(ToUpper(verb)) ==> r == Pass
    ensures !SafeMethod(ToUpper(verb)) && HasNonEmpty(h, "origin") ==>
      r == if MatchesAllowed(HeaderOf(h, "origin"), ParseAllowedOrigins(env)) then Pass else Deny("Invalid Origin")
    ensures !SafeMethod(ToUpper(verb)) && !HasNonEmpty(h, "origin") && HasNonEmpty(h, "referer") ==>
      r == if MatchesAllowed(HeaderOf(h, "referer"), ParseAllowedOrigins(env)) then Pass else Deny("Invalid Referer")
    ensures !SafeMethod(ToUpper(verb)) && !HasNonEmpty(h, "origin") && !HasNonEmpty(h, "referer") ==>
      (r == Pass <==> env.allowMissing.Some? && ToLower(env.allowMissing.value) == "true")
    ensures r.Deny? ==> r.error in {"Invalid Origin", "Invalid Referer", "Missing Origin/Referer"}
  {
    if SafeMethod(ToUpper(verb)) then Pass
    else
      var allowed := ParseAllowedOrigins(env);
      if HasNonEmpty(h, "origin") then
        if MatchesAllowed(HeaderOf(h, "origin"), allowed) then Pass else Deny("Invalid Origin")
      else if HasNonEmpty(h, "referer") then
        if MatchesAllowed(HeaderOf(h, "referer"), allowed) then Pass else Deny("Invalid Referer")
      else if ToLower(if env.allowMissing.Some? then env.allowMissing.value else "") == "true" then Pass
      else Deny("Missing Origin/Referer")
  }

  /** When an Origin header is present the Referer plays no part. */
  lemma RefererIgnoredWithOrigin(verb: string, h: Headers, env: OriginEnv, referer: string)
    requires HasNonEmpty(h, "origin")
    ensures VerifyOriginStrict(verb, h["referer" := referer], env) == VerifyOriginStrict(verb, h, env)
  {
    assert HeaderOf(h["referer" := referer], "origin") == HeaderOf(h, "origin");
  }
}
