/** Requests as the server sees them: a method, a parsed URL and the header
    table (header names are lower-case, as the Fetch `Headers` object stores them).
    URL parsing is a small model of the WHATWG parser restricted to absolute
    `scheme://host/path?query#fragment` strings. */
module Requests {
  import opened Common

  type Headers = map<string, string>

  /** `headers.get(name)`: null when the header is absent. */
  function HeaderOf(h: Headers, name: string): Option<string> {
    if name in h then Some(h[name]) else None
  }

  /** `headers.get(name) || ""`-style reads: absent and empty are both falsy. */
  predicate HasNonEmpty(h: Headers, name: string) {
    name in h && h[name] != ""
  }

  /** A parsed URL: `protocol` keeps its trailing ':' and `host` its port, as in JavaScript. */
  datatype Url = Url(protocol: string, host: string, pathname: string, query: seq<(string, string)>)

  datatype Request = Request(verb: string, url: Url, headers: Headers)

  predicate IsSchemeChar(c: char) {
    IsLowerAscii(c) || IsUpperAscii(c) || IsDigit(c) || c == '+' || c == '-' || c == '.'
  }

  /** Index of the first character of `s` in `cs`, or `|s|`. */
  function IndexOfAny(s: string, cs: set<char>): (i: nat)
    ensures i <= |s|
    ensures forall j | 0 <= j < i :: s[j] !in cs
    ensures i < |s| ==> s[i] in cs
  {
    if s == [] then 0 else if s[0] in cs then 0 else 1 + IndexOfAny(s[1..], cs)
  }

  /** One `name=value` pair of a query string; a pair without '=' has an empty value. */
  function ParsePair(p: string): (string, string) {
    var i := IndexOf(p, '=');
    if i == |p| then (p, "") else (p[..i], p[i + 1..])
  }

  /** `URLSearchParams` over the text after '?': empty pieces are skipped. */
  function ParseQuery(q: string): seq<(string, string)> {
    Pairs(Split(q, '&'))
  }

  function Pairs(pieces: seq<string>): seq<(string, string)> {
    if pieces == [] then []
    else (if pieces[0] == "" then [] else [ParsePair(pieces[0])]) + Pairs(pieces[1..])
  }

  /** Check outcomes of the security gates: pass, or deny with a message. */
  datatype Check = Pass | Deny(error: string)

  /** `new URL(s)` for an absolute URL with an authority; `None` where the
      constructor throws. Scheme and host are lower-cased. */
  function ParseUrl(s: string): (r: Option<Url>)
    ensures r.Some? ==> r.value.pathname != [] && r.value.pathname[0] == '/'
    ensures r.Some? ==> r.value.host != [] && EndsWith(r.value.protocol, ":")
  {
    var i := IndexOf(s, ':');
    if i == 0 || i == |s| || !IsLowerAscii(LowerChar(s[0])) then None
    else if !(forall j | 0 <= j < i :: IsSchemeChar(s[j])) then None
    else
      var rest := s[i + 1..];
      if !StartsWith(rest, "//") then None
      else
        var after := rest[2..];
        var j := IndexOfAny(after, {'/', '?', '#'});
        var host := after[..j];
        if host == [] || !NoSpace(host) then None
        else
          var tail := after[j..];
          var noFrag := tail[..IndexOf(tail, '#')];
          var q := IndexOf(noFrag, '?');
          var path := noFrag[..q];
          var query := if q < |noFrag| then ParseQuery(noFrag[q + 1..]) else [];
          Some(Url(ToLower(s[..i]) + ":", ToLower(host), if path == [] then "/" else path, query))
  }

  /** `url.origin`. */
  function OriginOf(u: Url): string {
    u.protocol + "//" + u.host
  }

  /** `url.searchParams.get(name)`: the first pair with that name. */
  function SearchParam(q: seq<(string, string)>, name: string): (r: Option<string>)
    ensures r.Some? <==> exists i | 0 <= i < |q| :: q[i].0 == name
    ensures r.Some? ==> exists i | 0 <= i < |q| :: q[i] == (name, r.value)
  {
    if q == [] then None
    else if q[0].0 == name then Some(q[0].1)
    else
      var r := SearchParam(q[1..], name);
      assert forall i | 1 <= i < |q| :: q[i] == q[1..][i - 1];
      r
  }
}
