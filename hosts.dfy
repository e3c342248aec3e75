/** Host normalisation: the canonical host string an incoming Host or
    X-Forwarded-Host header stands for, or null when it does not look like a host. */
module Hosts {
  import opened Common
  import opened Requests

  predicate AllDigits(s: string) {
    forall i | 0 <= i < |s| :: IsDigit(s[i])
  }

  /** The characters of `[a-z0-9.-]`. */
  predicate HostChar(c: char) {
    IsLowerAscii(c) || IsDigit(c) || c == '.' || c == '-'
  }

  /** The characters of `[a-z0-9-]`. */
  predicate LabelChar(c: char) {
    IsLowerAscii(c) || IsDigit(c) || c == '-'
  }

  /** `s` matches `^[a-z0-9.-]+\.[a-z0-9-]+$` with its last separating dot at `i`. */
  predicate DomainSplitAt(s: string, i: int) {
    0 < i < |s| - 1 && s[i] == '.'
    && (forall j | 0 <= j < i :: HostChar(s[j]))
    && (forall j | i < j < |s| :: LabelChar(s[j]))
  }

  /** `/^[a-z0-9.-]+\.[a-z0-9-]+$/.test(s)`. */
  predicate DomainLike(s: string) {
    exists i | 0 < i < |s| - 1 :: DomainSplitAt(s, i)
  }

  /** `/^[0-9.]+$/.test(s)`. */
  predicate IpLike(s: string) {
    s != [] && forall i | 0 <= i < |s| :: IsDigit(s[i]) || s[i] == '.'
  }

  predicate LooksLikeHost(s: string) {
    s == "localhost" || DomainLike(s) || IpLike(s)
  }

  /** The length of the longest all-digit suffix of `s`. */
  function TrailingDigits(s: string): (d: nat)
    ensures d <= |s|
    ensures AllDigits(s[|s| - d..])
    ensures d < |s| ==> !IsDigit(s[|s| - d - 1])
  {
    if s == [] || !IsDigit(s[|s| - 1]) then 0
    else
      var d := TrailingDigits(s[..|s| - 1]);
      DigitsExtend(s, d);
      d + 1
  }

  /** A digit suffix of `s` without its last character, plus that last digit, is a
      digit suffix of `s`. */
  lemma DigitsExtend(s: string, d: nat)
    requires s != [] && IsDigit(s[|s| - 1]) && d <= |s| - 1
    requires AllDigits(s[..|s| - 1][|s| - 1 - d..])
    ensures AllDigits(s[|s| - (d + 1)..])
  {
    forall i | |s| - (d + 1) <= i < |s|
      ensures IsDigit(s[i])
    {
      if i < |s| - 1 {
        assert s[i] == s[..|s| - 1][|s| - 1 - d..][i - (|s| - 1 - d)];
      }
    }
  }

  /** `s` ends with ":<digits>" starting at `j`. */
  predicate PortAt(s: string, j: int) {
    0 <= j < |s| - 1 && s[j] == ':' && AllDigits(s[j + 1..])
  }

  /** A port suffix is exactly the digit suffix and the colon before it. */
  lemma PortAtTrailing(s: string, j: int)
    requires PortAt(s, j)
    ensures TrailingDigits(s) == |s| - j - 1
  {
    var d := TrailingDigits(s);
    assert !IsDigit(s[j]) && AllDigits(s[j + 1..]);
  }

  /** `s` without its last `d + 1` characters when they are ':' and `d >= 1` digits. */
  function CutPort(s: string, d: nat): string
    requires d <= |s|
  {
    if d >= 1 && d < |s| && s[|s| - d - 1] == ':' then s[..|s| - d - 1] else s
  }

  /** `s.replace(/:\d+$/, "")`. */
  function StripPort(s: string): (r: string)
    ensures forall j | PortAt(s, j) :: r == s[..j]
    ensures (forall j | 0 <= j < |s| :: !PortAt(s, j)) ==> r == s
  {
    var d := TrailingDigits(s);
    var j := |s| - d - 1;
    if d >= 1 && d < |s| && s[j] == ':' then
      assert PortAt(s, j);
      assert forall k | PortAt(s, k) :: k == j by {
        forall k | PortAt(s, k)
          ensures k == j
        {
          PortAtTrailing(s, k);
        }
      }
      s[..j]
    else
      assert forall k | 0 <= k < |s| :: !PortAt(s, k) by {
        forall k | 0 <= k < |s|
          ensures !PortAt(s, k)
        {
          if PortAt(s, k) {
            PortAtTrailing(s, k);
          }
        }
      }
      s
  }

  /** Stripping the port cuts at the trailing digits. */
  lemma StripPortIsCut(s: string)
    ensures StripPort(s) == CutPort(s, TrailingDigits(s))
  {
  }

  /** The last steps of `normalizeHost` on the lower-cased, port-less token: one leading
      "www." removed, and the rest kept only when it looks like a host. */
  function Finish(lowered: string): (r: Option<string>)
    ensures r.Some? ==> LooksLikeHost(r.value)
    ensures r.Some? ==> r.value != [] && forall i | 0 <= i < |r.value| :: HostChar(r.value[i])
  {
    var noWww := if StartsWith(lowered, "www.") then lowered[4..] else lowered;
    if LooksLikeHost(noWww) then
      HostCharset(noWww);
      Some(noWww)
    else None
  }

  /** `normalizeHost`: first comma-separated token, trimmed, port stripped, lower-cased,
      one leading "www." removed; kept only when it looks like a host. */
  function NormalizeHost(raw: Option<string>): (r: Option<string>)
    ensures raw.None? || raw == Some("") ==> r.None?
    ensures r.Some? ==> LooksLikeHost(r.value)
    ensures r.Some? ==> r.value != [] && forall i | 0 <= i < |r.value| :: HostChar(r.value[i])
    ensures raw.Some? && AllSpace(FirstToken(raw.value, ',')) ==> r.None?
  {
    if raw.None? || raw.value == "" then None
    else
      var first := FirstValue(raw.value);
      if first == "" then None
      else Finish(ToLower(StripPort(first)))
  }

  /** `raw.split(",")[0]?.trim()`: the first comma-separated value, trimmed. */
  function FirstValue(raw: string): string {
    Trim(FirstToken(raw, ','))
  }

  /** Every accepted host is made of `[a-z0-9.-]`: no upper case, comma, space or ':'. */
  lemma HostCharset(s: string)
    requires LooksLikeHost(s)
    ensures s != [] && forall i | 0 <= i < |s| :: HostChar(s[i])
  {
    if s != "localhost" && DomainLike(s) {
      var k :| 0 < k < |s| - 1 && DomainSplitAt(s, k);
    }
  }

  /** A string already made of host characters passes the token, trim, port and
      case steps unchanged. */
  lemma CanonicalPassesThrough(s: string)
    requires s != [] && forall i | 0 <= i < |s| :: HostChar(s[i])
    ensures var n := if StartsWith(s, "www.") then s[4..] else s;
      NormalizeHost(Some(s)) == if LooksLikeHost(n) then Some(n) else None
  {
    HostCharsUntouched(s);
  }

  /** Each step before the "www." test leaves a string of host characters alone. */
  lemma HostCharsUntouched(s: string)
    requires s != [] && forall i | 0 <= i < |s| :: HostChar(s[i])
    ensures Trim(FirstToken(s, ',')) == s && ToLower(StripPort(s)) == s
  {
    forall i | 0 <= i < |s|
      ensures s[i] != ',' && s[i] != ':' && !IsUpperAscii(s[i])
    {
      assert HostChar(s[i]);
    }
    assert FirstToken(s, ',') == s;
    assert !IsSpace(s[0]) && !IsSpace(s[|s| - 1]) by {
      assert HostChar(s[0]) && HostChar(s[|s| - 1]);
    }
    TrimTrimmed(s);
    assert StripPort(s) == s by {
      forall j | 0 <= j < |s|
        ensures !PortAt(s, j)
      {
      }
    }
    assert ToLower(s) == s;
  }

  /** Normalising an accepted host that does not start with "www." gives it back. */
  lemma NormalizeFixpoint(raw: Option<string>)
    requires NormalizeHost(raw).Some? && !StartsWith(NormalizeHost(raw).value, "www.")
    ensures NormalizeHost(NormalizeHost(raw)) == NormalizeHost(raw)
  {
    CanonicalPassesThrough(NormalizeHost(raw).value);
  }

  /** The "www." stripping happens once, so normalising is not idempotent: "www.www.example.com"
      normalises to "www.example.com", which normalises to "example.com". */
  lemma NotIdempotent(host: string, once: string, twice: string)
    requires host == "www.www.example.com" && once == "www.example.com" && twice == "example.com"
    ensures NormalizeHost(Some(host)) == Some(once)
    ensures NormalizeHost(NormalizeHost(Some(host))) == Some(twice)
  {
    ExampleHosts(host, once, twice);
    StripsOneWww(twice, 7);
    StripsOneWww(once, 11);
  }

  /** How the three example hosts are built from one another. */
  lemma ExampleHosts(host: string, once: string, twice: string)
    requires host == "www.www.example.com" && once == "www.example.com" && twice == "example.com"
    ensures host == "www." + once && once == "www." + twice
    ensures DomainSplitAt(once, 11) && DomainSplitAt(twice, 7)
  {
    assert DomainSplitAt(twice, 7);
    assert DomainSplitAt(once, 11);
  }

  /** "www." followed by a domain with its last dot at `k` normalises to that domain. */
  lemma StripsOneWww(rest: string, k: int)
    requires DomainSplitAt(rest, k)
    ensures NormalizeHost(Some("www." + rest)) == Some(rest)
  {
    var s := "www." + rest;
    forall i | 0 <= i < |s|
      ensures HostChar(s[i])
    {
      if i >= 4 {
        assert s[i] == rest[i - 4];
      }
    }
    assert s[4..] == rest;
    CanonicalPassesThrough(s);
  }

  /** Lower-casing keeps the digit suffix. */
  lemma {:induction false} LowerTrailingDigits(s: string)
    ensures TrailingDigits(ToLower(s)) == TrailingDigits(s)
  {
    if s != [] {
      assert ToLower(s)[..|s| - 1] == ToLower(s[..|s| - 1]);
      LowerTrailingDigits(s[..|s| - 1]);
    }
  }

  /** Lower-casing commutes with stripping the port. */
  lemma LowerStripPort(s: string)
    ensures StripPort(ToLower(s)) == ToLower(StripPort(s))
  {
    LowerTrailingDigits(s);
    StripPortIsCut(s);
    StripPortIsCut(ToLower(s));
    LowerCutPort(s, TrailingDigits(s));
  }

  lemma LowerCutPort(s: string, d: nat)
    requires d <= |s|
    ensures CutPort(ToLower(s), d) == ToLower(CutPort(s, d))
  {
    if d >= 1 && d < |s| {
      var j := |s| - d - 1;
      LowerCharCases(s[j]);
      assert ToLower(s)[j] == LowerChar(s[j]);
      if s[j] == ':' {
        assert ToLower(s)[..j] == ToLower(s[..j]);
      }
    }
  }

  /** Normalising looks at the lower-cased text only. */
  lemma NormalizeLowered(s: string)
    ensures NormalizeHost(Some(ToLower(s))) == NormalizeHost(Some(s))
  {
    LowerFirstToken(s, ',');
    LowerTrim(FirstToken(s, ','));
    var first := Trim(FirstToken(s, ','));
    LowerStripPort(first);
    LowerIdempotent(StripPort(first));
  }

  /** Normalising is case-insensitive: texts that agree up to letter case normalise alike. */
  lemma CaseInsensitive(s: string, t: string)
    requires ToLower(s) == ToLower(t)
    ensures NormalizeHost(Some(s)) == NormalizeHost(Some(t))
  {
    NormalizeLowered(s);
    NormalizeLowered(t);
  }

  /** In particular, upper-casing the header changes nothing. */
  lemma UpperCaseIgnored(s: string)
    ensures NormalizeHost(Some(ToUpper(s))) == NormalizeHost(Some(s))
  {
    LowerIdempotent(s);
    CaseInsensitive(ToUpper(s), s);
  }

  /** Only the first comma-separated value counts: whatever follows the first comma is ignored. */
  lemma FirstValueOnly(a: string, b: string)
    requires ',' !in a
    ensures NormalizeHost(Some(a + "," + b)) == NormalizeHost(Some(a))
  {
    IndexOfJoined(a, b, ',');
    assert FirstToken(a + "," + b, ',') == a;
  }

  /** A trailing ":<digits>" port is dropped: a host with a port normalises like the host alone,
      for a host that does not end in a space or in a port of its own. */
  lemma PortIgnored(h: string, d: string)
    requires d != [] && AllDigits(d)
    requires ',' !in h
    requires h == [] || !IsSpace(h[|h| - 1])
    requires forall j | 0 <= j < |h| :: !PortAt(h, j)
    ensures NormalizeHost(Some(h + ":" + d)) == NormalizeHost(Some(h))
  {
    if h == [] {
      assert h + ":" + d == ":" + d;
      PortOnly(d);
    } else {
      PortValue(h, d);
    }
  }

  /** The first value of a host with a port is the host's first value with the port. */
  lemma PortValue(h: string, d: string)
    requires d != [] && AllDigits(d)
    requires ',' !in h
    requires h != [] && !IsSpace(h[|h| - 1])
    requires forall j | 0 <= j < |h| :: !PortAt(h, j)
    ensures FirstValue(h + ":" + d) == FirstValue(h) + ":" + d
    ensures FirstValue(h) != [] && StripPort(FirstValue(h) + ":" + d) == StripPort(FirstValue(h))
  {
    NoCommaWithPort(h, d);
    TrimWithPort(h, d);
    assert FirstValue(h) == TrimStart(h);
    StripPortOf(TrimStart(h), d);
    StripPortOfTrimmed(h);
  }

  lemma StripPortOfTrimmed(h: string)
    requires forall j | 0 <= j < |h| :: !PortAt(h, j)
    ensures StripPort(TrimStart(h)) == TrimStart(h)
  {
    var t := TrimStart(h);
    NoPortInSuffix(h, t, |h| - |t|);
  }

  /** A host without a comma keeps having none with a port added. */
  lemma NoCommaWithPort(h: string, d: string)
    requires AllDigits(d) && ',' !in h
    ensures FirstToken(h + ":" + d, ',') == h + ":" + d
  {
    var s := h + ":" + d;
    forall i | 0 <= i < |s| ensures s[i] != ',' {
      if i < |h| { assert s[i] == h[i]; } else if i > |h| { assert s[i] == d[i - |h| - 1]; }
    }
  }

  /** A bare ":<digits>" normalises to nothing. */
  lemma PortOnly(d: string)
    requires d != [] && AllDigits(d)
    ensures NormalizeHost(Some(":" + d)) == None
  {
    var s := ":" + d;
    assert FirstToken(s, ',') == s by {
      forall i | 0 <= i < |s| ensures s[i] != ',' {
        if i > 0 { assert s[i] == d[i - 1]; }
      }
    }
    assert Trim(s) == s by { TrimTrimmed(s); }
    assert StripPort(s) == "" by { assert PortAt(s, 0) by { assert s[1..] == d; } }
    assert Finish(ToLower("")) == None by {
      assert !StartsWith("", "www.");
      assert !LooksLikeHost("");
    }
  }

  /** Trimming a host with a port trims only the host's start. */
  lemma TrimWithPort(h: string, d: string)
    requires d != [] && AllDigits(d)
    requires h != [] && !IsSpace(h[|h| - 1])
    ensures Trim(h + ":" + d) == Trim(h) + ":" + d
    ensures Trim(h) != [] && Trim(h) == TrimStart(h)
  {
    assert !AllSpace(h) by { assert !IsSpace(h[|h| - 1]); }
    TrimStartAppend(h, ":");
    assert !AllSpace(h + ":") by { assert (h + ":")[|h|] == ':'; }
    TrimStartAppend(h + ":", d);
    var t := TrimStart(h);
    TrimStartKeepsEnd(h);
    TrimEndKeeps(t);
    EndsInDigit(t, d);
  }

  /** A host followed by a port ends in a digit, so trimming keeps its end. */
  lemma EndsInDigit(t: string, d: string)
    requires d != [] && AllDigits(d)
    ensures TrimEnd(t + ":" + d) == t + ":" + d
  {
    var y := t + ":" + d;
    assert y[|y| - 1] == d[|d| - 1];
    assert IsDigit(d[|d| - 1]);
    TrimEndKeeps(y);
  }

  lemma StripPortOf(t: string, d: string)
    requires d != [] && AllDigits(d)
    ensures StripPort(t + ":" + d) == t
  {
    assert PortAt(t + ":" + d, |t|) by { assert (t + ":" + d)[|t| + 1..] == d; }
  }

  /** A text without a port of its own has none in any suffix either. */
  lemma NoPortInSuffix(h: string, t: string, k: nat)
    requires k <= |h| && t == h[k..]
    requires forall j | 0 <= j < |h| :: !PortAt(h, j)
    ensures StripPort(t) == t
  {
    forall j | 0 <= j < |t|
      ensures !PortAt(t, j)
    {
      PortInSuffix(h, k, j);
    }
  }

  /** A port of a suffix is a port of the whole text, and back. */
  lemma PortInSuffix(h: string, k: nat, j: nat)
    requires k <= |h|
    ensures PortAt(h[k..], j) <==> PortAt(h, j + k)
  {
    var t := h[k..];
    if j < |t| - 1 {
      assert h[j + k] == t[j];
      assert h[j + k + 1..] == t[j + 1..];
    }
  }

  /** A worked case: "Shop.Example.COM:3000, x" normalises to "shop.example.com". */
  lemma NormalizeExample()
    ensures NormalizeHost(Some("Shop.Example.COM:3000, x")) == Some("shop.example.com")
  {
    var host, lower := "Shop.Example.COM", "shop.example.com";
    calc {
      NormalizeHost(Some("Shop.Example.COM:3000, x"));
      { assert "Shop.Example.COM:3000, x" == (host + ":" + "3000") + "," + " x";
        FirstValueOnly(host + ":" + "3000", " x"); }
      NormalizeHost(Some(host + ":" + "3000"));
      { ExampleHasNoPort(host); PortIgnored(host, "3000"); }
      NormalizeHost(Some(host));
      { CaseInsensitive(host, lower); }
      NormalizeHost(Some(lower));
      { ExampleIsCanonical(lower); }
      Some(lower);
    }
  }

  lemma ExampleHasNoPort(host: string)
    requires host == "Shop.Example.COM"
    ensures forall j | 0 <= j < |host| :: !PortAt(host, j)
  {
    forall j | 0 <= j < |host| ensures host[j] != ':' { }
  }

  lemma ExampleIsCanonical(lower: string)
    requires lower == "shop.example.com"
    ensures NormalizeHost(Some(lower)) == Some(lower)
  {
    assert lower == "shop.example" + "." + "com";
    assert forall j | 0 <= j < 12 :: HostChar(lower[j]);
    assert forall j | 12 < j < 16 :: LabelChar(lower[j]);
    assert DomainSplitAt(lower, 12);
    assert !StartsWith(lower, "www.") by { assert lower[0] != "www."[0]; }
    CanonicalPassesThrough(lower);
  }

  /** `getRequestHost` and `hostFrom`: a usable x-forwarded-host wins, otherwise host. */
  function HostFrom(h: Headers): (r: Option<string>)
    ensures NormalizeHost(HeaderOf(h, "x-forwarded-host")).Some? ==> r == NormalizeHost(HeaderOf(h, "x-forwarded-host"))
    ensures NormalizeHost(HeaderOf(h, "x-forwarded-host")).None? ==> r == NormalizeHost(HeaderOf(h, "host"))
    ensures r.Some? ==> LooksLikeHost(r.value)
  {
    var xfh := NormalizeHost(HeaderOf(h, "x-forwarded-host"));
    if xfh.Some? then xfh
    else
      var host := NormalizeHost(HeaderOf(h, "host"));
      if host.Some? then host else None
  }
}
