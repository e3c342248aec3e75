/** Double-submit CSRF protection: a random token is issued both as a readable
    cookie and in a JSON body; state-changing requests must echo it in a header. */
module Csrf {
  import opened Common
  import opened Requests

  /** CSRF_COOKIE_NAME ?? "csrf_token" and (CSRF_HEADER_NAME ?? "x-csrf-token") lower-cased:
      an empty but set variable is kept. */
  datatype CsrfNames = CsrfNames(cookieName: string, headerName: string)

  function CsrfNamesFrom(cookieEnv: Option<string>, headerEnv: Option<string>): (n: CsrfNames)
    ensures n.cookieName == if cookieEnv.Some? then cookieEnv.value else "csrf_token"
    ensures n.headerName == ToLower(if headerEnv.Some? then headerEnv.value else "x-csrf-token")
  {
    CsrfNames(if cookieEnv.Some? then cookieEnv.value else "csrf_token",
              ToLower(if headerEnv.Some? then headerEnv.value else "x-csrf-token"))
  }

  type byte = x: int | 0 <= x < 256

  predicate IsLowerHex(c: char) {
    '0' <= c <= '9' || 'a' <= c <= 'f'
  }

  /** The lower-case hexadecimal digit of `k`. */
  function Digit(k: nat): (c: char)
    requires k < 16
    ensures IsLowerHex(c)
  {
    if k < 10 then ('0' as int + k) as char else ('a' as int + k - 10) as char
  }

  /** The value of a lower-case hexadecimal digit. */
  function HexValue(c: char): (v: nat)
    requires IsLowerHex(c)
    ensures v < 16 && Digit(v) == c
  {
    if '0' <= c <= '9' then c as int - '0' as int else c as int - 'a' as int + 10
  }

  lemma DigitValue(k: nat)
    requires k < 16
    ensures HexValue(Digit(k)) == k
  {
  }

  /** `b.toString(16).padStart(2, "0")`. */
  function ByteHex(b: byte): (h: string)
    ensures |h| == 2 && h[0] == Digit(b / 16) && h[1] == Digit(b % 16)
  {
    [Digit(b / 16), Digit(b % 16)]
  }

  /** The concatenated two-digit renderings of `buf`. */
  function Hex(buf: seq<byte>): (s: string)
    ensures |s| == 2 * |buf|
    ensures forall i | 0 <= i < |s| :: IsLowerHex(s[i])
  {
    if buf == [] then "" else Hex(buf[..|buf| - 1]) + ByteHex(buf[|buf| - 1])
  }

  /** Reading a hex string back into bytes. */
  function Unhex(s: string): (buf: seq<byte>)
    requires |s| % 2 == 0 && forall i | 0 <= i < |s| :: IsLowerHex(s[i])
    ensures |buf| == |s| / 2
  {
    if s == [] then []
    else Unhex(s[..|s| - 2]) + [HexValue(s[|s| - 2]) * 16 + HexValue(s[|s| - 1])]
  }

  /** The rendering loses nothing: the bytes can be read back. */
  lemma {:induction false} UnhexHex(buf: seq<byte>)
    ensures Unhex(Hex(buf)) == buf
  {
    if buf != [] {
      var init := buf[..|buf| - 1];
      var b := buf[|buf| - 1];
      var s := Hex(buf);
      assert s == Hex(init) + ByteHex(b);
      assert s[..|s| - 2] == Hex(init);
      UnhexHex(init);
      DigitValue(b / 16);
      DigitValue(b % 16);
      assert HexValue(s[|s| - 2]) * 16 + HexValue(s[|s| - 1]) == b;
      assert buf == init + [b];
    }
  }

  /** `randomHex`: `buf` stands for the bytes `crypto.getRandomValues` fills in. */
  method RandomHex(buf: seq<byte>) returns (out: string)
    ensures out == Hex(buf)
    ensures |out| == 2 * |buf|
  {
    out := "";
    var i := 0;
    while i < |buf|
      invariant 0 <= i <= |buf|
      invariant out == Hex(buf[..i])
    {
      assert buf[..i + 1][..i] == buf[..i];
      out := out + ByteHex(buf[i]);
      i := i + 1;
    }
    assert buf[..|buf|] == buf;
  }

  /** `generateCsrfToken`: 64 lower-case hex characters from 32 random bytes. */
  method GenerateCsrfToken(buf: seq<byte>) returns (token: string)
    requires |buf| == 32
    ensures |token| == 64 && forall i | 0 <= i < |token| :: IsLowerHex(token[i])
    ensures Unhex(token) == buf
  {
    token := RandomHex(buf);
    UnhexHex(buf);
  }

  /** Bitwise XOR of two non-negative integers, bit by bit from the lowest. */
  function Xor(x: nat, y: nat): nat
    decreases x + y
  {
    if x == 0 && y == 0 then 0 else 2 * Xor(x / 2, y / 2) + (x % 2 + y % 2) % 2
  }

  /** Bitwise OR of two non-negative integers. */
  function Or(x: nat, y: nat): nat
    decreases x + y
  {
    if x == 0 && y == 0 then 0 else 2 * Or(x / 2, y / 2) + (if x % 2 == 1 || y % 2 == 1 then 1 else 0)
  }

  /** The XOR of two codes is zero exactly when the codes are equal. */
  lemma {:induction false} XorZeroIffSame(x: nat, y: nat)
    ensures Xor(x, y) == 0 <==> x == y
    decreases x + y
  {
    if !(x == 0 && y == 0) {
      XorZeroIffSame(x / 2, y / 2);
    }
  }

  /** An OR is zero exactly when both operands are. */
  lemma {:induction false} OrZero(x: nat, y: nat)
    ensures Or(x, y) == 0 <==> x == 0 && y == 0
    decreases x + y
  {
    if !(x == 0 && y == 0) {
      OrZero(x / 2, y / 2);
    }
  }

  /** `timingSafeEqual`: OR-accumulates the XOR of every pair of character codes, with no
      early exit once the lengths agree; `visited` counts the positions compared. */
  method TimingSafeEqual(a: string, b: string) returns (eq: bool, ghost visited: nat)
    ensures eq <==> a == b
    ensures |a| == |b| ==> visited == |a|
  {
    if |a| != |b| {
      return false, 0;
    }
    var diff: nat := 0;
    var i := 0;
    visited := 0;
    while i < |a|
      invariant 0 <= i <= |a|
      invariant visited == i
      invariant diff == 0 <==> forall j | 0 <= j < i :: a[j] == b[j]
    {
      XorZeroIffSame(a[i] as int, b[i] as int);
      OrZero(diff, Xor(a[i] as int, b[i] as int));
      diff := Or(diff, Xor(a[i] as int, b[i] as int));
      visited := visited + 1;
      i := i + 1;
    }
    eq := diff == 0;
  }

  /** `getCsrfCookieFromRequest`: the parsed cookie, when present. */
  function CsrfCookie(cookies: map<string, string>, names: CsrfNames): Option<string> {
    if names.cookieName in cookies then Some(cookies[names.cookieName]) else None
  }

  /** `getCsrfHeaderFromRequest`: a missing or blank header counts as absent; otherwise the
      header is answered untrimmed. */
  function CsrfHeader(h: Headers, names: CsrfNames): (r: Option<string>)
    ensures r.Some? <==> names.headerName in h && !AllSpace(h[names.headerName])
    ensures r.Some? ==> r.value == h[names.headerName]
  {
    var v := HeaderOf(h, names.headerName);
    if v.Some? && Trim(v.value) != "" then v else None
  }

  /** `verifyDoubleSubmit`, whatever the method. */
  function VerifyDoubleSubmit(cookies: map<string, string>, h: Headers, names: CsrfNames): (r: Check)
    ensures r.Pass? <==>
      CsrfCookie(cookies, names).Some? && CsrfCookie(cookies, names).value != ""
      && CsrfHeader(h, names) == CsrfCookie(cookies, names)
    ensures r == Deny("CSRF token missing") <==>
      CsrfCookie(cookies, names).None? || CsrfCookie(cookies, names).value == "" || CsrfHeader(h, names).None?
    ensures r.Deny? ==> r.error in {"CSRF token missing", "CSRF token mismatch"}
  {
    var cookieToken := CsrfCookie(cookies, names);
    var headerToken := CsrfHeader(h, names);
    if cookieToken.None? || cookieToken.value == "" || headerToken.None? then Deny("CSRF token missing")
    else if cookieToken.value != headerToken.value then Deny("CSRF token mismatch")
    else Pass
  }

  /** The attributes `setCsrfCookie` writes. */
  datatype CookieWrite = CookieWrite(name: string, value: string, httpOnly: bool, sameSite: string,
                                     secure: bool, path: string, maxAgeSeconds: int)

  /** `issueCsrfTokenResponse`: the token in the body and in a script-readable cookie. */
  function IssueCsrfToken(token: string, names: CsrfNames, isProduction: bool): (r: (string, CookieWrite))
    ensures r.0 == token && r.1.value == token && r.1.name == names.cookieName
    ensures !r.1.httpOnly && r.1.secure == isProduction && r.1.maxAgeSeconds == 60 * 60
  {
    (token, CookieWrite(names.cookieName, token, false, "lax", isProduction, "/", 60 * 60))
  }

  /** A client that sends back the issued cookie and echoes the token in the header passes. */
  lemma IssuedTokenVerifies(buf: seq<byte>, names: CsrfNames, isProduction: bool, h: Headers)
    requires |buf| >= 1
    ensures var issued := IssueCsrfToken(Hex(buf), names, isProduction);
      VerifyDoubleSubmit(map[issued.1.name := issued.1.value], h[names.headerName := issued.0], names) == Pass
  {
    var t := Hex(buf);
    var h' := h[names.headerName := t];
    assert IsLowerHex(t[0]) && !IsSpace(t[0]);
    assert CsrfCookie(map[names.cookieName := t], names) == Some(t);
    assert CsrfHeader(h', names) == Some(t);
  }
}
