/** URL helpers: joining path segments, adding query parameters to a path or URL,
    and building an absolute URL on the canonical origin. */
module Urls {
  import opened Common
  import opened Requests
  import opened Canonical

  // ---------------------------------------------------------------- joinPath

  /** `s.replace(/^\/+/, "")`. */
  function StripLeading(s: string): (r: string)
    ensures |r| <= |s| && r == s[|s| - |r|..]
    ensures forall i | 0 <= i < |s| - |r| :: s[i] == '/'
    ensures r == [] || r[0] != '/'
  {
    if s != [] && s[0] == '/' then StripLeading(s[1..]) else s
  }

  /** `s.replace(/\/+$/, "")`. */
  function StripTrailing(s: string): (r: string)
    ensures |r| <= |s| && r == s[..|r|]
    ensures forall i | |r| <= i < |s| :: s[i] == '/'
    ensures r == [] || r[|r| - 1] != '/'
  {
    if s != [] && s[|s| - 1] == '/' then StripTrailing(s[..|s| - 1]) else s
  }

  /** `s.replace(/(^\/+|\/+$)/g, "")`: the text between the leading and the trailing run
      of slashes. */
  function StripSlashes(s: string): (r: string)
    ensures r == [] || (r[0] != '/' && r[|r| - 1] != '/')
    ensures exists i :: OccursAt(s, r, i)
    ensures (forall i | 0 <= i < |s| :: s[i] == '/') ==> r == []
    ensures s == [] || (s[0] != '/' && s[|s| - 1] != '/') ==> r == s
  {
    var t := StripLeading(s);
    var r := StripTrailing(t);
    assert OccursAt(s, r, |s| - |t|);
    r
  }

  /** The segments `joinPath` keeps: `filter(Boolean)` drops null, undefined and "", then
      each kept part loses its leading and trailing slashes. */
  function Segments(parts: seq<Option<string>>): (r: seq<string>)
    ensures |r| <= |parts|
    ensures forall k | 0 <= k < |r| :: r[k] == [] || (r[k][0] != '/' && r[k][|r[k]| - 1] != '/')
  {
    if parts == [] then []
    else (if parts[0].Some? && parts[0].value != "" then [StripSlashes(parts[0].value)] else []) + Segments(parts[1..])
  }

  /** `joinPath(...parts)`. */
  function JoinPath(parts: seq<Option<string>>): (r: string)
    ensures r != [] && r[0] == '/'
  {
    "/" + Join(Segments(parts), "/")
  }

  lemma {:induction false} SegmentsAppend(a: seq<Option<string>>, b: seq<Option<string>>)
    ensures Segments(a + b) == Segments(a) + Segments(b)
  {
    if a != [] {
      assert (a + b)[0] == a[0] && (a + b)[1..] == a[1..] + b;
      SegmentsAppend(a[1..], b);
      var head := if a[0].Some? && a[0].value != "" then [StripSlashes(a[0].value)] else [];
      assert Segments(a + b) == head + Segments(a[1..] + b);
      assert Segments(a) == head + Segments(a[1..]);
    } else {
      assert a + b == b;
    }
  }

  /** With nothing worth keeping, the path is the root. */
  lemma {:induction false} JoinPathOfNothing(parts: seq<Option<string>>)
    requires forall k | 0 <= k < |parts| :: parts[k].None? || parts[k].value == ""
    ensures Segments(parts) == [] && JoinPath(parts) == "/"
  {
    if parts != [] {
      JoinPathOfNothing(parts[1..]);
    }
  }

  /** A part made only of slashes is kept, as an empty segment. */
  lemma SlashOnlyPartIsEmptySegment(before: seq<Option<string>>, slashes: string, after: seq<Option<string>>)
    requires slashes != [] && forall i | 0 <= i < |slashes| :: slashes[i] == '/'
    ensures Segments(before + [Some(slashes)] + after) == Segments(before) + [""] + Segments(after)
  {
    SegmentsAppend(before + [Some(slashes)], after);
    SegmentsAppend(before, [Some(slashes)]);
  }

  /** The kept parts, when none of them holds a slash, are the segments themselves, and
      the joined path splits back into them. */
  lemma {:induction false} SegmentsOfPlainParts(parts: seq<Option<string>>)
    requires forall k | 0 <= k < |parts| :: parts[k].Some? ==> '/' !in parts[k].value
    ensures Segments(parts) == Kept(parts)
  {
    if parts != [] {
      SegmentsOfPlainParts(parts[1..]);
    }
  }

  /** The non-empty strings among the parts. */
  function Kept(parts: seq<Option<string>>): seq<string> {
    if parts == [] then []
    else (if parts[0].Some? && parts[0].value != "" then [parts[0].value] else []) + Kept(parts[1..])
  }

  lemma {:induction false} KeptHasNoSlash(parts: seq<Option<string>>)
    requires forall k | 0 <= k < |parts| :: parts[k].Some? ==> '/' !in parts[k].value
    ensures forall k | 0 <= k < |Kept(parts)| :: '/' !in Kept(parts)[k]
  {
    if parts != [] {
      KeptHasNoSlash(parts[1..]);
    }
  }

  /** `joinPath` is undone by splitting on '/': each non-empty part is one segment. */
  lemma JoinPathSplits(parts: seq<Option<string>>)
    requires forall k | 0 <= k < |parts| :: parts[k].Some? ==> '/' !in parts[k].value
    requires Kept(parts) != []
    ensures Split(JoinPath(parts)[1..], '/') == Kept(parts)
  {
    SegmentsOfPlainParts(parts);
    KeptHasNoSlash(parts);
    assert JoinPath(parts)[1..] == Join(Kept(parts), "/");
    SplitJoin(Kept(parts), '/');
  }

  // --------------------------------------------------------------- withQuery

  /** A value of the query record. */
  datatype QueryValue = QStr(s: string) | QNum(n: int) | QBool(b: bool) | QUndefined | QNull

  /** `String(v)` for a value that is neither undefined nor null. */
  function Stringify(v: QueryValue): string
    requires !v.QUndefined? && !v.QNull?
  {
    match v
    case QStr(s) => s
    case QNum(n) => IntToString(n)
    case QBool(b) => if b then "true" else "false"
  }

  /** The pairs named `name`, in order. */
  function Only(q: seq<(string, string)>, name: string): (r: seq<(string, string)>)
    ensures forall i | 0 <= i < |r| :: r[i].0 == name
    ensures |r| <= |q|
  {
    if q == [] then [] else (if q[0].0 == name then [q[0]] else []) + Only(q[1..], name)
  }

  /** `searchParams.get(name)` reads only the pairs with that name. */
  lemma {:induction false} SearchParamOnly(q: seq<(string, string)>, name: string)
    ensures SearchParam(q, name) == SearchParam(Only(q, name), name)
  {
    if q != [] && q[0].0 != name {
      SearchParamOnly(q[1..], name);
    }
  }

  /** The first pair named `k` takes the value `v`; later pairs named `k` are removed. */
  function SetFirst(q: seq<(string, string)>, k: string, v: string): (r: seq<(string, string)>)
    ensures forall n | n != k :: Only(r, n) == Only(q, n)
    ensures Only(q, k) != [] ==> Only(r, k) == [(k, v)]
    ensures Only(q, k) == [] ==> r == q
  {
    if q == [] then []
    else if q[0].0 == k then [(k, v)] + Without(q[1..], k)
    else OnlyCons(q[0], SetFirst(q[1..], k, v)); [q[0]] + SetFirst(q[1..], k, v)
  }

  /** The pairs not named `k`. */
  function Without(q: seq<(string, string)>, k: string): (r: seq<(string, string)>)
    ensures forall n | n != k :: Only(r, n) == Only(q, n)
    ensures Only(r, k) == []
  {
    if q == [] then []
    else if q[0].0 == k then Without(q[1..], k)
    else OnlyCons(q[0], Without(q[1..], k)); [q[0]] + Without(q[1..], k)
  }

  lemma OnlyCons(p: (string, string), q: seq<(string, string)>)
    ensures forall n :: Only([p] + q, n) == (if p.0 == n then [p] else []) + Only(q, n)
  {
    assert ([p] + q)[1..] == q;
  }

  /** `searchParams.set(k, v)`: afterwards exactly one pair is named `k` and it holds `v`;
      every other name keeps its pairs, in order. */
  function SetParam(q: seq<(string, string)>, k: string, v: string): (r: seq<(string, string)>)
    ensures Only(r, k) == [(k, v)]
    ensures forall n | n != k :: Only(r, n) == Only(q, n)
  {
    if Only(q, k) != [] then SetFirst(q, k, v)
    else OnlyAppend(q, (k, v)); q + [(k, v)]
  }

  lemma {:induction false} OnlyAppend(q: seq<(string, string)>, p: (string, string))
    ensures forall n :: Only(q + [p], n) == Only(q, n) + (if p.0 == n then [p] else [])
  {
    if q != [] {
      assert (q + [p])[1..] == q[1..] + [p];
      OnlyAppend(q[1..], p);
    }
  }

  /** The query after `forEach` has visited every entry: null and undefined values are
      skipped, the others are set in order. */
  function ApplyAll(q: seq<(string, string)>, entries: seq<(string, QueryValue)>): seq<(string, string)>
    decreases |entries|
  {
    if entries == [] then q
    else
      var e := entries[|entries| - 1];
      var q' := ApplyAll(q, entries[..|entries| - 1]);
      if e.1.QUndefined? || e.1.QNull? then q' else SetParam(q', e.0, Stringify(e.1))
  }

  /** The names of the entries that are set. */
  predicate SetsName(entries: seq<(string, QueryValue)>, n: string) {
    exists i | 0 <= i < |entries| :: entries[i].0 == n && !entries[i].1.QUndefined? && !entries[i].1.QNull?
  }

  /** What `withQuery`'s loop achieves, for a record (whose keys are distinct): every
      entry with a value ends as the one pair of its name. */
  lemma {:induction false} ApplyAllSets(q: seq<(string, string)>, entries: seq<(string, QueryValue)>, i: nat)
    requires forall i, j | 0 <= i < j < |entries| :: entries[i].0 != entries[j].0
    requires i < |entries| && !entries[i].1.QUndefined? && !entries[i].1.QNull?
    ensures Only(ApplyAll(q, entries), entries[i].0) == [(entries[i].0, Stringify(entries[i].1))]
  {
    var last := |entries| - 1;
    if i < last {
      var init := entries[..last];
      assert init[i] == entries[i];
      ApplyAllSets(q, init, i);
      assert entries[last].0 != entries[i].0;
    }
  }

  /** The pairs of every name that no entry sets are untouched. */
  lemma {:induction false} ApplyAllKeeps(q: seq<(string, string)>, entries: seq<(string, QueryValue)>, n: string)
    requires !SetsName(entries, n)
    ensures Only(ApplyAll(q, entries), n) == Only(q, n)
  {
    if entries != [] {
      var init := entries[..|entries| - 1];
      ApplyAllKeeps(q, init, n);
    }
  }

  /** The pairs the entries with a value contribute, in order. */
  function SetPairs(entries: seq<(string, QueryValue)>): (r: seq<(string, string)>)
    ensures forall j | 0 <= j < |r| :: exists i | 0 <= i < |entries| :: r[j].0 == entries[i].0
  {
    if entries == [] then []
    else
      var e := entries[|entries| - 1];
      var init := SetPairs(entries[..|entries| - 1]);
      if e.1.QUndefined? || e.1.QNull? then init
      else
        var r := init + [(e.0, Stringify(e.1))];
        assert forall j | 0 <= j < |init| :: exists i | 0 <= i < |entries| - 1 :: init[j].0 == entries[i].0;
        assert forall i | 0 <= i < |entries| - 1 :: entries[..|entries| - 1][i] == entries[i];
        r
  }

  lemma {:induction false} OnlyConcat(a: seq<(string, string)>, b: seq<(string, string)>, n: string)
    ensures Only(a + b, n) == Only(a, n) + Only(b, n)
  {
    if a == [] {
      assert a + b == b;
    } else {
      assert (a + b)[0] == a[0] && (a + b)[1..] == a[1..] + b;
      OnlyConcat(a[1..], b, n);
    }
  }

  lemma {:induction false} OnlyAbsent(q: seq<(string, string)>, n: string)
    requires forall j | 0 <= j < |q| :: q[j].0 != n
    ensures Only(q, n) == []
  {
    if q != [] {
      OnlyAbsent(q[1..], n);
    }
  }

  /** On a query that holds none of the record's names, the set entries are appended in
      the record's order: `?q=shoes&limit=25&flag=false` for `{ q: "shoes", limit: 25,
      skip: undefined, flag: false }`. */
  lemma {:induction false} ApplyAllAppends(q: seq<(string, string)>, entries: seq<(string, QueryValue)>)
    requires forall i, j | 0 <= i < j < |entries| :: entries[i].0 != entries[j].0
    requires forall i | 0 <= i < |entries| :: Only(q, entries[i].0) == []
    ensures ApplyAll(q, entries) == q + SetPairs(entries)
  {
    if entries != [] {
      var init := entries[..|entries| - 1];
      var e := entries[|entries| - 1];
      assert forall i | 0 <= i < |init| :: init[i] == entries[i];
      ApplyAllAppends(q, init);
      if !e.1.QUndefined? && !e.1.QNull? {
        var pairs := SetPairs(init);
        forall j | 0 <= j < |pairs| ensures pairs[j].0 != e.0 {
          var i :| 0 <= i < |init| && pairs[j].0 == init[i].0;
        }
        OnlyAbsent(pairs, e.0);
        OnlyConcat(q, pairs, e.0);
        assert q + pairs + [(e.0, Stringify(e.1))] == q + (pairs + [(e.0, Stringify(e.1))]);
      }
    }
  }

  /** A set parameter is what `searchParams.get` then reads. */
  lemma SetEntryIsRead(q: seq<(string, string)>, entries: seq<(string, QueryValue)>, i: nat)
    requires forall i, j | 0 <= i < j < |entries| :: entries[i].0 != entries[j].0
    requires i < |entries| && !entries[i].1.QUndefined? && !entries[i].1.QNull?
    ensures SearchParam(ApplyAll(q, entries), entries[i].0) == Some(Stringify(entries[i].1))
  {
    ApplyAllSets(q, entries, i);
    SearchParamOnly(ApplyAll(q, entries), entries[i].0);
  }

  /** `URLSearchParams.toString()`, without percent-encoding. */
  function Serialize(q: seq<(string, string)>): string {
    Join(Pieces(q), "&")
  }

  function Pieces(q: seq<(string, string)>): (r: seq<string>)
    ensures |r| == |q|
    ensures forall i | 0 <= i < |q| :: r[i] == q[i].0 + "=" + q[i].1
  {
    if q == [] then [] else [q[0].0 + "=" + q[0].1] + Pieces(q[1..])
  }

  /** `url.search`: "" for no pairs, else '?' and the serialised pairs. */
  function Search(q: seq<(string, string)>): (r: string)
    ensures q == [] <==> r == ""
    ensures r != "" ==> r[0] == '?'
  {
    if q == [] then "" else "?" + Serialize(q)
  }

  /** A pair whose text needs no escaping. */
  predicate Plain(p: (string, string)) {
    '&' !in p.0 && '=' !in p.0 && '&' !in p.1
  }

  lemma {:induction false} PairsOfPieces(q: seq<(string, string)>)
    requires forall i | 0 <= i < |q| :: Plain(q[i])
    ensures Pairs(Pieces(q)) == q
  {
    if q != [] {
      var p := q[0].0 + "=" + q[0].1;
      assert p == q[0].0 + ['='] + q[0].1;
      IndexOfJoined(q[0].0, q[0].1, '=');
      assert p[..|q[0].0|] == q[0].0 && p[|q[0].0| + 1..] == q[0].1;
      assert Pieces(q)[1..] == Pieces(q[1..]);
      PairsOfPieces(q[1..]);
    }
  }

  /** The serialised query reads back as the same pairs. */
  lemma SearchRoundTrip(q: seq<(string, string)>)
    requires q != [] && forall i | 0 <= i < |q| :: Plain(q[i])
    ensures ParseQuery(Search(q)[1..]) == q
  {
    var pieces := Pieces(q);
    forall k | 0 <= k < |pieces| ensures '&' !in pieces[k] {
      assert pieces[k] == q[k].0 + "=" + q[k].1;
    }
    SplitJoin(pieces, '&');
    PairsOfPieces(q);
  }

  /** `url.toString()`, without a fragment. */
  function Href(u: Url): string {
    u.protocol + "//" + u.host + u.pathname + Search(u.query)
  }

  /** `new URL(rel, base)` for a reference without scheme or authority: the path is taken
      as absolute (a relative one is placed under the root), then the query. */
  function ResolvePath(base: Url, rel: string): (u: Url)
    ensures u.protocol == base.protocol && u.host == base.host
    ensures u.pathname != [] && u.pathname[0] == '/'
  {
    var noFrag := rel[..IndexOf(rel, '#')];
    var q := IndexOf(noFrag, '?');
    var path := noFrag[..q];
    var query := if q < |noFrag| then ParseQuery(noFrag[q + 1..]) else [];
    Url(base.protocol, base.host, if path == [] then "/" else if path[0] == '/' then path else "/" + path, query)
  }

  /** `new URL(rel, base)`: a reference starting with "//" names its own authority. */
  function Resolve(base: Url, rel: string): Option<Url> {
    if StartsWith(rel, "//") then ParseUrl(base.protocol + rel) else Some(ResolvePath(base, rel))
  }

  /** The URL `withQuery` works on: absolute input when it starts with "http", else the
      input resolved against "http://local". `None` where the constructor would throw. */
  function WithQueryBase(urlOrPath: string): Option<Url> {
    if StartsWith(urlOrPath, "http") then ParseUrl(urlOrPath)
    else Resolve(Url("http:", "local", "/", []), urlOrPath)
  }

  /** The `forEach` of `withQuery` and `absoluteUrl`: each entry with a value is set on
      the query, in order. */
  method SetEntries(q0: seq<(string, string)>, entries: seq<(string, QueryValue)>) returns (q: seq<(string, string)>)
    ensures q == ApplyAll(q0, entries)
  {
    q := q0;
    var i := 0;
    while i < |entries|
      invariant 0 <= i <= |entries|
      invariant q == ApplyAll(q0, entries[..i])
    {
      assert entries[..i + 1][..i] == entries[..i];
      var (k, v) := entries[i];
      if !v.QUndefined? && !v.QNull? {
        q := SetParam(q, k, Stringify(v));
      }
      i := i + 1;
    }
    assert entries[..|entries|] == entries;
  }

  /** `withQuery(urlOrPath, q)`: `None` where the URL constructor throws. */
  method WithQuery(urlOrPath: string, entries: seq<(string, QueryValue)>) returns (r: Option<string>)
    ensures r.None? <==> WithQueryBase(urlOrPath).None?
    ensures r.Some? && StartsWith(urlOrPath, "http") ==>
      r.value == Href(WithQueryBase(urlOrPath).value.(query := ApplyAll(WithQueryBase(urlOrPath).value.query, entries)))
    ensures r.Some? && !StartsWith(urlOrPath, "http") ==>
      r.value == WithQueryBase(urlOrPath).value.pathname + Search(ApplyAll(WithQueryBase(urlOrPath).value.query, entries))
  {
    var base := WithQueryBase(urlOrPath);
    if base.None? {
      return None;
    }
    var q := SetEntries(base.value.query, entries);
    var u := base.value.(query := q);
    if StartsWith(urlOrPath, "http") {
      r := Some(Href(u));
    } else {
      r := Some(u.pathname + Search(u.query));
    }
  }

  /** A plain path without a query keeps its path and gains exactly the set entries. */
  lemma WithQueryOnPlainPath(path: string)
    requires path != [] && path[0] == '/' && !StartsWith(path, "//")
    requires '?' !in path && '#' !in path
    ensures WithQueryBase(path) == Some(Url("http:", "local", path, []))
  {
    assert !StartsWith(path, "http");
    assert IndexOf(path, '#') == |path|;
    assert path[..|path|] == path;
  }

  // ------------------------------------------------------------- absoluteUrl

  /** `path.startsWith("/") ? path : "/" + path`. */
  function Rooted(path: string): (r: string)
    ensures r != [] && r[0] == '/'
    ensures StartsWith(path, "/") ==> r == path
  {
    if StartsWith(path, "/") then path else "/" + path
  }

  /** `absoluteUrl(h, path, q)`: `None` where a URL constructor throws; `entries` is
      `None` when no query record is given. */
  method AbsoluteUrl(env: CanonEnv, h: Headers, path: string, entries: Option<seq<(string, QueryValue)>>)
    returns (r: Option<string>)
    ensures CanonicalFrom(env, h).None? ==> r.None?
    ensures CanonicalFrom(env, h).Some? ==>
      var u := Resolve(CanonicalFrom(env, h).value, Rooted(path));
      (r.None? <==> u.None?)
      && (r.Some? ==> r.value == Href(if entries.Some? then u.value.(query := ApplyAll(u.value.query, entries.value)) else u.value))
  {
    var origin := CanonicalFrom(env, h);
    if origin.None? {
      return None;
    }
    var u := Resolve(origin.value, Rooted(path));
    if u.None? {
      return None;
    }
    var url := u.value;
    if entries.Some? {
      var q := SetEntries(url.query, entries.value);
      url := url.(query := q);
    }
    r := Some(Href(url));
  }

  /** A path that does not start with "//" stays on the canonical origin. */
  lemma AbsoluteUrlOnCanonicalOrigin(env: CanonEnv, h: Headers, path: string)
    requires CanonicalFrom(env, h).Some?
    requires !StartsWith(Rooted(path), "//")
    ensures var u := Resolve(CanonicalFrom(env, h).value, Rooted(path));
      u.Some? && OriginOf(u.value) == OriginOf(CanonicalFrom(env, h).value)
  {
  }
}
