/** The in-memory fixed-window rate limiter: one bucket per key, holding the
    number of accepted calls in the current window and the instant (ms) the
    window ends. */
module RateLimit {
  import opened Common
  import opened Requests

  datatype Bucket = Bucket(count: int, resetAt: int)

  datatype RateStats = RateStats(ok: bool, limit: int, remaining: int, retryAfter: Option<int>, resetAt: int)

  function Max(a: int, b: int): int { if a >= b then a else b }
  function Min(a: int, b: int): int { if a <= b then a else b }

  /** `Math.ceil(a / b)` for a positive divisor. */
  function CeilDiv(a: int, b: int): (q: int)
    requires b > 0
    ensures b * (q - 1) < a <= b * q
  {
    -((-a) / b)
  }

  /** The bucket a call works on: the stored one while its window is live,
      otherwise a fresh one ending `windowMs` from now. */
  function Live(store: map<string, Bucket>, key: string, windowMs: int, now: int): (b: Bucket)
    ensures key in store && store[key].resetAt > now ==> b == store[key]
    ensures key !in store || store[key].resetAt <= now ==> b == Bucket(0, now + windowMs)
  {
    if key !in store || store[key].resetAt <= now then Bucket(0, now + windowMs) else store[key]
  }

  /** One `rateLimitFixedWindow` call: the answer and the new store. */
  function Hit(store: map<string, Bucket>, key: string, limit: int, windowMs: int, now: int)
    : (res: (RateStats, map<string, Bucket>))
    ensures key in res.1 && res.1.Keys == store.Keys + {key}
    ensures forall k | k in store && k != key :: res.1[k] == store[k]
    ensures res.0.limit == limit && res.0.resetAt == res.1[key].resetAt
    ensures res.1[key].resetAt == Live(store, key, windowMs, now).resetAt
    ensures res.0.ok <==> Live(store, key, windowMs, now).count < limit
    ensures res.0.ok ==> res.1[key].count == Live(store, key, windowMs, now).count + 1
    ensures res.0.ok ==> res.0.remaining == Max(0, limit - res.1[key].count) && res.0.retryAfter.None?
    ensures !res.0.ok ==> res.1[key] == Live(store, key, windowMs, now) && res.0.remaining == 0
    ensures !res.0.ok ==> res.0.retryAfter == Some(Max(1, CeilDiv(res.0.resetAt - now, 1000)))
  {
    var b := Live(store, key, windowMs, now);
    if b.count >= limit then
      (RateStats(false, limit, 0, Some(Max(1, CeilDiv(b.resetAt - now, 1000))), b.resetAt), store[key := b])
    else
      var b' := b.(count := b.count + 1);
      (RateStats(true, limit, Max(0, limit - b'.count), None, b'.resetAt), store[key := b'])
  }

  /** A live bucket's window end is never moved by calls inside the window, and a
      denied call inside it waits at least one second and at most until the window ends. */
  lemma LiveWindowKept(store: map<string, Bucket>, key: string, limit: int, windowMs: int, now: int)
    requires key in store && store[key].resetAt > now
    ensures Hit(store, key, limit, windowMs, now).1[key].resetAt == store[key].resetAt
    ensures var s := Hit(store, key, limit, windowMs, now).0;
      !s.ok ==> 1 <= s.retryAfter.value && (s.retryAfter.value - 1) * 1000 < store[key].resetAt - now
  {
  }

  /** A window that has passed starts again from zero. */
  lemma ExpiredWindowRestarts(store: map<string, Bucket>, key: string, limit: int, windowMs: int, now: int)
    requires key in store && store[key].resetAt <= now && limit > 0
    ensures Hit(store, key, limit, windowMs, now).0.ok
    ensures Hit(store, key, limit, windowMs, now).1[key] == Bucket(1, now + windowMs)
  {
  }

  /** The answers of successive calls for one key at the given instants, and the final store. */
  function Calls(store: map<string, Bucket>, key: string, limit: int, windowMs: int, times: seq<int>)
    : (res: (seq<bool>, map<string, Bucket>))
    ensures |res.0| == |times|
    decreases |times|
  {
    if times == [] then ([], store)
    else
      var (s, st) := Hit(store, key, limit, windowMs, times[0]);
      var (rest, fin) := Calls(st, key, limit, windowMs, times[1..]);
      ([s.ok] + rest, fin)
  }

  /** Inside one live window holding `c` accepted calls, call `i` succeeds iff `c + i < limit`. */
  lemma {:induction false} CallsInLiveWindow(store: map<string, Bucket>, key: string, limit: int, windowMs: int,
                                             times: seq<int>, c: int, resetAt: int)
    requires key in store && store[key] == Bucket(c, resetAt)
    requires 0 <= c <= Max(limit, 0)
    requires forall i | 0 <= i < |times| :: times[i] < resetAt
    ensures var (oks, fin) := Calls(store, key, limit, windowMs, times);
      (forall i | 0 <= i < |times| :: oks[i] <==> c + i < limit)
      && key in fin && fin[key] == Bucket(Min(c + |times|, Max(limit, c)), resetAt)
    decreases |times|
  {
    if times != [] {
      var (s, st) := Hit(store, key, limit, windowMs, times[0]);
      var c' := if c < limit then c + 1 else c;
      assert st[key] == Bucket(c', resetAt);
      CallsInLiveWindow(st, key, limit, windowMs, times[1..], c', resetAt);
      var (rest, fin) := Calls(st, key, limit, windowMs, times[1..]);
      assert Calls(store, key, limit, windowMs, times) == ([s.ok] + rest, fin);
      forall i | 1 <= i < |times|
        ensures ([s.ok] + rest)[i] <==> c + i < limit
      {
        assert ([s.ok] + rest)[i] == rest[i - 1];
      }
    }
  }

  /** Starting from no bucket or an expired one, within one window exactly the first
      `limit` calls succeed and every later one is denied. */
  lemma ExactlyLimitPerWindow(store: map<string, Bucket>, key: string, limit: int, windowMs: int, times: seq<int>)
    requires |times| >= 1
    requires key !in store || store[key].resetAt <= times[0]
    requires windowMs > 0
    requires forall i | 1 <= i < |times| :: times[i] < times[0] + windowMs
    ensures var oks := Calls(store, key, limit, windowMs, times).0;
      forall i | 0 <= i < |times| :: oks[i] <==> i < limit
  {
    var (s, st) := Hit(store, key, limit, windowMs, times[0]);
    var c := if 0 < limit then 1 else 0;
    assert st[key] == Bucket(c, times[0] + windowMs);
    CallsInLiveWindow(st, key, limit, windowMs, times[1..], c, times[0] + windowMs);
    var (rest, fin) := Calls(st, key, limit, windowMs, times[1..]);
    forall i | 1 <= i < |times|
      ensures ([s.ok] + rest)[i] <==> i < limit
    {
      assert ([s.ok] + rest)[i] == rest[i - 1];
    }
  }

  /** The limiter's module-level store. */
  class RateLimiter {
    var store: map<string, Bucket>

    constructor ()
      ensures store == map[]
    {
      store := map[];
    }

    method RateLimitFixedWindow(key: string, limit: int, windowMs: int, now: int) returns (stats: RateStats)
      modifies this
      ensures (stats, store) == Hit(old(store), key, limit, windowMs, now)
    {
      var b: Bucket;
      ghost var before := store;
      if key !in store || store[key].resetAt <= now {
        b := Bucket(0, now + windowMs);
        store := store[key := b];
      } else {
        b := store[key];
        assert store[key := b] == store;
      }
      if b.count >= limit {
        var retryAfterSec := Max(1, CeilDiv(b.resetAt - now, 1000));
        return RateStats(false, limit, 0, Some(retryAfterSec), b.resetAt);
      }
      assert b == Live(before, key, windowMs, now) && store == before[key := b];
      b := b.(count := b.count + 1);
      store := store[key := b];
      assert store == before[key := b];
      stats := RateStats(true, limit, Max(0, limit - b.count), None, b.resetAt);
    }
  }

  /** A part of a limiter key: a string, a number, or undefined/null. */
  datatype Part = Text(s: string) | Number(n: int) | Missing

  predicate PartTruthy(p: Part) {
    match p
    case Text(s) => s != ""
    case Number(n) => n != 0
    case Missing => false
  }

  function PartText(p: Part): string {
    match p
    case Text(s) => s
    case Number(n) => IntToString(n)
    case Missing => ""
  }

  /** The texts of the truthy parts, in order. */
  function KeptTexts(parts: seq<Part>): (r: seq<string>)
    ensures |r| <= |parts|
    ensures forall k | 0 <= k < |r| :: r[k] != ""
  {
    if parts == [] then []
    else if PartTruthy(parts[0]) then [PartText(parts[0])] + KeptTexts(parts[1..])
    else KeptTexts(parts[1..])
  }

  /** `keyOf`: the truthy parts joined with "|". */
  function KeyOf(parts: seq<Part>): (r: string)
    ensures r == "" <==> KeptTexts(parts) == []
  {
    var kept := KeptTexts(parts);
    JoinNonEmpty(kept, "|");
    Join(kept, "|")
  }

  /** When no kept part contains "|", the key splits back into exactly the kept parts. */
  lemma KeyOfSplits(parts: seq<Part>)
    requires KeptTexts(parts) != []
    requires forall k | 0 <= k < |KeptTexts(parts)| :: '|' !in KeptTexts(parts)[k]
    ensures Split(KeyOf(parts), '|') == KeptTexts(parts)
  {
    SplitJoin(KeptTexts(parts), '|');
  }

  lemma {:induction false} JoinNonEmpty(parts: seq<string>, sep: string)
    requires forall k | 0 <= k < |parts| :: parts[k] != ""
    ensures Join(parts, sep) == "" <==> parts == []
  {
    if |parts| > 1 {
      assert |Join(parts, sep)| >= |parts[0]|;
    }
  }

  /** `ipFromRequest`: the trimmed first x-forwarded-for entry, else x-real-ip, else loopback. */
  function IpFromRequest(h: Headers): (ip: string)
    ensures HasNonEmpty(h, "x-forwarded-for") ==>
      ip == Trim(Split(h["x-forwarded-for"], ',')[0]) && ',' !in ip
    ensures !HasNonEmpty(h, "x-forwarded-for") && HasNonEmpty(h, "x-real-ip") ==> ip == h["x-real-ip"]
    ensures !HasNonEmpty(h, "x-forwarded-for") && !HasNonEmpty(h, "x-real-ip") ==> ip == "127.0.0.1"
  {
    if HasNonEmpty(h, "x-forwarded-for") then
      var first := FirstToken(h["x-forwarded-for"], ',');
      var ip := Trim(first);
      assert ',' !in ip by {
        var i :| OccursAt(first, ip, i);
        assert forall j | 0 <= j < |ip| :: ip[j] == first[i + j];
      }
      ip
    else if HasNonEmpty(h, "x-real-ip") then h["x-real-ip"]
    else "127.0.0.1"
  }
}
