/** The per-process TTL cache: a map in insertion order whose entries expire
    `ttlMs` after they are set, with naive oldest-first eviction when a size
    bound is configured. */
module TtlCaches {
  import opened Common

  datatype Entry<V> = Entry(v: V, exp: int)

  /** `s` without `k`, order kept. */
  function Without<K(==)>(s: seq<K>, k: K): (r: seq<K>)
    ensures forall x | x in r :: x in s && x != k
    ensures forall x | x in s && x != k :: x in r
    ensures Distinct(s) ==> Distinct(r)
    ensures k !in s ==> r == s
    ensures |r| <= |s|
  {
    if s == [] then []
    else if s[0] == k then Without(s[1..], k)
    else
      var rest := Without(s[1..], k);
      assert Distinct(s) ==> s[0] !in s[1..] && s[0] !in rest;
      [s[0]] + rest
  }

  class TtlCache<K(==), V> {
    /** Keys in insertion order (the iteration order of the underlying Map). */
    var order: seq<K>
    var entries: map<K, Entry<V>>
    const ttlMs: int
    /** The configured size bound; 0 when absent (a falsy `maxSize` disables eviction). */
    const maxSize: nat

    ghost predicate Valid()
      reads this
    {
      Distinct(order)
      && (forall k | k in order :: k in entries)
      && (forall k | k in entries :: k in order)
      && (maxSize > 0 ==> |order| <= maxSize)
    }

    constructor (ttlMs: int, maxSize: nat)
      ensures Valid()
      ensures order == [] && entries == map[]
      ensures this.ttlMs == ttlMs && this.maxSize == maxSize
    {
      this.ttlMs := ttlMs;
      this.maxSize := maxSize;
      order := [];
      entries := map[];
    }

    /** `get`: a live entry's value; an expired entry is removed and reads as undefined. */
    method Get(key: K, now: int) returns (r: Option<V>)
      requires Valid()
      modifies this
      ensures Valid()
      ensures key !in old(entries) ==> r.None? && order == old(order) && entries == old(entries)
      ensures key in old(entries) && now > old(entries)[key].exp ==>
        r.None? && entries == old(entries) - {key} && order == Without(old(order), key)
      ensures key in old(entries) && now <= old(entries)[key].exp ==>
        r == Some(old(entries)[key].v) && order == old(order) && entries == old(entries)
    {
      if key !in entries {
        return None;
      }
      var e := entries[key];
      if now > e.exp {
        entries := entries - {key};
        order := Without(order, key);
        return None;
      }
      r := Some(e.v);
    }

    /** `set`: with a bound reached, first evict the oldest key (even the one being set),
        then store `val` expiring `ttlMs` from now; an existing key keeps its position. */
    method Set(key: K, val: V, now: int)
      requires Valid()
      modifies this
      ensures Valid()
      ensures key in entries && entries[key] == Entry(val, now + ttlMs)
      ensures var evict := maxSize > 0 && |old(order)| >= maxSize && old(order) != [];
        var kept := if evict then old(order)[1..] else old(order);
        var before := if evict then old(entries) - {old(order)[0]} else old(entries);
        order == (if key in kept then kept else kept + [key])
        && entries == before[key := Entry(val, now + ttlMs)]
    {
      ghost var kept := order;
      if maxSize > 0 && |order| >= maxSize && order != [] {
        var first := order[0];
        entries := entries - {first};
        order := order[1..];
        kept := order;
      }
      if key !in order {
        order := order + [key];
      }
      entries := entries[key := Entry(val, now + ttlMs)];
      assert maxSize > 0 ==> |order| <= maxSize by {
        if maxSize > 0 && key !in kept {
          assert |kept| < maxSize;
        }
      }
    }

    /** `delete`: removes only `key`. */
    method Delete(key: K)
      requires Valid()
      modifies this
      ensures Valid()
      ensures entries == old(entries) - {key} && order == Without(old(order), key)
    {
      entries := entries - {key};
      order := Without(order, key);
    }

    /** `clear`. */
    method Clear()
      requires Valid()
      modifies this
      ensures Valid()
      ensures entries == map[] && order == []
    {
      entries := map[];
      order := [];
    }
  }

  /** Once an entry has expired it is never served again: reading it twice at the same instant
      or later gives undefined both times and removes it. */
  method ExpiredStaysGone<V>(c: TtlCache<string, V>, key: string, now: int, later: int)
    requires c.Valid() && key in c.entries && now > c.entries[key].exp && later >= now
    modifies c
    ensures key !in c.entries
  {
    var first := c.Get(key, now);
    var second := c.Get(key, later);
    assert first.None? && second.None?;
  }
}
