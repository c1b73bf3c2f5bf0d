// The gateway's in-memory response cache: entries carry an expiry instant,
// an entry read strictly after its expiry is removed and reads as absent.
// Instants are integers counted in nanoseconds; the clock is a parameter.
module Cache {
  import opened Wrappers

  const NANOS_PER_SECOND: int := 1_000_000_000

  /** A cached payload (None for a null payload) and its expiry instant. */
  datatype Entry = Entry(payload: Option<string>, expiresAt: int)

  type Store = map<string, Entry>

  /** `now.plusSeconds(ttlSeconds)`. */
  function Expiry(now: int, ttlSeconds: int): (t: int)
    ensures ttlSeconds >= 0 ==> t >= now
  {
    now + ttlSeconds * NANOS_PER_SECOND
  }

  /** The store after `put`: the key maps to the new entry, nothing else moves. */
  function AfterPut(m: Store, key: string, payload: Option<string>, ttlSeconds: int, now: int): (r: Store)
    ensures key in r && r[key] == Entry(payload, Expiry(now, ttlSeconds))
    ensures forall k :: k != key ==> (k in r <==> k in m) && (k in m ==> r[k] == m[k])
  {
    m[key := Entry(payload, Expiry(now, ttlSeconds))]
  }

  /** What `get` returns at instant `now`. */
  function Lookup(m: Store, key: string, now: int): Option<string>
  {
    if key !in m || now > m[key].expiresAt then None else m[key].payload
  }

  /** The store after `get`: an expired entry is dropped. */
  function AfterGet(m: Store, key: string, now: int): (r: Store)
    ensures key in m && now > m[key].expiresAt ==> key !in r
    ensures forall k :: k != key ==> (k in r <==> k in m) && (k in m ==> r[k] == m[k])
    ensures key in m && now <= m[key].expiresAt ==> r == m
  {
    if key in m && now > m[key].expiresAt then m - {key} else m
  }

  function AfterEvict(m: Store, key: string): (r: Store)
    ensures key !in r
    ensures forall k :: k != key ==> (k in r <==> k in m) && (k in m ==> r[k] == m[k])
  {
    m - {key}
  }

  lemma GetNeverPut(m: Store, key: string, now: int)
    requires key !in m
    ensures Lookup(m, key, now) == None && AfterGet(m, key, now) == m
  {
  }

  /** A put followed by a get at any instant up to the expiry returns the payload. */
  lemma PutThenGet(m: Store, key: string, payload: Option<string>, ttlSeconds: int, now: int, later: int)
    requires later <= Expiry(now, ttlSeconds)
    ensures Lookup(AfterPut(m, key, payload, ttlSeconds, now), key, later) == payload
  {
  }

  /** Strictly after the expiry the get is empty and the entry is gone. */
  lemma PutThenExpire(m: Store, key: string, payload: Option<string>, ttlSeconds: int, now: int, later: int)
    requires later > Expiry(now, ttlSeconds)
    ensures Lookup(AfterPut(m, key, payload, ttlSeconds, now), key, later) == None
    ensures key !in AfterGet(AfterPut(m, key, payload, ttlSeconds, now), key, later)
  {
  }

  /** A second put replaces both payload and expiry. */
  lemma PutReplaces(m: Store, key: string, p1: Option<string>, t1: int, n1: int, p2: Option<string>, t2: int, n2: int)
    ensures AfterPut(AfterPut(m, key, p1, t1, n1), key, p2, t2, n2) == AfterPut(m, key, p2, t2, n2)
  {
  }

  lemma EvictThenGet(m: Store, key: string, now: int)
    ensures Lookup(AfterEvict(m, key), key, now) == None
  {
  }

  class CacheService {
    var entries: Store

    constructor ()
      ensures entries == map[]
    {
      entries := map[];
    }

    method Put(key: string, payload: Option<string>, ttlSeconds: int, now: int)
      modifies this
      ensures entries == AfterPut(old(entries), key, payload, ttlSeconds, now)
    {
      entries := entries[key := Entry(payload, now + ttlSeconds * NANOS_PER_SECOND)];
    }

    method Get(key: string, now: int) returns (r: Option<string>)
      modifies this
      ensures r == Lookup(old(entries), key, now)
      ensures entries == AfterGet(old(entries), key, now)
    {
      if key !in entries {
        return None;
      }
      var e := entries[key];
      if now > e.expiresAt {
        entries := entries - {key};
        return None;
      }
      r := e.payload;
    }

    method Evict(key: string)
      modifies this
      ensures entries == AfterEvict(old(entries), key)
    {
      entries := entries - {key};
    }
  }
}
