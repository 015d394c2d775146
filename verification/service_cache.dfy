/**
 The per-type service cache (`OnvifServiceCache`): one entry per service
 type with the time it was stored. A lookup is served from the cache while the
 entry is younger than the time-to-live; otherwise the type is resolved afresh
 and a non-null result replaces the entry.
 */
module ServiceCache {
  import opened Outcomes
  import opened Clock
  import opened ServiceSelector

  datatype Entry<V> = Entry(service: V, createdAt: int)

  /** The cache; times and the time-to-live are in DateTime ticks. */
  datatype Cache<K, V> = Cache(ttl: int, entries: map<K, Entry<V>>)

  /** The outcome of `GetServiceAsync`: the new cache, the returned service, and the
      constructions attempted (none on a hit). */
  datatype Lookup<K, V> = Lookup(cache: Cache<K, V>, service: Option<V>, resolved: bool, attempts: seq<Attempt>)

  /** The constructor: an empty cache whose time-to-live defaults to ten minutes. */
  function NewCache<K, V>(ttl: Option<int>): (c: Cache<K, V>)
    ensures c.entries == map[]
    ensures ttl.None? ==> c.ttl == 6_000_000_000
    ensures ttl.Some? ==> c.ttl == ttl.value
  {
    Cache(if ttl.Some? then ttl.value else 10 * TicksPerMinute, map[])
  }

  /** The entry for `key` exists and, at time `now`, is strictly younger than the time-to-live. */
  predicate IsFresh<K, V>(c: Cache<K, V>, key: K, now: int)
  {
    key in c.entries && now - c.entries[key].createdAt < c.ttl
  }

  /** `GetServiceAsync<T>` for the type `key`. `now` is the clock read for the freshness
      test; `storedAt` is the clock read again, after resolution, for the new entry. */
  function GetService<K(!new), V>(c: Cache<K, V>, key: K, now: int, storedAt: int,
                            candidates: seq<string>, services: map<string, string>,
                            create: (string, string) -> Construction<V>): (r: Lookup<K, V>)
    ensures r.cache.ttl == c.ttl
    ensures !r.resolved <==> IsFresh(c, key, now)
    ensures !r.resolved ==> r.cache == c && r.attempts == [] && r.service == Some(c.entries[key].service)
    ensures r.resolved ==> r.service == TryCreateService(candidates, services, create).service
    ensures r.resolved ==> r.attempts == TryCreateService(candidates, services, create).attempts
    ensures r.service.None? ==> r.cache == c
    ensures r.resolved && r.service.Some? ==>
      r.cache.entries == c.entries[key := Entry(r.service.value, storedAt)]
    ensures forall k :: k != key ==> (k in r.cache.entries <==> k in c.entries)
    ensures forall k :: k != key && k in c.entries ==> r.cache.entries[k] == c.entries[k]
  {
    if IsFresh(c, key, now) then
      Lookup(c, Some(c.entries[key].service), false, [])
    else
      var resolution := TryCreateService(candidates, services, create);
      match resolution.service
      case Some(s) => Lookup(c.(entries := c.entries[key := Entry(s, storedAt)]), Some(s), true, resolution.attempts)
      case None => Lookup(c, None, true, resolution.attempts)
  }

  /** `Invalidate<T>`: only the entry for `key` is removed. */
  function Invalidate<K(!new), V>(c: Cache<K, V>, key: K): (r: Cache<K, V>)
    ensures r.ttl == c.ttl
    ensures key !in r.entries
    ensures forall k :: k != key ==> (k in r.entries <==> k in c.entries)
    ensures forall k :: k != key && k in c.entries ==> r.entries[k] == c.entries[k]
  {
    c.(entries := c.entries - {key})
  }

  /** `Clear`: every entry is removed. */
  function Clear<K, V>(c: Cache<K, V>): (r: Cache<K, V>)
    ensures r.ttl == c.ttl && |r.entries| == 0
  {
    c.(entries := map[])
  }

  /** A service stored by a resolving lookup is returned, without resolving, by every lookup
      for the same type made before the time-to-live has elapsed since it was stored. */
  lemma HitWithinTtl<K(!new), V>(c: Cache<K, V>, key: K, now: int, storedAt: int,
                           candidates: seq<string>, services: map<string, string>,
                           create: (string, string) -> Construction<V>,
                           later: int, laterStoredAt: int, candidates': seq<string>,
                           services': map<string, string>, create': (string, string) -> Construction<V>)
    requires !IsFresh(c, key, now)
    requires TryCreateService(candidates, services, create).service.Some?
    requires later - storedAt < c.ttl
    ensures var first := GetService(c, key, now, storedAt, candidates, services, create);
      var second := GetService(first.cache, key, later, laterStoredAt, candidates', services', create');
      !second.resolved && second.service == first.service && second.cache == first.cache
  {
  }

  /** An entry exactly `ttl` old is stale: the lookup resolves afresh. */
  lemma StaleAtTtl<K(!new), V>(c: Cache<K, V>, key: K, storedAt: int, storedAt': int,
                         candidates: seq<string>, services: map<string, string>,
                         create: (string, string) -> Construction<V>)
    requires key in c.entries && c.entries[key].createdAt == storedAt
    ensures GetService(c, key, storedAt + c.ttl, storedAt', candidates, services, create).resolved
  {
  }

  /** After `Invalidate` for a type, the next lookup for it resolves afresh and cannot return
      the removed entry unless resolution builds it again. */
  lemma InvalidateForcesResolution<K(!new), V>(c: Cache<K, V>, key: K, now: int, storedAt: int,
                                         candidates: seq<string>, services: map<string, string>,
                                         create: (string, string) -> Construction<V>)
    ensures var r := GetService(Invalidate(c, key), key, now, storedAt, candidates, services, create);
      r.resolved && r.service == TryCreateService(candidates, services, create).service
  {
  }

  /** After `Clear`, every lookup resolves afresh. */
  lemma ClearForcesResolution<K(!new), V>(c: Cache<K, V>, key: K, now: int, storedAt: int,
                                    candidates: seq<string>, services: map<string, string>,
                                    create: (string, string) -> Construction<V>)
    ensures GetService(Clear(c), key, now, storedAt, candidates, services, create).resolved
  {
  }
}
