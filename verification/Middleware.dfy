/**
  The middleware object with its own LRU in front of the shared table. A request that is not
  interleaved with others does what Sequential.ServeAlone says, which the protocol's steps refine.
 */
module Middleware {
  import opened Common
  import Lru
  import InMemoryCache
  import RequestCache
  import Sequential

  class Middleware {
    const cache: InMemoryCache.InMemoryCache
    const repo: RequestCache.Repository
    const ttl: int

    ghost predicate Valid()
      reads this, cache, cache.repr, repo
    {
      cache.Valid() && repo !in cache.repr
    }

    constructor (repo: RequestCache.Repository, ttl: int, maxCacheEntries: int)
      ensures Valid() && cache.contents == [] && cache.maxSize == maxCacheEntries
      ensures this.repo == repo && this.ttl == ttl && fresh(cache) && fresh(cache.repr)
    {
      this.repo, this.ttl := repo, ttl;
      cache := new InMemoryCache.InMemoryCache(maxCacheEntries);
    }

    /** LRU first; on a miss the table, whose live row is put back into the LRU. */
    method GetCachedByKey(key: CacheKey, now: int) returns (value: Option<CacheValue>)
      requires Valid()
      modifies cache.repr
      ensures Valid() && fresh(cache.repr - old(cache.repr)) && repo.Table() == old(repo.Table())
      ensures value ==
              match Lru.Lookup(old(cache.contents), key)
              case Some(v) => Some(v)
              case None =>
                var t := repo.Table();
                if key in t && now < t[key].expiresAt then Some(CacheValue(t[key].payload, t[key].createdAt)) else None
      ensures cache.contents ==
              if Lru.Lookup(old(cache.contents), key).None? && value.Some?
              then Lru.AfterSet(old(cache.contents), cache.maxSize, key, value.value)
              else Lru.AfterGet(old(cache.contents), key)
    {
      value := cache.Get(key);
      if value.Some? {
        return;
      }
      var row := repo.Get(key, now);
      if row.None? {
        return None;
      }
      value := Some(CacheValue(row.value.payload, row.value.createdAt));
      cache.Set(key, value.value);
    }

    /** One request under its lock; `outcome` is what the handler would return. */
    method Serve(key: CacheKey, now: int, outcome: Option<Payload>) returns (answer: Option<Payload>, ran: bool)
      requires Valid()
      requires outcome.Some? ==> outcome.value.contentType != ""   // the recorder has defaulted it
      modifies repo, cache.repr
      ensures Valid() && fresh(cache.repr - old(cache.repr))
      ensures Sequential.Served(cache.contents, repo.Table(), answer, ran) ==
              Sequential.ServeAlone(cache.maxSize, ttl, now, old(cache.contents), old(repo.Table()), key, outcome)
    {
      var hit := GetCachedByKey(key, now);
      if hit.Some? {
        return Some(hit.value.payload), false;
      }
      if outcome.None? {
        return None, true;
      }
      cache.Set(key, CacheValue(outcome.value, now));
      repo.Create(key, outcome.value, now, now + ttl);
      return outcome, true;
    }

    /** Drop LRU entries older than ttl and expired rows. */
    method CleanupOld(now: int)
      requires Valid()
      modifies repo, cache.repr
      ensures Valid() && fresh(cache.repr - old(cache.repr))
      ensures cache.contents == Lru.Survivors(old(cache.contents), now - ttl)
      ensures repo.Table() == map k | k in old(repo.Table()) && old(repo.Table())[k].expiresAt >= now :: old(repo.Table())[k]
    {
      cache.DeleteOld(now - ttl);
      repo.DeleteExpired(now);
    }
  }
}
