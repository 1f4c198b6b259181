/** The time-to-live cache of fetched entity lists. Entries carry the time
    they were stored; a lookup that finds an entry older than the TTL drops
    it and misses. The clock `Date.now()` is the explicit `now` argument. */
module Cache {
  import opened Wrappers
  import opened Entities

  /** The TTL, in milliseconds, when none (or zero) is given. */
  const DefaultTtl: int := 5000

  datatype CacheEntry = CacheEntry(data: seq<Entity>, timestamp: int)

  /** The outcome of `get`: the data found, if any, and the entries after
      the lookup (an expired entry is deleted). */
  datatype Lookup = Lookup(result: Option<seq<Entity>>, entries: map<string, CacheEntry>)

  /** The TTL the constructor settles on: any truthy argument, else the default. */
  function InitialTtl(ttl: Option<int>): (t: int)
    ensures ttl.Some? && ttl.value != 0 ==> t == ttl.value
    ensures ttl.None? || ttl.value == 0 ==> t == DefaultTtl
  {
    if ttl.Some? && ttl.value != 0 then ttl.value else DefaultTtl
  }

  /** `set`: store `data` under `key`, stamped with `now`. */
  function Store(entries: map<string, CacheEntry>, key: string, data: seq<Entity>, now: int)
    : map<string, CacheEntry>
  {
    entries[key := CacheEntry(data, now)]
  }

  /** `get`: a miss for an absent key; for a present one, a miss that deletes
      it when its age exceeds the TTL, the data otherwise. */
  function Get(entries: map<string, CacheEntry>, ttl: int, key: string, now: int): Lookup {
    if key !in entries then Lookup(None, entries)
    else if now - entries[key].timestamp > ttl then Lookup(None, entries - {key})
    else Lookup(Some(entries[key].data), entries)
  }

  /** A lookup never adds entries, removes at most the looked-up key, and
      only when it misses; a hit changes nothing. */
  lemma GetOnlyEvicts(entries: map<string, CacheEntry>, ttl: int, key: string, now: int)
    ensures var g := Get(entries, ttl, key, now);
      && g.entries.Keys <= entries.Keys
      && (forall k :: k in g.entries ==> g.entries[k] == entries[k])
      && entries.Keys - g.entries.Keys <= {key}
      && (g.result.Some? ==> g.entries == entries)
      && (key !in entries ==> g.result.None? && g.entries == entries)
  {
  }

  /** Expiry is strict: an entry exactly `ttl` old is still served, one a
      millisecond older is gone. */
  lemma ExpiryBoundary(entries: map<string, CacheEntry>, ttl: int, key: string)
    requires key in entries
    ensures Get(entries, ttl, key, entries[key].timestamp + ttl).result == Some(entries[key].data)
    ensures Get(entries, ttl, key, entries[key].timestamp + ttl + 1) == Lookup(None, entries - {key})
  {
  }

  /** Reading back at the time of writing returns what was written, for any
      non-negative TTL. */
  lemma GetAfterSet(entries: map<string, CacheEntry>, ttl: int, key: string, data: seq<Entity>, now: int)
    requires ttl >= 0
    ensures Get(Store(entries, key, data, now), ttl, key, now).result == Some(data)
  {
  }

  /** Storing or evicting one key leaves every other key's lookup as it was. */
  lemma OtherKeysUnaffected(entries: map<string, CacheEntry>, ttl: int, key: string, other: string,
                            data: seq<Entity>, now: int, later: int)
    requires other != key
    ensures Get(Store(entries, key, data, now), ttl, other, later).result == Get(entries, ttl, other, later).result
    ensures Get(Get(entries, ttl, key, now).entries, ttl, other, later).result == Get(entries, ttl, other, later).result
  {
  }

  /** Storing again refreshes the lifetime: the new data is served for the
      next `ttl` milliseconds, however old the previous entry was. */
  lemma SetRefreshes(entries: map<string, CacheEntry>, ttl: int, key: string, data: seq<Entity>,
                     now: int, later: int)
    requires now <= later <= now + ttl
    ensures Get(Store(entries, key, data, now), ttl, key, later).result == Some(data)
  {
  }

  /** The TTL is read at lookup time, so changing it re-judges entries that
      are already stored: whether an entry is served depends only on its age
      and the TTL in force at the lookup. */
  lemma TtlAppliesAtLookup(entries: map<string, CacheEntry>, ttl: int, key: string, now: int)
    requires key in entries
    ensures Get(entries, ttl, key, now).result.Some? <==> now - entries[key].timestamp <= ttl
  {
  }

  /** A cleared cache misses on every key. */
  lemma ClearedMisses(ttl: int, key: string, now: int)
    ensures Get(map[], ttl, key, now) == Lookup(None, map[])
  {
  }

  class EntityCache {
    var entries: map<string, CacheEntry>
    var ttl: int

    constructor (ttl: Option<int>)
      ensures entries == map[] && this.ttl == InitialTtl(ttl)
    {
      entries := map[];
      this.ttl := DefaultTtl;
      if ttl.Some? && ttl.value != 0 {
        this.ttl := ttl.value;
      }
    }

    method Set(key: string, data: seq<Entity>, now: int)
      modifies this`entries
      ensures entries == Store(old(entries), key, data, now)
    {
      entries := entries[key := CacheEntry(data, now)];
    }

    method GetData(key: string, now: int) returns (r: Option<seq<Entity>>)
      modifies this`entries
      ensures Lookup(r, entries) == Get(old(entries), ttl, key, now)
    {
      if key !in entries {
        return None;
      }
      var cached := entries[key];
      var age := now - cached.timestamp;
      if age > ttl {
        entries := entries - {key};
        return None;
      }
      return Some(cached.data);
    }

    method Clear()
      modifies this`entries
      ensures entries == map[]
    {
      entries := map[];
    }

    method SetTtl(ttl: int)
      modifies this`ttl
      ensures this.ttl == ttl
    {
      this.ttl := ttl;
    }
  }
}
