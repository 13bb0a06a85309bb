/**
 * The in-process TTL cache of the API (backend/app/utils/cache.py).  An entry
 * is a value with the time it was stored; a read is a hit while the entry is
 * younger than the time-to-live, and a read of an expired entry deletes it.
 * The clock (`time.time()`) is a parameter of every operation that reads it.
 */
module TtlCache {
  import opened Wrappers

  /** A stored value and the clock reading at which it was stored. */
  datatype Entry<V> = Entry(value: V, storedAt: real)

  /** Seconds of life of the statistics cache. */
  const StatsTtl: int := 600

  /** Seconds of life of the project-list cache. */
  const ProjectsTtl: int := 300

  /** The entry of `key` is present and still alive at clock reading `now`. */
  predicate Alive<V>(entries: map<string, Entry<V>>, key: string, now: real, ttl: int) {
    key in entries && now - entries[key].storedAt < ttl as real
  }

  /** What `get` answers. */
  function Lookup<V>(entries: map<string, Entry<V>>, key: string, now: real, ttl: int): Option<V> {
    if Alive(entries, key, now, ttl) then Some(entries[key].value) else None
  }

  /** The entries after `get`: an expired entry of `key` is gone, nothing else changes. */
  function AfterLookup<V>(entries: map<string, Entry<V>>, key: string, now: real, ttl: int): map<string, Entry<V>> {
    if key in entries && !Alive(entries, key, now, ttl) then entries - {key} else entries
  }

  class SimpleCache<V> {
    var entries: map<string, Entry<V>>
    const ttl: int

    /** `SimpleCache(ttl_seconds)`: an empty cache. */
    constructor(ttlSeconds: int)
      ensures entries == map[] && ttl == ttlSeconds
    {
      entries := map[];
      ttl := ttlSeconds;
    }

    /** `get(key)` at clock reading `now`. */
    method Get(key: string, now: real) returns (r: Option<V>)
      modifies this
      ensures r == Lookup(old(entries), key, now, ttl)
      ensures r.Some? <==> key in old(entries) && now - old(entries)[key].storedAt < ttl as real
      ensures r.Some? ==> r.value == old(entries)[key].value
      ensures entries == AfterLookup(old(entries), key, now, ttl)
      ensures key in old(entries) && r.None? ==> entries == old(entries) - {key}
      ensures r.Some? || key !in old(entries) ==> entries == old(entries)
    {
      if key in entries {
        var e := entries[key];
        if now - e.storedAt < ttl as real {
          return Some(e.value);
        } else {
          entries := entries - {key};
        }
      }
      return None;
    }

    /** `set(key, value)` at clock reading `now`. */
    method Set(key: string, value: V, now: real)
      modifies this
      ensures entries == old(entries)[key := Entry(value, now)]
    {
      entries := entries[key := Entry(value, now)];
    }

    /** `clear()`. */
    method Clear()
      modifies this
      ensures entries == map[]
    {
      entries := map[];
    }
  }

  /** `stats_cache`: ten minutes. */
  method NewStatsCache<V>() returns (c: SimpleCache<V>)
    ensures fresh(c) && c.entries == map[] && c.ttl == 600
  {
    c := new SimpleCache(StatsTtl);
  }

  /** `projects_cache`: five minutes. */
  method NewProjectsCache<V>() returns (c: SimpleCache<V>)
    ensures fresh(c) && c.entries == map[] && c.ttl == 300
  {
    c := new SimpleCache(ProjectsTtl);
  }

  // ---------------------------------------------------------------------------
  // Properties
  // ---------------------------------------------------------------------------

  /** A read after a write of the same key gives the written value while it is alive, and nothing after. */
  lemma ReadYourWrite<V>(entries: map<string, Entry<V>>, key: string, value: V, setAt: real, now: real, ttl: int)
    ensures Lookup(entries[key := Entry(value, setAt)], key, now, ttl) ==
      if now - setAt < ttl as real then Some(value) else None
  {
  }

  /** A write leaves what every other key reads unchanged. */
  lemma WriteOtherKey<V>(entries: map<string, Entry<V>>, key: string, other: string, value: V, setAt: real, now: real, ttl: int)
    requires other != key
    ensures Lookup(entries[key := Entry(value, setAt)], other, now, ttl) == Lookup(entries, other, now, ttl)
    ensures AfterLookup(entries[key := Entry(value, setAt)], other, now, ttl) ==
      AfterLookup(entries, other, now, ttl)[key := Entry(value, setAt)]
  {
    var e' := entries[key := Entry(value, setAt)];
    if other in entries && !Alive(entries, other, now, ttl) {
      assert e' - {other} == (entries - {other})[key := Entry(value, setAt)];
    }
  }

  /** A read never changes what any read of the same key answers at the same time. */
  lemma LookupIdempotent<V>(entries: map<string, Entry<V>>, key: string, now: real, ttl: int)
    ensures Lookup(AfterLookup(entries, key, now, ttl), key, now, ttl) == Lookup(entries, key, now, ttl)
    ensures AfterLookup(AfterLookup(entries, key, now, ttl), key, now, ttl) == AfterLookup(entries, key, now, ttl)
  {
  }

  /** A read only deletes the key it reads, and only when that entry has expired. */
  lemma LookupKeepsOthers<V>(entries: map<string, Entry<V>>, key: string, other: string, now: real, ttl: int)
    requires other != key
    ensures other in AfterLookup(entries, key, now, ttl) <==> other in entries
    ensures other in entries ==> AfterLookup(entries, key, now, ttl)[other] == entries[other]
  {
  }

  /** Expiry is permanent: an entry dead at one time is dead at every later time. */
  lemma ExpiredStaysExpired<V>(entries: map<string, Entry<V>>, key: string, now: real, later: real, ttl: int)
    requires now <= later && Lookup(entries, key, now, ttl).None?
    ensures Lookup(entries, key, later, ttl).None?
    ensures Lookup(AfterLookup(entries, key, now, ttl), key, later, ttl).None?
  {
  }
}
