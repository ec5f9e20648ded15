/** The in-memory cache store: entries with an expiry, removed lazily or by key prefix. */
module Cache {
  import opened Wrappers

  datatype Entry<V> = Entry(value: V, expiresAt: int)

  predicate StartsWith(key: string, prefix: string) {
    |prefix| <= |key| && key[..|prefix|] == prefix
  }

  /** The entry a reader sees: one that has not expired. */
  function Live<V>(entries: map<string, Entry<V>>, key: string, now: int): Option<V> {
    if key in entries && entries[key].expiresAt > now then Some(entries[key].value) else None
  }

  /** What reading leaves behind: an expired entry is gone. */
  function AfterGet<V>(entries: map<string, Entry<V>>, key: string, now: int): map<string, Entry<V>> {
    if key in entries && entries[key].expiresAt <= now then entries - {key} else entries
  }

  function WithoutPrefix<V>(entries: map<string, Entry<V>>, prefix: string): map<string, Entry<V>> {
    map key | key in entries && !StartsWith(key, prefix) :: entries[key]
  }

  /** Reading never changes what any reader sees at that time or later. */
  lemma ReadingIsInvisible<V>(entries: map<string, Entry<V>>, key: string, now: int, other: string, later: int)
    requires now <= later
    ensures Live(AfterGet(entries, key, now), other, later) == Live(entries, other, later)
  {
  }

  /** A key that was read is kept only if it is live, and no other key is touched. */
  lemma ReadingCleansUp<V>(entries: map<string, Entry<V>>, key: string, now: int, other: string)
    ensures var after := AfterGet(entries, key, now);
            && (key in after <==> Live(entries, key, now).Some?)
            && (other in after ==> other in entries && after[other] == entries[other])
            && (other != key && other in entries ==> other in after)
  {
  }

  class InMemoryCacheStore<V(==)> {
    var entries: map<string, Entry<V>>

    constructor ()
      ensures entries == map[]
    {
      entries := map[];
    }

    method Get(key: string, now: int) returns (r: Option<V>)
      modifies this
      ensures r == Live(old(entries), key, now)
      ensures entries == AfterGet(old(entries), key, now)
    {
      if key !in entries {
        return None;
      }
      if entries[key].expiresAt <= now {
        entries := entries - {key};
        return None;
      }
      return Some(entries[key].value);
    }

    method Set(key: string, value: V, ttlMs: int, now: int)
      modifies this
      ensures entries == old(entries)[key := Entry(value, now + ttlMs)]
      ensures ttlMs > 0 ==> Live(entries, key, now) == Some(value)
    {
      entries := entries[key := Entry(value, now + ttlMs)];
    }

    /** Visits every key once, in any order. */
    method DeletePrefix(prefix: string)
      modifies this
      ensures entries == WithoutPrefix(old(entries), prefix)
    {
      var pending := entries.Keys;
      while pending != {}
        invariant entries.Keys <= old(entries).Keys
        invariant forall key :: key in entries ==> entries[key] == old(entries)[key]
        invariant forall key :: key in old(entries) && !StartsWith(key, prefix) ==> key in entries
        invariant pending <= entries.Keys
        invariant forall key :: key in entries && key !in pending ==> !StartsWith(key, prefix)
        decreases |pending|
      {
        var key :| key in pending;
        if StartsWith(key, prefix) {
          entries := entries - {key};
        }
        pending := pending - {key};
      }
    }

    method Clear()
      modifies this
      ensures entries == map[]
    {
      entries := map[];
    }
  }
}
