/** The download cache as an object whose methods change its table. */
module DownloadCache {
  import opened Basics
  import opened LruCache
  import opened LruStack

  /** The cache object. SQLite runs each method as one transaction. */
  class Cache {
    const sizeLimit: nat
    var entries: Table

    ghost predicate Valid()
      reads this
    {
      Good(entries)
    }

    constructor (sizeLimit: nat)
      ensures Valid() && this.sizeLimit == sizeLimit && entries == []
    {
      this.sizeLimit := sizeLimit;
      entries := [];
    }

    method Lookup(key: Key, now: real) returns (hit: Option<Bytes>)
      requires Valid()
      modifies this
      ensures Valid() && (entries, hit) == Get(old(entries), key, now)
    {
      OpsKeepGood(sizeLimit, entries, key, [], Forever, now);
      entries := Filter(entries, NotStale(key, now));
      var row := Find(entries, key);
      if row.None? {
        return None;
      }
      entries := Touch(entries, key, NextStamp(entries));
      hit := Some(row.value.value);
    }

    /** Raises, changing nothing, when the time to live is not finite. */
    method Store(key: Key, value: Bytes, ttl: Ttl, now: real) returns (ok: bool)
      requires Valid()
      modifies this
      ensures Valid() && ok == !ttl.NotFinite?
      ensures entries == OnTable(sizeLimit, old(entries), SetOp(key, value, ttl, now))
    {
      if ttl.NotFinite? {
        return false;
      }
      OpsKeepGood(sizeLimit, entries, key, value, ttl, now);
      hide Good, ByRecency, OverBudget, NextStamp, Filter;
      entries := Filter(entries, OtherAndFresh(key, now));
      var size := |key| + |value|;
      if size <= sizeLimit && (ttl.Forever? || ttl.value > 0.0) {
        entries := Filter(entries, NotIn(OverBudget(ByRecency(entries), 0, sizeLimit - size)));
        entries := entries + [Row(key, value, ExpiryAt(ttl, now), NextStamp(entries))];
      }
      ok := true;
    }

    method Remove(key: Key)
      requires Valid()
      modifies this
      ensures Valid() && entries == Delete(old(entries), key)
    {
      OpsKeepGood(sizeLimit, entries, key, [], Forever, 0.0);
      entries := Filter(entries, OtherKey(key));
    }

    method Clear()
      modifies this
      ensures Valid() && entries == []
    {
      entries := [];
    }

    /** Cached bytes of `key`, or the backend's, which are then stored. */
    method ReadThrough(key: Key, content: Content, now: real) returns (value: Bytes, hit: bool)
      requires Valid()
      modifies this
      ensures Valid() && (entries, value, hit) == GetOrFetch(sizeLimit, old(entries), key, content, Forever, now)
    {
      var found := Lookup(key, now);
      if found.Some? {
        return found.value, true;
      }
      found := Lookup(key, now);
      if found.Some? {
        return found.value, true;
      }
      value, hit := content(key), false;
      var stored := Store(key, value, Forever, now);
    }
  }
}
