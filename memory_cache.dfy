/**
 The in-process fallback cache: a dict that `set` overwrites and `get` reads.
 The expiry time passed to `set` is accepted and ignored, so entries never
 expire.
 */
module MemoryCache {
  import opened Wrappers

  class MemoryCache<K(==), V> {
    /** The stored entries. */
    var cache: map<K, V>

    /** A new cache holds no entry. */
    constructor ()
      ensures cache == map[]
    {
      cache := map[];
    }

    /** Stores `value` under `key`, replacing any earlier value; `time` has no effect. */
    method Set(key: K, value: V, time: int := 0)
      modifies this
      ensures cache == old(cache)[key := value]
    {
      cache := cache[key := value];
    }

    /** The value stored under `key`, or `None` when there is none; never fails, changes nothing. */
    method Get(key: K) returns (r: Option<V>)
      ensures r.Some? <==> key in cache
      ensures r.Some? ==> r.value == cache[key]
    {
      if key in cache {
        r := Some(cache[key]);
      } else {
        r := None;
      }
    }
  }

  /** A fresh cache misses every key. */
  method FreshCacheMisses<K(==), V>(key: K) returns (r: Option<V>)
    ensures r == None
  {
    var c := new MemoryCache<K, V>();
    r := c.Get(key);
  }

  /** `get` right after `set` returns the value set. */
  method GetAfterSet<K(==), V>(c: MemoryCache<K, V>, key: K, value: V, time: int) returns (r: Option<V>)
    modifies c
    ensures r == Some(value)
  {
    c.Set(key, value, time);
    r := c.Get(key);
  }

  /** `set` on one key leaves what `get` returns for every other key as it was. */
  method SetLeavesOtherKeys<K(==), V>(c: MemoryCache<K, V>, key: K, value: V, time: int, other: K)
    returns (before: Option<V>, after: Option<V>)
    requires other != key
    modifies c
    ensures before == after
  {
    before := c.Get(other);
    c.Set(key, value, time);
    after := c.Get(other);
  }

  /** A second `set` on the same key overwrites the first. */
  method LastWriteWins<K(==), V>(key: K, first: V, t1: int, second: V, t2: int) returns (r: Option<V>)
    ensures r == Some(second)
  {
    var c := new MemoryCache<K, V>();
    c.Set(key, first, t1);
    c.Set(key, second, t2);
    r := c.Get(key);
  }

  /** The expiry time makes no difference: the same writes with different times give the same cache. */
  method TimeIgnored<K(==), V(==)>(key: K, value: V, t1: int, t2: int) returns (same: bool)
    ensures same
  {
    var c1 := new MemoryCache<K, V>();
    var c2 := new MemoryCache<K, V>();
    c1.Set(key, value, t1);
    c2.Set(key, value, t2);
    same := c1.cache == c2.cache;
  }
}
