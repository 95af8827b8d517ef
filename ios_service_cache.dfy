/** The iOS `ServiceCache` actor: a dictionary from service key to the last resolved
    `ScanResult`. The actor's isolation only serialises the calls; each call is one step here. */
module IosServiceCache {
  import opened Common
  import Snapshot

  class ServiceCache {
    var cache: map<string, ScanResult>

    constructor ()
      ensures cache == map[]
    {
      cache := map[];
    }

    /** The entry stored under `key`, if any. */
    function Get(key: string): (r: Option<ScanResult>)
      reads this
      ensures r.Some? <==> key in cache
      ensures r.Some? ==> r.value == cache[key]
    {
      if key in cache then Some(cache[key]) else None
    }

    /** Stores `value` under `key`; afterwards `Get(key)` is `value` and every other key reads
        as before. */
    method Set(key: string, value: ScanResult)
      modifies this`cache
      ensures cache == old(cache)[key := value]
      ensures Get(key) == Some(value)
      ensures forall k :: k != key ==> Get(k) == old(Get(k))
    {
      cache := cache[key := value];
    }

    /** Removes the entry for `key` and hands back what it held; removing an absent key
        returns nothing and changes nothing. */
    method Remove(key: string) returns (previous: Option<ScanResult>)
      modifies this`cache
      ensures previous == old(Get(key))
      ensures cache == old(cache) - {key}
      ensures Get(key) == None
      ensures forall k :: k != key ==> Get(k) == old(Get(k))
      ensures previous == None ==> cache == old(cache)
    {
      previous := Get(key);
      cache := cache - {key};
    }

    /** Every stored value, once per key, in the dictionary's order. */
    method GetAll() returns (values: seq<ScanResult>)
      ensures Snapshot.IsValuesOf(cache, values)
      ensures |values| == |cache|
      ensures forall v :: v in values <==> exists k :: k in cache && cache[k] == v
    {
      values := Snapshot.Values(cache);
      forall v ensures v in values <==> exists k :: k in cache && cache[k] == v {
        Snapshot.SnapshotContents(cache, values, v);
      }
    }

    /** Empties the cache: afterwards no key reads back and a snapshot is empty. */
    method Clear()
      modifies this`cache
      ensures cache == map[]
      ensures forall k :: Get(k) == None
    {
      cache := map[];
    }
  }
}
