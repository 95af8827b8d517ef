/** The values of a service cache, taken out as an array (`Array(cache.values)` on iOS,
    `serviceCache.values.toTypedArray()` on Android). The order is the dictionary's and is
    not specified, so a snapshot is any sequence that lists each key's value exactly once. */
module Snapshot {
  import opened Common

  /** `keys` lists every key of `m` once, and `values[i]` is the value stored under `keys[i]`. */
  ghost predicate Enumerates(m: map<string, ScanResult>, values: seq<ScanResult>, keys: seq<string>) {
    && |keys| == |values|
    && Distinct(keys)
    && (forall k :: k in m ==> k in keys)
    && (forall i :: 0 <= i < |keys| ==> keys[i] in m && values[i] == m[keys[i]])
  }

  /** `values` holds exactly the values of `m`, one per key, in some order. */
  ghost predicate IsValuesOf(m: map<string, ScanResult>, values: seq<ScanResult>) {
    exists keys :: Enumerates(m, values, keys)
  }

  /** Walks the keys in an unspecified order and collects their values. */
  method Values(m: map<string, ScanResult>) returns (values: seq<ScanResult>)
    ensures IsValuesOf(m, values)
    ensures |values| == |m|
  {
    var rest := m.Keys;
    values := [];
    ghost var keys: seq<string> := [];
    while rest != {}
      invariant rest <= m.Keys
      invariant |keys| == |values|
      invariant Distinct(keys)
      invariant forall k :: k in keys <==> k in m && k !in rest
      invariant forall i :: 0 <= i < |keys| ==> keys[i] in m && values[i] == m[keys[i]]
      decreases rest
    {
      var k :| k in rest;
      values := values + [m[k]];
      keys := keys + [k];
      rest := rest - {k};
    }
    assert Enumerates(m, values, keys);
    SnapshotLength(m, values);
  }

  lemma EnumeratesLength(m: map<string, ScanResult>, values: seq<ScanResult>, keys: seq<string>)
    requires Enumerates(m, values, keys)
    ensures |values| == |m|
  {
    DistinctCardinality(keys);
    var ks := set x | x in keys;
    assert ks == m.Keys;
  }

  /** A snapshot has one element per key. */
  lemma SnapshotLength(m: map<string, ScanResult>, values: seq<ScanResult>)
    requires IsValuesOf(m, values)
    ensures |values| == |m|
  {
    var keys :| Enumerates(m, values, keys);
    EnumeratesLength(m, values, keys);
  }

  /** A snapshot holds a value exactly when some key maps to it. */
  lemma SnapshotContents(m: map<string, ScanResult>, values: seq<ScanResult>, v: ScanResult)
    requires IsValuesOf(m, values)
    ensures v in values <==> exists k :: k in m && m[k] == v
  {
    var keys :| Enumerates(m, values, keys);
    if v in values {
      var i :| 0 <= i < |values| && values[i] == v;
      assert keys[i] in m && m[keys[i]] == v;
    } else {
      forall k | k in m ensures m[k] != v {
        var i :| 0 <= i < |keys| && keys[i] == k;
        assert values[i] == m[k];
      }
    }
  }

  /** The snapshot of an empty cache is empty, and only of an empty cache. */
  lemma SnapshotEmpty(m: map<string, ScanResult>, values: seq<ScanResult>)
    requires IsValuesOf(m, values)
    ensures values == [] <==> m == map[]
  {
    SnapshotLength(m, values);
    if values == [] {
      assert |m.Keys| == 0;
    }
  }
}
