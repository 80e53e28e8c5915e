/** The in-memory keyed state: a map whose iteration order is the byte order of its keys. */
module StateStore {
  import opened Elements
  import opened ByteOrder

  /** `keys` is what a scan of `entries` visits. */
  ghost predicate ScanOrder(entries: map<Bytes, Bytes>, keys: seq<Bytes>) {
    Ascending(keys) && forall k :: k in keys <==> k in entries
  }

  /** The order is decided by the contents alone: there is one ascending list of a set of keys. */
  lemma {:induction false} ScanOrderUnique(entries: map<Bytes, Bytes>, a: seq<Bytes>, b: seq<Bytes>)
    requires ScanOrder(entries, a) && ScanOrder(entries, b)
    ensures a == b
  {
    AscendingUnique(a, b);
  }

  class Memory {
    var entries: map<Bytes, Bytes>

    constructor ()
      ensures entries == map[]
    {
      entries := map[];
    }

    method Put(key: Bytes, value: Bytes)
      modifies this
      ensures entries == old(entries)[key := value]
    {
      entries := entries[key := value];
    }

    method Delete(key: Bytes)
      modifies this
      ensures entries == old(entries) - {key}
    {
      entries := entries - {key};
    }

    /** The keys a scan visits, fixed before its first call. */
    method SortedKeys() returns (keys: seq<Bytes>)
      ensures ScanOrder(entries, keys)
    {
      keys := [];
      var left := entries.Keys;
      while left != {}
        invariant Ascending(keys) && left <= entries.Keys
        invariant forall k :: k in keys <==> k in entries && k !in left
        decreases |left|
      {
        var k :| k in left;
        InsertSorted(keys, k);
        keys := Insert(keys, k);
        left := left - {k};
      }
    }
  }
}
