/** The in-memory index: where each key's newest value lies. */
module Index {
  import opened Bytes
  import opened Format

  datatype KeydirEntry = KeydirEntry(fileId: nat, valueSize: U32, valuePos: nat, timestamp: U32)

  type Entries = map<Key, KeydirEntry>

  function Lookup<K, V>(m: map<K, V>, k: K): Option<V> {
    if k in m then Some(m[k]) else None
  }

  class Keydir {
    var entries: Entries

    constructor ()
      ensures entries == map[]
    {
      entries := map[];
    }

    method Get(key: Key) returns (e: Option<KeydirEntry>)
      ensures e == Lookup(entries, key)
    {
      e := if key in entries then Some(entries[key]) else None;
    }

    /** Last write wins. */
    method Insert(key: Key, entry: KeydirEntry)
      modifies this
      ensures entries == old(entries)[key := entry]
    {
      entries := entries[key := entry];
    }

    method Remove(key: Key) returns (was: Option<KeydirEntry>)
      modifies this
      ensures entries == old(entries) - {key} && was == Lookup(old(entries), key)
    {
      was := Get(key);
      entries := entries - {key};
    }

    /** Repoints `key` only if it still is exactly `expectedOld`. */
    method CasRepoint(key: Key, expectedOld: KeydirEntry, new_: KeydirEntry) returns (ok: bool)
      modifies this
      ensures ok <==> Lookup(old(entries), key) == Some(expectedOld)
      ensures entries == if ok then old(entries)[key := new_] else old(entries)
    {
      if key in entries && entries[key] == expectedOld {
        entries := entries[key := new_];
        ok := true;
      } else {
        ok := false;
      }
    }

    /** Every (key, entry) pair once, in no particular order. */
    method Snapshot() returns (pairs: seq<(Key, KeydirEntry)>)
      ensures |pairs| == |entries|
      ensures forall i :: 0 <= i < |pairs| ==> pairs[i].0 in entries && entries[pairs[i].0] == pairs[i].1
      ensures forall i, j :: 0 <= i < j < |pairs| ==> pairs[i].0 != pairs[j].0
      ensures forall k :: k in entries ==> (k, entries[k]) in pairs
    {
      pairs := [];
      var left := entries.Keys;
      while left != {}
        invariant left <= entries.Keys
        invariant |pairs| + |left| == |entries.Keys|
        invariant forall i :: 0 <= i < |pairs| ==>
          pairs[i].0 in entries && pairs[i].0 !in left && entries[pairs[i].0] == pairs[i].1
        invariant forall i, j :: 0 <= i < j < |pairs| ==> pairs[i].0 != pairs[j].0
        invariant forall k :: k in entries ==> k in left || (k, entries[k]) in pairs
        decreases left
      {
        var k :| k in left;
        pairs := pairs + [(k, entries[k])];
        left := left - {k};
      }
    }
  }
}
