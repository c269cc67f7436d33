/**
 * The database's sorted in-memory table (matrix/db/mem_table.hpp): a
 * `std::map` from keys to values.
 */
module MemTables {
  import opened Wrappers
  import opened SortedMap

  class MemTable {
    var entries: seq<Entry<string>>

    constructor ()
      ensures Valid() && entries == []
    {
      entries := [];
    }

    /** The table is kept ordered by key. */
    predicate Valid()
      reads this
    {
      Sorted(entries)
    }

    /** Stores `value` under `key`, overwriting; other keys keep their
        values. */
    method Put(key: string, value: string)
      requires Valid()
      modifies this
      ensures Valid()
      ensures entries == SortedMap.Put(old(entries), key, value)
      ensures TryGet(key) == Some(value)
      ensures forall k :: k != key ==> TryGet(k) == Get(old(entries), k)
    {
      entries := SortedMap.Put(entries, key, value);
      forall k
        ensures TryGet(k) == if k == key then Some(value) else Get(old(entries), k)
      {
        GetPut(old(entries), key, value, k);
      }
    }

    function TryGet(key: string): (r: Option<string>)
      reads this
      requires Valid()
      ensures r.Some? <==> key in Keys(entries)
    {
      Get(entries, key)
    }

    /** Removes `key`; other keys keep their values, and removing an absent
        key changes nothing. */
    method Delete(key: string)
      requires Valid()
      modifies this
      ensures Valid()
      ensures entries == SortedMap.Remove(old(entries), key)
      ensures TryGet(key) == None
      ensures forall k :: k != key ==> TryGet(k) == Get(old(entries), k)
      ensures key !in Keys(old(entries)) ==> entries == old(entries)
    {
      entries := SortedMap.Remove(entries, key);
      forall k
        ensures TryGet(k) == if k == key then None else Get(old(entries), k)
      {
        GetRemove(old(entries), key, k);
      }
    }

    method Clear()
      modifies this
      ensures Valid() && entries == []
    {
      entries := [];
    }

    /** The entries in ascending key order. */
    function GetEntries(): (es: seq<Entry<string>>)
      reads this
      requires Valid()
      ensures Sorted(es) && es == entries
    {
      entries
    }
  }
}
