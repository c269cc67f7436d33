/**
 * Iterators over a database snapshot (matrix/db/iterator.hpp and
 * matrix/db/iterator.cpp). The two files hold two versions of the same
 * iterator: `Iterator` is the inline one that `Snapshot::MakeIterator`
 * builds; `MovingIterator` is the out-of-line one that calls the database's
 * iterator hook after every positioning that leaves it valid.
 *
 * A position is an index into the snapshot's entries; `valid` says whether
 * it designates an entry.
 */
module Iterators {
  import opened Wrappers
  import opened Strings
  import opened SortedMap
  import opened Databases

  class Iterator {
    const snapshot: Snapshot          // kept alive while iterating
    const entries: seq<Entry<string>>
    var valid: bool
    var pos: nat

    /** A new iterator is at the first entry, or invalid when there is none. */
    constructor (snapshot: Snapshot, entries: seq<Entry<string>>)
      requires Sorted(entries)
      ensures this.snapshot == snapshot && this.entries == entries
      ensures Inv() && (valid <==> entries != []) && (valid ==> pos == 0)
    {
      this.snapshot := snapshot;
      this.entries := entries;
      valid := entries != [];
      pos := 0;
    }

    predicate Inv()
      reads this
    {
      Sorted(entries) && (valid ==> pos < |entries|)
    }

    /** The current key; one of the snapshot's keys. */
    function Key(): (k: string)
      reads this
      requires Inv() && valid
      ensures k in Keys(entries)
    {
      entries[pos].key
    }

    /** The current value: the one the snapshot stores under `Key()`. */
    function Value(): (v: string)
      reads this
      requires Inv() && valid
      ensures Get(entries, Key()) == Some(v)
    {
      GetAt(entries, pos);
      entries[pos].value
    }

    /** Moves to the smallest key, or becomes invalid when there is none. */
    method SeekToFirst()
      requires Inv()
      modifies this
      ensures Inv() && (valid <==> entries != [])
      ensures valid ==> pos == 0 && forall i :: 0 < i < |entries| ==> Less(Key(), entries[i].key)
    {
      if entries == [] {
        valid := false;
        return;
      }
      valid := true;
      pos := 0;
    }

    /** Moves to the largest key, or becomes invalid when there is none. */
    method SeekToLast()
      requires Inv()
      modifies this
      ensures Inv() && (valid <==> entries != [])
      ensures valid ==> pos == |entries| - 1 && forall i :: 0 <= i < |entries| - 1 ==> Less(entries[i].key, Key())
    {
      if entries == [] {
        valid := false;
        return;
      }
      valid := true;
      pos := |entries| - 1;
    }

    /** Moves to the smallest key not less than `target`, or becomes invalid
        when every key is less. */
    method Seek(target: string)
      requires Inv()
      modifies this
      ensures Inv()
      ensures valid <==> exists i :: 0 <= i < |entries| && !Less(entries[i].key, target)
      ensures valid ==> !Less(Key(), target) && forall i :: 0 <= i < pos ==> Less(entries[i].key, target)
    {
      pos := LowerBound(entries, target);
      if pos < |entries| {
        assert !Less(entries[pos].key, target);
        valid := true;
      } else {
        valid := false;
      }
    }

    /** Moves to the next larger key; from the last entry it becomes
        invalid. Aborts on an invalid iterator. */
    method Next()
      requires Inv() && valid
      modifies this
      ensures Inv()
      ensures valid <==> old(pos) + 1 < |entries|
      ensures valid ==> pos == old(pos) + 1 && Less(old(Key()), Key())
    {
      pos := pos + 1;
      if pos == |entries| {
        valid := false;
      }
    }

    /** Moves to the next smaller key; at the first entry it becomes invalid
        instead of moving. Aborts on an invalid iterator. */
    method Prev()
      requires Inv() && valid
      modifies this
      ensures Inv()
      ensures valid <==> old(pos) > 0
      ensures valid ==> pos == old(pos) - 1 && Less(Key(), old(Key()))
    {
      if pos == 0 {
        valid := false;
      } else {
        pos := pos - 1;
      }
    }
  }

  /** `Snapshot::MakeIterator`: an iterator over the snapshot's own entries. */
  method MakeIterator(snap: Snapshot) returns (it: Iterator)
    requires snap.Valid()
    ensures fresh(it) && it.snapshot == snap && it.entries == snap.entries
    ensures it.Inv() && (it.valid <==> snap.entries != []) && (it.valid ==> it.pos == 0)
  {
    it := new Iterator(snap, snap.entries);
  }

  /** The client loop that walks a snapshot from its first entry with
      `Next` while the iterator is valid, collecting each entry: it sees
      every entry exactly once, in ascending key order. */
  method ScanSnapshot(snap: Snapshot) returns (seen: seq<Entry<string>>)
    requires snap.Valid()
    ensures seen == snap.entries
    ensures forall i, j :: 0 <= i < j < |seen| ==> Less(seen[i].key, seen[j].key)
  {
    var it := MakeIterator(snap);
    seen := [];
    while it.valid
      invariant it.Inv() && it.entries == snap.entries
      invariant it.valid ==> seen == snap.entries[..it.pos]
      invariant !it.valid ==> seen == snap.entries
      decreases if it.valid then |it.entries| - it.pos else 0, it.valid
    {
      seen := seen + [Entry(it.Key(), it.Value())];
      assert snap.entries[..it.pos + 1] == snap.entries[..it.pos] + [snap.entries[it.pos]];
      it.Next();
    }
  }

  class MovingIterator {
    const snapshot: Snapshot
    const entries: seq<Entry<string>>
    var valid: bool
    var pos: nat
    var moves: nat    // calls of the database's iterator hook

    /** Seeks to the first entry, which calls the hook when there is one. */
    constructor (snapshot: Snapshot)
      requires snapshot.Valid()
      ensures this.snapshot == snapshot && entries == snapshot.entries
      ensures Inv() && (valid <==> entries != []) && (valid ==> pos == 0)
      ensures moves == if valid then 1 else 0
    {
      this.snapshot := snapshot;
      entries := snapshot.entries;
      if snapshot.entries == [] {
        valid := false;
        pos := 0;
        moves := 0;
      } else {
        valid := true;
        pos := 0;
        moves := 1;
      }
    }

    predicate Inv()
      reads this
    {
      Sorted(entries) && (valid ==> pos < |entries|)
    }

    function Key(): (k: string)
      reads this
      requires Inv() && valid
      ensures k in Keys(entries)
    {
      entries[pos].key
    }

    function Value(): (v: string)
      reads this
      requires Inv() && valid
      ensures Get(entries, Key()) == Some(v)
    {
      GetAt(entries, pos);
      entries[pos].value
    }

    /** The database's iterator hook. */
    method Move()
      modifies this
      ensures moves == old(moves) + 1
      ensures valid == old(valid) && pos == old(pos)
    {
      moves := moves + 1;
    }

    method SeekToFirst()
      requires Inv()
      modifies this
      ensures Inv() && (valid <==> entries != [])
      ensures valid ==> pos == 0 && forall i :: 0 < i < |entries| ==> Less(Key(), entries[i].key)
      ensures moves == old(moves) + if valid then 1 else 0
    {
      if entries == [] {
        valid := false;
        return;
      }
      valid := true;
      pos := 0;
      Move();
    }

    method SeekToLast()
      requires Inv()
      modifies this
      ensures Inv() && (valid <==> entries != [])
      ensures valid ==> pos == |entries| - 1 && forall i :: 0 <= i < |entries| - 1 ==> Less(entries[i].key, Key())
      ensures moves == old(moves) + if valid then 1 else 0
    {
      if entries == [] {
        valid := false;
        return;
      }
      valid := true;
      pos := |entries| - 1;
      Move();
    }

    method Seek(target: string)
      requires Inv()
      modifies this
      ensures Inv()
      ensures valid <==> exists i :: 0 <= i < |entries| && !Less(entries[i].key, target)
      ensures valid ==> !Less(Key(), target) && forall i :: 0 <= i < pos ==> Less(entries[i].key, target)
      ensures moves == old(moves) + if valid then 1 else 0
    {
      pos := LowerBound(entries, target);
      if pos < |entries| {
        assert !Less(entries[pos].key, target);
        valid := true;
        Move();
      } else {
        valid := false;
      }
    }

    method Next()
      requires Inv() && valid
      modifies this
      ensures Inv()
      ensures valid <==> old(pos) + 1 < |entries|
      ensures valid ==> pos == old(pos) + 1 && Less(old(Key()), Key())
      ensures moves == old(moves) + if valid then 1 else 0
    {
      pos := pos + 1;
      if pos != |entries| {
        Move();
      } else {
        valid := false;
      }
    }

    method Prev()
      requires Inv() && valid
      modifies this
      ensures Inv()
      ensures valid <==> old(pos) > 0
      ensures valid ==> pos == old(pos) - 1 && Less(Key(), old(Key()))
      ensures moves == old(moves) + if valid then 1 else 0
    {
      if pos != 0 {
        pos := pos - 1;
        Move();
      } else {
        valid := false;
      }
    }
  }
}
