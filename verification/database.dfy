/**
 * The simulated key-value database (matrix/db/database.cpp): every write is
 * a batch of mutations that is appended to the write-ahead log (WAL) and
 * then applied to the sorted in-memory table. Opening the database replays
 * the WAL into an empty table.
 *
 * The WAL's on-disk encoding is not part of this model: the log is the
 * sequence of batches it holds.
 */
module Databases {
  import opened Wrappers
  import opened SortedMap
  import opened Randomness
  import opened TimeModels
  import opened MemTables

  datatype Mutation = PutMutation(key: string, value: string) | DeleteMutation(key: string)

  type WriteBatch = seq<Mutation>

  function ApplyMutation(es: seq<Entry<string>>, m: Mutation): (r: seq<Entry<string>>)
    requires Sorted(es)
    ensures Sorted(r)
  {
    match m
    case PutMutation(k, v) => Put(es, k, v)
    case DeleteMutation(k) => Remove(es, k)
  }

  /** The table after applying `muts` in order (defined by its last step). */
  function ApplyBatch(es: seq<Entry<string>>, muts: WriteBatch): (r: seq<Entry<string>>)
    requires Sorted(es)
    ensures Sorted(r)
    decreases |muts|
  {
    if muts == [] then es
    else ApplyMutation(ApplyBatch(es, muts[..|muts| - 1]), muts[|muts| - 1])
  }

  /** The table rebuilt from a WAL holding `bs`: the batches applied in log
      order to an empty table. */
  function ReplayAll(bs: seq<WriteBatch>): (r: seq<Entry<string>>)
    ensures Sorted(r)
    decreases |bs|
  {
    if bs == [] then []
    else ApplyBatch(ReplayAll(bs[..|bs| - 1]), bs[|bs| - 1])
  }

  /** All mutations of `bs`, in log order. */
  function Flatten(bs: seq<WriteBatch>): seq<Mutation>
    decreases |bs|
  {
    if bs == [] then [] else Flatten(bs[..|bs| - 1]) + bs[|bs| - 1]
  }

  /** The last mutation of `muts` on key `k`, if any. */
  function LastMutation(muts: WriteBatch, k: string): (r: Option<Mutation>)
    ensures r.Some? ==> r.value in muts && r.value.key == k
    ensures r.None? ==> forall m :: m in muts ==> m.key != k
    decreases |muts|
  {
    if muts == [] then None
    else if muts[|muts| - 1].key == k then Some(muts[|muts| - 1])
    else
      assert forall m :: m in muts ==> m in muts[..|muts| - 1] || m == muts[|muts| - 1];
      LastMutation(muts[..|muts| - 1], k)
  }

  /** The value of a key whose value was `prior`, once `last` (the last
      mutation on it, if any) has been applied. */
  function AfterLast(prior: Option<string>, last: Option<Mutation>): Option<string>
  {
    match last
    case None => prior
    case Some(PutMutation(_, v)) => Some(v)
    case Some(DeleteMutation(_)) => None
  }

  /** Mutations apply in order, so the last mutation on a key decides its
      value; keys no mutation touches keep theirs. */
  lemma {:induction false} ApplyBatchGet(es: seq<Entry<string>>, muts: WriteBatch, k: string)
    requires Sorted(es)
    ensures Get(ApplyBatch(es, muts), k) == AfterLast(Get(es, k), LastMutation(muts, k))
    decreases |muts|
  {
    if muts != [] {
      var init := muts[..|muts| - 1];
      var m := muts[|muts| - 1];
      ApplyBatchGet(es, init, k);
      match m
      case PutMutation(k', v) => GetPut(ApplyBatch(es, init), k', v, k);
      case DeleteMutation(k') => GetRemove(ApplyBatch(es, init), k', k);
    }
  }

  /** Applying two batches one after the other is applying their
      concatenation. */
  lemma {:induction false} ApplyBatchConcat(es: seq<Entry<string>>, a: WriteBatch, b: WriteBatch)
    requires Sorted(es)
    ensures ApplyBatch(es, a + b) == ApplyBatch(ApplyBatch(es, a), b)
    decreases |b|
  {
    if b == [] {
      assert a + b == a;
    } else {
      var init := b[..|b| - 1];
      assert (a + b)[..|a + b| - 1] == a + init;
      assert (a + b)[|a + b| - 1] == b[|b| - 1];
      ApplyBatchConcat(es, a, init);
    }
  }

  /** Replaying a WAL is applying all of its mutations, in log order, to an
      empty table. */
  lemma {:induction false} ReplayIsFlatApply(bs: seq<WriteBatch>)
    ensures ReplayAll(bs) == ApplyBatch([], Flatten(bs))
    decreases |bs|
  {
    if bs != [] {
      var init := bs[..|bs| - 1];
      ReplayIsFlatApply(init);
      ApplyBatchConcat([], Flatten(init), bs[|bs| - 1]);
    }
  }

  /** After replay, each key holds the value its last logged mutation gave
      it; a key the log never mentions is absent. */
  lemma RecoveredValue(bs: seq<WriteBatch>, k: string)
    ensures Get(ReplayAll(bs), k) == AfterLast(None, LastMutation(Flatten(bs), k))
  {
    ReplayIsFlatApply(bs);
    ApplyBatchGet([], Flatten(bs), k);
  }

  class Database {
    const memTable: MemTable
    var wal: seq<WriteBatch>   // the batches the WAL file holds, oldest first
    var version: nat           // incremented on each batch

    constructor ()
      ensures Valid() && fresh(memTable) && wal == [] && version == 0
    {
      memTable := new MemTable();
      wal := [];
      version := 0;
    }

    /** The table is the replay of the log. */
    ghost predicate Valid()
      reads this, memTable
    {
      memTable.Valid() && memTable.entries == ReplayAll(wal)
    }

    /** Applies the batch's mutations to the table, in order. */
    method ApplyToMemTable(batch: WriteBatch)
      requires memTable.Valid()
      modifies memTable
      ensures memTable.Valid()
      ensures memTable.entries == ApplyBatch(old(memTable.entries), batch)
    {
      for i := 0 to |batch|
        invariant memTable.Valid()
        invariant memTable.entries == ApplyBatch(old(memTable.entries), batch[..i])
      {
        assert batch[..i + 1][..i] == batch[..i];
        match batch[i]
        case PutMutation(k, v) => memTable.Put(k, v);
        case DeleteMutation(k) => memTable.Delete(k);
      }
      assert batch[..|batch|] == batch;
    }

    /** Rebuilds the table from the WAL file, `None` when there is none: the
        table is cleared; a missing file leaves the version as it was,
        otherwise the version becomes the number of replayed batches. */
    method ReplayWAL(walFile: Option<seq<WriteBatch>>)
      modifies this, memTable
      ensures memTable.Valid()
      ensures memTable.entries == ReplayAll(walFile.GetOr([]))
      ensures version == if walFile.None? then old(version) else |walFile.value|
      ensures wal == old(wal)
    {
      memTable.Clear();
      if walFile.None? {
        return;
      }
      var bs := walFile.value;
      version := 0;
      var i := 0;
      while i < |bs|
        invariant 0 <= i <= |bs| && version == i
        invariant memTable.Valid() && memTable.entries == ReplayAll(bs[..i])
        invariant wal == old(wal)
      {
        assert bs[..i + 1][..i] == bs[..i];
        ApplyToMemTable(bs[i]);
        version := version + 1;
        i := i + 1;
      }
      assert bs[..i] == bs;
    }

    /** Opens the database on its WAL file; later writes extend that log. */
    method Open(walFile: Option<seq<WriteBatch>>)
      modifies this, memTable
      ensures Valid() && wal == walFile.GetOr([])
      ensures version == if walFile.None? then old(version) else |walFile.value|
    {
      ReplayWAL(walFile);
      wal := walFile.GetOr([]);
    }

    /** Logs the batch, then applies it, then bumps the version. */
    method DoWrite(batch: WriteBatch)
      requires Valid()
      modifies this, memTable
      ensures Valid()
      ensures wal == old(wal) + [batch] && version == old(version) + 1
      ensures memTable.entries == ApplyBatch(old(memTable.entries), batch)
    {
      wal := wal + [batch];
      ApplyToMemTable(batch);
      version := version + 1;
      assert wal[..|wal| - 1] == old(wal);
    }

    method Write(batch: WriteBatch)
      requires Valid()
      modifies this, memTable
      ensures Valid()
      ensures wal == old(wal) + [batch] && version == old(version) + 1
      ensures forall k :: memTable.TryGet(k) == AfterLast(Get(old(memTable.entries), k), LastMutation(batch, k))
    {
      DoWrite(batch);
      forall k
        ensures memTable.TryGet(k) == AfterLast(Get(old(memTable.entries), k), LastMutation(batch, k))
      {
        ApplyBatchGet(old(memTable.entries), batch, k);
      }
    }

    /** A one-mutation batch that stores `value` under `key`. */
    method Put(key: string, value: string)
      requires Valid()
      modifies this, memTable
      ensures Valid()
      ensures wal == old(wal) + [[PutMutation(key, value)]] && version == old(version) + 1
      ensures memTable.TryGet(key) == Some(value)
      ensures forall k :: k != key ==> memTable.TryGet(k) == Get(old(memTable.entries), k)
    {
      Write([PutMutation(key, value)]);
    }

    /** A one-mutation batch that removes `key`. */
    method Delete(key: string)
      requires Valid()
      modifies this, memTable
      ensures Valid()
      ensures wal == old(wal) + [[DeleteMutation(key)]] && version == old(version) + 1
      ensures memTable.TryGet(key) == None
      ensures forall k :: k != key ==> memTable.TryGet(k) == Get(old(memTable.entries), k)
    {
      Write([DeleteMutation(key)]);
    }

    /** Looks `key` up in the table after drawing a cache miss (which would
        only add a disk read): the value the last logged mutation on the key
        gave it. */
    method TryGet(key: string, m: ServerTimeModel, s: Stream) returns (r: Option<string>, rest: Stream)
      requires Valid()
      ensures r == AfterLast(None, LastMutation(Flatten(wal), key))
      ensures r.Some? <==> key in Keys(memTable.entries)
      ensures rest == GetCacheMiss(m, s).rest
    {
      var miss := GetCacheMiss(m, s);
      rest := miss.rest;
      r := memTable.TryGet(key);
      RecoveredValue(wal, key);
    }

    /** A snapshot holds its own copy of the current entries and the current
        version, so later writes leave it as it is. */
    method MakeSnapshot() returns (snap: Snapshot)
      requires Valid()
      ensures snap.db == this && snap.entries == memTable.entries && snap.version == version
      ensures snap.Valid()
    {
      snap := Snapshot(this, memTable.GetEntries(), version);
    }
  }

  /** A read-only view of the database at one version. */
  datatype Snapshot = Snapshot(db: Database, entries: seq<Entry<string>>, version: nat)
  {
    predicate Valid()
    {
      Sorted(entries)
    }
  }
}
