/**
 * The replicated register logic of the key-value example
 * (examples/kv/node/main.cpp): every replica keeps, per key, the value with
 * the newest write timestamp it has seen; a coordinator writes to and reads
 * from a majority of replicas and returns the most recent value it read.
 */
module KeyValue {
  import opened Wrappers

  /** Timestamps compare by their one number. */
  datatype WriteTimestamp = WriteTimestamp(value: nat)

  const ZeroTimestamp := WriteTimestamp(0)

  datatype StampedValue = StampedValue(value: nat, timestamp: WriteTimestamp)

  predicate Older(a: WriteTimestamp, b: WriteTimestamp)
  {
    a.value < b.value
  }

  /** The quorum size for `n` replicas. */
  function Majority(n: nat): (q: nat)
    ensures 2 * q > n && q <= n + 1
    ensures n > 0 ==> q <= n
  {
    n / 2 + 1
  }

  lemma MajorityOfSmallClusters()
    ensures Majority(3) == 2 && Majority(5) == 3
  {
  }

  lemma {:induction false} SubsetCard<T>(a: set<T>, b: set<T>)
    requires a <= b
    ensures |a| <= |b|
    decreases |b|
  {
    if a != {} {
      var x :| x in a;
      SubsetCard(a - {x}, b - {x});
    }
  }

  /** Any two majorities of the same replicas share a replica. */
  lemma MajoritiesIntersect<T>(replicas: set<T>, a: set<T>, b: set<T>)
    requires a <= replicas && b <= replicas
    requires |a| >= Majority(|replicas|) && |b| >= Majority(|replicas|)
    ensures a * b != {}
  {
    SubsetCard(a + b, replicas);
    assert |a + b| + |a * b| == |a| + |b|;
  }

  /** `FindMostRecent`: the position of the value `std::max_element` picks,
      the first one with the largest timestamp. */
  function MostRecentIndex(values: seq<StampedValue>): (k: nat)
    requires values != []
    ensures k < |values|
    ensures forall i :: 0 <= i < |values| ==> !Older(values[k].timestamp, values[i].timestamp)
    ensures forall i :: 0 <= i < k ==> Older(values[i].timestamp, values[k].timestamp)
    decreases |values|
  {
    if |values| == 1 then 0
    else
      var k := MostRecentIndex(values[..|values| - 1]);
      assert forall i :: 0 <= i < |values| - 1 ==> values[..|values| - 1][i] == values[i];
      if Older(values[k].timestamp, values[|values| - 1].timestamp) then |values| - 1 else k
  }

  function FindMostRecent(values: seq<StampedValue>): (v: StampedValue)
    requires values != []
    ensures v in values
    ensures forall i :: 0 <= i < |values| ==> values[i].timestamp.value <= v.timestamp.value
  {
    values[MostRecentIndex(values)]
  }

  /** The coordinator's write timestamp: its wall clock, in jiffies. */
  function ChooseWriteTimestamp(wallNow: nat): (ts: WriteTimestamp)
    ensures ts.value == wallNow
  {
    WriteTimestamp(wallNow)
  }

  /** A storage replica: per key, the newest stamped value it has accepted. */
  class Replica {
    var store: map<string, StampedValue>

    constructor ()
      ensures store == map[]
    {
      store := map[];
    }

    /** Stores the value when the key is new or the value's timestamp is
        strictly newer; equal or older timestamps are ignored. */
    method LocalWrite(key: string, target: StampedValue)
      modifies this
      ensures key !in old(store) || Older(old(store)[key].timestamp, target.timestamp) ==>
        store == old(store)[key := target]
      ensures key in old(store) && !Older(old(store)[key].timestamp, target.timestamp) ==>
        store == old(store)
      ensures forall k :: k in old(store) ==> k in store && !Older(store[k].timestamp, old(store)[k].timestamp)
      ensures key in store && !Older(store[key].timestamp, target.timestamp)
    {
      if key !in store {
        Update(key, target);
      } else if Older(store[key].timestamp, target.timestamp) {
        Update(key, target);
      }
    }

    method Update(key: string, target: StampedValue)
      modifies this
      ensures store == old(store)[key := target]
    {
      store := store[key := target];
    }

    /** The stored value, or value 0 at timestamp 0 when there is none. */
    function LocalRead(key: string): (v: StampedValue)
      reads this
      ensures key in store ==> v == store[key]
      ensures key !in store ==> v == StampedValue(0, ZeroTimestamp)
    {
      if key in store then store[key] else StampedValue(0, ZeroTimestamp)
    }
  }
}
