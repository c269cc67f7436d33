/**
 * Time-keyed queues. The simulator's `PriorityQueue` helper is not part of
 * this model; its queues are modelled as sequences in insertion order from
 * which the entry with the smallest key is taken, the earliest-inserted one
 * among equal keys.
 */
module PriorityQueues {

  /** Index of the first entry with the smallest `key`. */
  function Smallest<T>(q: seq<T>, key: T -> nat): (k: nat)
    requires q != []
    ensures k < |q|
    ensures forall i :: 0 <= i < |q| ==> key(q[k]) <= key(q[i])
    ensures forall i :: 0 <= i < k ==> key(q[k]) < key(q[i])
  {
    if |q| == 1 then 0
    else
      var k := Smallest(q[1..], key);
      if key(q[0]) <= key(q[1..][k]) then 0 else k + 1
  }

  /** `q` without its entry at `k`. */
  function RemoveAt<T>(q: seq<T>, k: nat): (r: seq<T>)
    requires k < |q|
    ensures |r| == |q| - 1
    ensures multiset(r) + multiset{q[k]} == multiset(q)
  {
    assert q == q[..k] + [q[k]] + q[k + 1..];
    q[..k] + q[k + 1..]
  }
}
