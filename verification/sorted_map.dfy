/**
 * `std::map<std::string, V>` as the simulator uses it: a sequence of entries
 * kept strictly ascending by key, so that iteration visits keys in sorted
 * order. `LowerBound` is `std::map::lower_bound`; `Put` is
 * `insert_or_assign`; `Remove` is `erase`.
 */
module SortedMap {
  import opened Wrappers
  import opened Strings

  datatype Entry<V> = Entry(key: string, value: V)

  /** Keys strictly ascending. */
  predicate Sorted<V>(es: seq<Entry<V>>)
  {
    forall i, j :: 0 <= i < j < |es| ==> Less(es[i].key, es[j].key)
  }

  function Keys<V>(es: seq<Entry<V>>): set<string>
  {
    set i | 0 <= i < |es| :: es[i].key
  }

  /** The keys in iteration order. */
  function KeyList<V>(es: seq<Entry<V>>): (ks: seq<string>)
    ensures |ks| == |es| && forall i :: 0 <= i < |es| ==> ks[i] == es[i].key
  {
    if es == [] then [] else [es[0].key] + KeyList(es[1..])
  }

  /** Index of the first entry whose key is not less than `k`. */
  function LowerBound<V>(es: seq<Entry<V>>, k: string): (p: nat)
    requires Sorted(es)
    ensures p <= |es|
    ensures forall i :: 0 <= i < p ==> Less(es[i].key, k)
    ensures forall i :: p <= i < |es| ==> !Less(es[i].key, k)
  {
    if es == [] || !Less(es[0].key, k) then
      LowerBoundOfSmallest(es, k);
      0
    else
      1 + LowerBound(es[1..], k)
  }

  lemma LowerBoundOfSmallest<V>(es: seq<Entry<V>>, k: string)
    requires Sorted(es)
    requires es == [] || !Less(es[0].key, k)
    ensures forall i :: 0 <= i < |es| ==> !Less(es[i].key, k)
  {
    forall i | 0 < i < |es|
      ensures !Less(es[i].key, k)
    {
      if Less(es[i].key, k) {
        LessTransitive(es[0].key, es[i].key, k);
      }
    }
  }

  /** `find`: the value stored under `k`, if any. */
  function Get<V>(es: seq<Entry<V>>, k: string): (r: Option<V>)
    requires Sorted(es)
    ensures r.Some? <==> k in Keys(es)
    ensures r.Some? ==> exists i :: 0 <= i < |es| && es[i] == Entry(k, r.value)
  {
    var p := LowerBound(es, k);
    if p < |es| && es[p].key == k then
      Some(es[p].value)
    else
      assert k !in Keys(es) by {
        forall i | 0 <= i < |es|
          ensures es[i].key != k
        {
          LessIrreflexive(k);
          if p < i {
            assert Less(es[p].key, es[i].key);
          }
        }
      }
      None
  }

  /** A key occurs at most once: a stored entry is what `Get` finds. */
  lemma GetAt<V>(es: seq<Entry<V>>, i: nat)
    requires Sorted(es) && i < |es|
    ensures Get(es, es[i].key) == Some(es[i].value)
  {
    LowerBoundAt(es, i);
  }

  /** The lower bound of a stored key is that key's own position. */
  lemma {:induction false} LowerBoundAt<V>(es: seq<Entry<V>>, i: nat)
    requires Sorted(es) && i < |es|
    ensures LowerBound(es, es[i].key) == i
  {
    LessIrreflexive(es[i].key);
    if i > 0 {
      assert Less(es[0].key, es[i].key);
      assert es[1..][i - 1] == es[i];
      LowerBoundAt(es[1..], i - 1);
    }
  }

  /** `insert_or_assign(k, v)`. */
  function Put<V>(es: seq<Entry<V>>, k: string, v: V): (r: seq<Entry<V>>)
    requires Sorted(es)
    ensures Sorted(r)
    ensures Keys(r) == Keys(es) + {k}
  {
    var p := LowerBound(es, k);
    if p < |es| && es[p].key == k then
      var r := es[p := Entry(k, v)];
      assert Keys(r) == Keys(es) by {
        assert forall i :: 0 <= i < |es| ==> r[i].key == es[i].key;
      }
      r
    else
      InsertKeepsSorted(es, p, k, v);
      es[..p] + [Entry(k, v)] + es[p..]
  }

  /** Inserting a new key at its lower bound keeps the keys ascending and
      adds exactly that key. */
  lemma InsertKeepsSorted<V>(es: seq<Entry<V>>, p: nat, k: string, v: V)
    requires Sorted(es) && p == LowerBound(es, k) && !(p < |es| && es[p].key == k)
    ensures Sorted(es[..p] + [Entry(k, v)] + es[p..])
    ensures Keys(es[..p] + [Entry(k, v)] + es[p..]) == Keys(es) + {k}
  {
    var r := es[..p] + [Entry(k, v)] + es[p..];
    InsertedAt(es, p, k, v);
    forall j | p <= j < |es|
      ensures Less(k, es[j].key)
    {
      LessTotal(k, es[j].key);
    }
    forall i, j | 0 <= i < j < |r|
      ensures Less(r[i].key, r[j].key)
    {
      if i < p && j > p {
        LessTransitive(es[i].key, k, es[j - 1].key);
      }
    }
    InsertedKeys(es, p, k, v);
  }

  /** Where the entries of an insertion at `p` come from. */
  lemma InsertedAt<V>(es: seq<Entry<V>>, p: nat, k: string, v: V)
    requires p <= |es|
    ensures var r := es[..p] + [Entry(k, v)] + es[p..];
      |r| == |es| + 1 &&
      forall i :: 0 <= i < |r| ==> r[i] == if i < p then es[i] else if i == p then Entry(k, v) else es[i - 1]
  {
  }

  lemma InsertedKeys<V>(es: seq<Entry<V>>, p: nat, k: string, v: V)
    requires p <= |es|
    ensures Keys(es[..p] + [Entry(k, v)] + es[p..]) == Keys(es) + {k}
  {
    var r := es[..p] + [Entry(k, v)] + es[p..];
    InsertedAt(es, p, k, v);
    forall x | x in Keys(es) + {k}
      ensures x in Keys(r)
    {
      if x != k {
        var i :| 0 <= i < |es| && es[i].key == x;
        if i < p { assert r[i].key == x; } else { assert r[i + 1].key == x; }
      } else {
        assert r[p].key == k;
      }
    }
  }

  /** `erase(k)`: removes the entry for `k`, if there is one. */
  function Remove<V>(es: seq<Entry<V>>, k: string): (r: seq<Entry<V>>)
    requires Sorted(es)
    ensures Sorted(r)
    ensures Keys(r) == Keys(es) - {k}
  {
    var p := LowerBound(es, k);
    if p < |es| && es[p].key == k then
      var r := es[..p] + es[p + 1..];
      assert forall i :: 0 <= i < |r| ==> r[i] == if i < p then es[i] else es[i + 1];
      assert Keys(r) == Keys(es) - {k} by {
        forall x | x in Keys(es) - {k}
          ensures x in Keys(r)
        {
          var i :| 0 <= i < |es| && es[i].key == x;
          if i < p { assert r[i].key == x; } else { assert r[i - 1].key == x; }
        }
        forall i | 0 <= i < |r|
          ensures r[i].key != k
        {
          if i < p {
            LessIrreflexive(k);
          } else {
            LessIrreflexive(k);
            assert Less(es[p].key, es[i + 1].key);
          }
        }
      }
      r
    else
      assert Get(es, k) == None;
      es
  }

  lemma GetPut<V>(es: seq<Entry<V>>, k: string, v: V, k': string)
    requires Sorted(es)
    ensures Get(Put(es, k, v), k') == if k' == k then Some(v) else Get(es, k')
  {
    if k' == k {
      GetPutSame(es, k, v);
    } else {
      GetPutOther(es, k, v, k');
    }
  }

  lemma GetPutSame<V>(es: seq<Entry<V>>, k: string, v: V)
    requires Sorted(es)
    ensures Get(Put(es, k, v), k) == Some(v)
  {
    var r := Put(es, k, v);
    var p := LowerBound(es, k);
    if p < |es| && es[p].key == k {
      assert r[p] == Entry(k, v);
    } else {
      InsertedAt(es, p, k, v);
    }
    GetAt(r, p);
  }

  lemma GetPutOther<V>(es: seq<Entry<V>>, k: string, v: V, k': string)
    requires Sorted(es) && k' != k
    ensures Get(Put(es, k, v), k') == Get(es, k')
  {
    var r := Put(es, k, v);
    if k' in Keys(es) {
      var i :| 0 <= i < |es| && es[i].key == k';
      var at := PutKeepsEntry(es, k, v, i);
      GetAt(es, i);
      GetAt(r, at);
    } else {
      assert k' !in Keys(r);
    }
  }

  /** Every entry under another key is still there after `Put`. */
  lemma PutKeepsEntry<V>(es: seq<Entry<V>>, k: string, v: V, i: nat) returns (at: nat)
    requires Sorted(es) && i < |es| && es[i].key != k
    ensures at < |Put(es, k, v)| && Put(es, k, v)[at] == es[i]
  {
    var p := LowerBound(es, k);
    if p < |es| && es[p].key == k {
      at := i;
    } else {
      InsertedAt(es, p, k, v);
      at := if i < p then i else i + 1;
    }
  }

  lemma GetRemove<V>(es: seq<Entry<V>>, k: string, k': string)
    requires Sorted(es)
    ensures Get(Remove(es, k), k') == if k' == k then None else Get(es, k')
  {
    var r := Remove(es, k);
    var p := LowerBound(es, k);
    if k' != k && k' in Keys(es) {
      var i :| 0 <= i < |es| && es[i].key == k';
      GetAt(es, i);
      if p < |es| && es[p].key == k {
        if i < p {
          assert r[i] == es[i];
          GetAt(r, i);
        } else {
          assert i != p;
          assert r[i - 1] == es[i];
          GetAt(r, i - 1);
        }
      }
    }
  }
}
