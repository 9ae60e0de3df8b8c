/** Grouping items in a HashMap from a key to the list of values with that key, the
    pattern `if (!map.containsKey(k)) map.put(k, new ArrayList()); map.get(k).add(v)`
    that the simplifiers and the loader share. The keys are kept in insertion order;
    the order in which the map is then iterated is `Arrange` of that order. */
module Grouping {
  import opened Common

  /** The keys of the kept items, each once, in the order they first occur. */
  function Keys<T, K(==)>(items: seq<T>, keep: T -> bool, key: T -> K): seq<K>
  {
    if |items| == 0 then []
    else
      var keys := Keys(items[..|items| - 1], keep, key);
      var last := items[|items| - 1];
      if keep(last) && key(last) !in keys then keys + [key(last)] else keys
  }

  /** The values of the kept items with key `k`, in order: the list the map holds
      for `k`. */
  function Bucket<T, K(==), V>(items: seq<T>, keep: T -> bool, key: T -> K, val: T -> V, k: K): (r: seq<V>)
    ensures |r| <= |items|
  {
    if |items| == 0 then []
    else
      var last := items[|items| - 1];
      Bucket(items[..|items| - 1], keep, key, val, k) + (if keep(last) && key(last) == k then [val(last)] else [])
  }

  /** A key is in the map exactly when some kept item has it. */
  lemma {:induction false} KeysBucket<T, K, V>(items: seq<T>, keep: T -> bool, key: T -> K, val: T -> V, k: K)
    ensures k in Keys(items, keep, key) <==> |Bucket(items, keep, key, val, k)| > 0
    decreases |items|
  {
    if |items| > 0 {
      KeysBucket(items[..|items| - 1], keep, key, val, k);
    }
  }

  /** The key of every kept item is in the map. */
  lemma {:induction false} KeysCover<T, K>(items: seq<T>, keep: T -> bool, key: T -> K, i: nat)
    requires i < |items| && keep(items[i])
    ensures key(items[i]) in Keys(items, keep, key)
    decreases |items|
  {
    var init := items[..|items| - 1];
    if i < |init| {
      assert init[i] == items[i];
      KeysCover(init, keep, key, i);
    }
  }

  /** Every key in the map is the key of a kept item. */
  lemma KeysFrom<T, K>(items: seq<T>, keep: T -> bool, key: T -> K, k: K)
    requires k in Keys(items, keep, key)
    ensures exists i :: 0 <= i < |items| && keep(items[i]) && key(items[i]) == k
  {
    KeysBucket(items, keep, key, key, k);
    var b := Bucket(items, keep, key, key, k);
    BucketFrom(items, keep, key, key, k, b[0]);
  }

  /** The map never holds a key twice. */
  lemma {:induction false} KeysDistinct<T, K>(items: seq<T>, keep: T -> bool, key: T -> K)
    ensures Distinct(Keys(items, keep, key))
    decreases |items|
  {
    if |items| > 0 {
      KeysDistinct(items[..|items| - 1], keep, key);
    }
  }

  /** Every value in a bucket comes from a kept item with the bucket's key. */
  lemma {:induction false} BucketFrom<T, K, V>(items: seq<T>, keep: T -> bool, key: T -> K, val: T -> V, k: K, v: V)
    requires v in Bucket(items, keep, key, val, k)
    ensures exists i :: 0 <= i < |items| && keep(items[i]) && key(items[i]) == k && val(items[i]) == v
    decreases |items|
  {
    var init := items[..|items| - 1];
    if v in Bucket(init, keep, key, val, k) {
      BucketFrom(init, keep, key, val, k, v);
      var i :| 0 <= i < |init| && keep(init[i]) && key(init[i]) == k && val(init[i]) == v;
      assert items[i] == init[i];
    } else {
      assert val(items[|items| - 1]) == v;
    }
  }

  /** The map after one more item. */
  lemma GroupStep<T, K, V>(items: seq<T>, keep: T -> bool, key: T -> K, val: T -> V, i: nat)
    requires i < |items|
    ensures var t := items[i]; var keys := Keys(items[..i], keep, key);
      Keys(items[..i + 1], keep, key) == if keep(t) && key(t) !in keys then keys + [key(t)] else keys
    ensures var t := items[i];
      forall k :: Bucket(items[..i + 1], keep, key, val, k)
        == Bucket(items[..i], keep, key, val, k) + (if keep(t) && key(t) == k then [val(t)] else [])
  {
    assert items[..i + 1][..i] == items[..i];
  }

  /** The grouping loop: a map from each key of a kept item to the values of the
      kept items with that key, and its keys in insertion order. */
  method GroupBy<T, K(==), V>(items: seq<T>, keep: T -> bool, key: T -> K, val: T -> V)
    returns (keys: seq<K>, groups: map<K, seq<V>>)
    ensures keys == Keys(items, keep, key)
    ensures forall k :: k in groups <==> k in keys
    ensures forall k :: k in groups ==> groups[k] == Bucket(items, keep, key, val, k)
  {
    keys := [];
    groups := map[];
    for i := 0 to |items|
      invariant keys == Keys(items[..i], keep, key)
      invariant forall k :: k in groups <==> k in keys
      invariant forall k :: k in groups ==> groups[k] == Bucket(items[..i], keep, key, val, k)
    {
      var t := items[i];
      GroupStep(items, keep, key, val, i);
      if keep(t) {
        var k := key(t);
        var prior: seq<V> := [];
        if k in groups {
          prior := groups[k];
        } else {
          KeysBucket(items[..i], keep, key, val, k);
          keys := keys + [k];
        }
        assert prior == Bucket(items[..i], keep, key, val, k);
        ghost var before := groups;
        groups := groups[k := prior + [val(t)]];
        forall k' | k' in groups
          ensures groups[k'] == Bucket(items[..i + 1], keep, key, val, k')
        {
          if k' != k {
            assert groups[k'] == before[k'];
          } else {
            assert groups[k'] == prior + [val(t)];
          }
        }
      }
    }
    assert items[..|items|] == items;
  }
}
