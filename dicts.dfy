/** Python dicts whose iteration order matters: a map together with its insertion order. */
module Dicts {
  import opened Seqs

  /** A Python dict: its entries, and its keys in the order they were first inserted. */
  datatype Dict<K(==), V> = Dict(order: seq<K>, entries: map<K, V>)
  {
    /** The order lists every key exactly once. */
    predicate Valid()
    {
      && NoDuplicates(order)
      && (forall k :: k in order ==> k in entries)
      && (forall k :: k in entries ==> k in order)
    }

    /** `d[key] = value`: a new key goes last, an existing key keeps its place and gets the new value. */
    function Put(key: K, value: V): (d: Dict<K, V>)
      requires Valid()
      ensures d.Valid()
      ensures d.entries.Keys == entries.Keys + {key} && d.entries[key] == value
      ensures forall k :: k in entries && k != key ==> d.entries[k] == entries[k]
      ensures key in entries ==> d.order == order
      ensures key !in entries ==> d.order == order + [key]
    {
      Dict(if key in entries then order else order + [key], entries[key := value])
    }
  }

  /** The empty dict `{}`. */
  function Empty<K, V>(): (d: Dict<K, V>)
    ensures d.Valid() && d.entries == map[] && d.order == []
  {
    Dict([], map[])
  }

  /** The order in which a dict lists its keys after `d[k] = ...` for each `k` of `keys` in turn. */
  function InsertionOrder<K(==)>(keys: seq<K>): (r: seq<K>)
    ensures NoDuplicates(r)
    ensures forall k :: k in r ==> k in keys
    ensures forall k :: k in keys ==> k in r
  {
    if keys == [] then []
    else
      var init := keys[..|keys| - 1];
      var last := keys[|keys| - 1];
      var o := InsertionOrder(init);
      assert keys == init + [last];
      if last in o then o else o + [last]
  }

  /**
   * The insertion order lists the keys in the order they first occur: of two keys,
   * the one listed earlier occurs in `keys` before the other occurs at all.
   */
  lemma {:induction false} InsertionOrderSubsequence<K>(keys: seq<K>)
    ensures IsSubsequence(InsertionOrder(keys), keys)
    ensures forall i, j :: 0 <= i < j < |InsertionOrder(keys)| ==>
      OccursFirst(keys, InsertionOrder(keys)[i], InsertionOrder(keys)[j])
  {
    if keys != [] {
      var init := keys[..|keys| - 1];
      var last := keys[|keys| - 1];
      var o := InsertionOrder(init);
      InsertionOrderSubsequence(init);
      assert keys == init + [last];
      forall i, j | 0 <= i < j < |o|
        ensures OccursFirst(keys, o[i], o[j])
      {
        assert OccursFirst(init, o[i], o[j]);
        var p :| 0 <= p < |init| && init[p] == o[i] && o[j] !in init[..p + 1];
        assert keys[..p + 1] == init[..p + 1];
      }
      if last !in o {
        var r := o + [last];
        assert r[..|o|] == o;
        forall i, j | 0 <= i < j < |r|
          ensures OccursFirst(keys, r[i], r[j])
        {
          if j == |o| {
            assert o[i] in init;
            var p :| 0 <= p < |init| && init[p] == o[i];
            assert keys[..p + 1] == init[..p + 1];
            assert last !in init;
          } else {
            assert r[i] == o[i] && r[j] == o[j];
          }
        }
      }
    }
  }

  /** Inserting keys that are all different keeps them in their own order. */
  lemma {:induction false} InsertionOrderDistinct<K>(keys: seq<K>)
    requires NoDuplicates(keys)
    ensures InsertionOrder(keys) == keys
  {
    if keys != [] {
      var init := keys[..|keys| - 1];
      InsertionOrderDistinct(init);
      assert keys == init + [keys[|keys| - 1]];
    }
  }

  /** Inserting the keys one after another, starting from `{}`, yields `InsertionOrder`. */
  lemma {:induction false} PutOrder<K, V>(d: Dict<K, V>, keys: seq<K>, key: K, value: V)
    requires d.Valid() && d.order == InsertionOrder(keys)
    ensures d.Put(key, value).order == InsertionOrder(keys + [key])
  {
    assert (keys + [key])[..|keys|] == keys;
  }
}
