/** Python's dict: a map that remembers in which order its keys were first inserted. */
module Dicts {
  import opened Sorting

  datatype Dict<K(==), V> = Dict(keys: seq<K>, at: map<K, V>)

  /** d[key] = value */
  function Put<K(==), V>(d: Dict<K, V>, key: K, value: V): Dict<K, V> {
    Dict(if key in d.at then d.keys else d.keys + [key], d.at[key := value])
  }

  /** The listing holds every key once. */
  ghost predicate Listed<K(!new), V>(d: Dict<K, V>) {
    && (forall i :: 0 <= i < |d.keys| ==> d.keys[i] in d.at)
    && (forall key :: key in d.at ==> key in d.keys)
    && forall i, j :: 0 <= i < j < |d.keys| ==> d.keys[i] != d.keys[j]
  }

  lemma PutListed<K(!new), V>(d: Dict<K, V>, key: K, value: V)
    requires Listed(d)
    ensures Listed(Put(d, key, value))
  {
    var next := Put(d, key, value);
    forall k | k in next.at
      ensures k in next.keys
    {
      if k != key {
        assert k in d.keys;
      } else if key !in d.at {
        assert next.keys[|d.keys|] == key;
      }
    }
  }

  /** sorted(d.items()) */
  function SortedItems<K(!new, ==), V>(d: Dict<K, V>, less: (K, K) -> bool): (items: seq<(K, V)>)
    requires Listed(d)
    ensures |items| == |d.keys|
    ensures forall i :: 0 <= i < |items| ==>
              items[i].0 == Sort(d.keys, less)[i] && items[i].0 in d.at && items[i].1 == d.at[items[i].0]
  {
    var keys := Sort(d.keys, less);
    SortElements(d.keys, less);
    assert forall i :: 0 <= i < |keys| ==> keys[i] in keys && keys[i] in d.at;
    seq(|keys|, i requires 0 <= i < |keys| => (keys[i], d.at[keys[i]]))
  }
}
