/** A Python dict: a map whose keys also keep the order of first insertion,
    which is the order a `for key in d` loop visits them. */
module PyDict {

  datatype Dict<K(==), V> = Dict(keys: seq<K>, items: map<K, V>) {

    ghost predicate Valid() {
      && (forall i, j :: 0 <= i < j < |keys| ==> keys[i] != keys[j])
      && items.Keys == set i | 0 <= i < |keys| :: keys[i]
    }

    /** `d[k] = v`: a new key goes to the end of the order; an existing key
        keeps its place and takes the new value. */
    function Put(k: K, v: V): (d: Dict<K, V>)
      requires Valid()
      ensures d.Valid()
      ensures d.items == items[k := v]
      ensures d.keys == if k in items then keys else keys + [k]
    {
      if k in items then Dict(keys, items[k := v])
      else
        KeySetAppend(keys, k);
        Dict(keys + [k], items[k := v])
    }
  }

  lemma KeySetAppend<K>(keys: seq<K>, k: K)
    ensures (set i | 0 <= i < |keys + [k]| :: (keys + [k])[i]) == (set i | 0 <= i < |keys| :: keys[i]) + {k}
  {
    var ks := keys + [k];
    var before := set i | 0 <= i < |keys| :: keys[i];
    var after := set i | 0 <= i < |ks| :: ks[i];
    forall x | x in before + {k}
      ensures x in after
    {
      if x == k {
        assert ks[|keys|] == x;
      } else {
        var i :| 0 <= i < |keys| && keys[i] == x;
        assert ks[i] == x;
      }
    }
  }

  /** Every key in the order is a key of the map. */
  lemma KeyAt<K, V>(d: Dict<K, V>, i: int)
    requires d.Valid() && 0 <= i < |d.keys|
    ensures d.keys[i] in d.items
  {
    var ks := set k | 0 <= k < |d.keys| :: d.keys[k];
    assert d.keys[i] in ks;
  }

  function Empty<K(==), V>(): (d: Dict<K, V>)
    ensures d.Valid() && d.keys == [] && d.items == map[]
  {
    Dict([], map[])
  }
}
