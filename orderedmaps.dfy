/**
 * Insertion-ordered dictionaries (Python's `dict` and `OrderedDict`):
 * a map together with the sequence of its keys in the order they were
 * first inserted. Overwriting a key keeps its position.
 */
module OrderedMaps {

  datatype OrdMap<K(==, !new), V> = OrdMap(keys: seq<K>, m: map<K, V>) {

    /** The key sequence lists every key of the map exactly once. */
    ghost predicate Wf() {
      && (forall i, j :: 0 <= i < j < |keys| ==> keys[i] != keys[j])
      && (forall k :: k in keys <==> k in m)
    }

    /** `d[k] = v` */
    function Put(k: K, v: V): (r: OrdMap<K, V>)
      ensures r.m == m[k := v]
      ensures Wf() ==> r.Wf()
      ensures k in m ==> r.keys == keys
      ensures k !in m ==> r.keys == keys + [k]
    {
      OrdMap(if k in m then keys else keys + [k], m[k := v])
    }
  }

  function Empty<K(==, !new), V>(): (r: OrdMap<K, V>)
    ensures r.Wf() && r.m == map[]
  {
    OrdMap([], map[])
  }

  /** `a.update(b)`: every entry of `b` is put into `a`, in `b`'s key order. */
  function Update<K(==, !new), V>(a: OrdMap<K, V>, bkeys: seq<K>, b: map<K, V>): (r: OrdMap<K, V>)
    requires forall k :: k in bkeys ==> k in b
    ensures a.Wf() ==> r.Wf()
    ensures forall k :: k in r.m <==> k in a.m || k in bkeys
    ensures forall k :: k in bkeys ==> r.m[k] == b[k]
    ensures forall k :: k in a.m && k !in bkeys ==> r.m[k] == a.m[k]
    decreases |bkeys|
  {
    if bkeys == [] then a
    else
      var last := bkeys[|bkeys| - 1];
      Update(a, bkeys[..|bkeys| - 1], b).Put(last, b[last])
  }

  /** Putting the same key twice keeps only the second value. */
  lemma {:induction false} PutPut<K(!new), V>(d: OrdMap<K, V>, k: K, v: V, w: V)
    ensures d.Put(k, v).Put(k, w) == d.Put(k, w)
  {
    assert d.m[k := v][k := w] == d.m[k := w];
  }

  /** Every listed key is a key of the map. */
  lemma {:induction false} KeysInMap<K(!new), V>(d: OrdMap<K, V>)
    requires d.Wf()
    ensures forall i :: 0 <= i < |d.keys| ==> d.keys[i] in d.m
  {
    forall i | 0 <= i < |d.keys| ensures d.keys[i] in d.m {
      assert d.keys[i] in d.keys;
    }
  }
}
