/**
 * The JavaScript `Map<string, V>` that the diff builds: keys in insertion
 * order, at most once each.
 */
module LineMaps {
  /**
   * A JavaScript `Map` keyed by line: its keys in insertion order and, at
   * the same positions, their values.
   */
  datatype LineMap<V> = LineMap(keys: seq<string>, vals: seq<V>)
  {
    /** As many values as keys, and no key twice. */
    ghost predicate Valid()
    {
      |keys| == |vals| && Distinct(keys)
    }

    /** `map.size`. */
    function Size(): nat
    {
      |keys|
    }

    /** `map.has(key)`. */
    predicate Has(key: string)
    {
      IndexOf(keys, key) >= 0
    }

    /** `map.get(key)`. */
    function Get(key: string): V
      requires Valid() && Has(key)
    {
      vals[IndexOf(keys, key)]
    }

    /** `map.set(key, value)`: a new key goes last, an old key keeps its place. */
    function Set(key: string, value: V): (m: LineMap<V>)
      requires Valid()
      ensures m.Valid()
      ensures m.Has(key) && m.Get(key) == value
      ensures Has(key) ==> m.keys == keys && m.vals == vals[IndexOf(keys, key) := value]
      ensures !Has(key) ==> m.keys == keys + [key] && m.vals == vals + [value]
    {
      var p := IndexOf(keys, key);
      if p >= 0 then LineMap(keys, vals[p := value])
      else LineMap(keys + [key], vals + [value])
    }
  }

  /** No element occurs twice. */
  ghost predicate Distinct(keys: seq<string>)
  {
    forall p, q :: 0 <= p < q < |keys| ==> keys[p] != keys[q]
  }

  /** The position of `key` in `keys`, or -1 when it is absent. */
  function IndexOf(keys: seq<string>, key: string): (r: int)
    ensures -1 <= r < |keys|
    ensures r >= 0 ==> keys[r] == key
    ensures r < 0 ==> forall p :: 0 <= p < |keys| ==> keys[p] != key
  {
    if keys == [] then -1
    else if keys[|keys| - 1] == key then |keys| - 1
    else IndexOf(keys[..|keys| - 1], key)
  }
}
