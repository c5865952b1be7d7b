/**
 An insertion-ordered map from names to values, as a JavaScript `Map` (and the
 discord.js `Collection` built on it) behaves: keys iterate in the order they
 were first set, and setting an existing key replaces its value in place.
 */
module OrderedMaps {
  import opened Wrappers

  datatype Entries<V> = Entries(keys: seq<string>, values: map<string, V>)
  {
    /** Keys are listed once each, and exactly the keys that carry a value are listed. */
    ghost predicate Valid() {
      && (forall i, j :: 0 <= i < j < |keys| ==> keys[i] != keys[j])
      && (forall k :: k in values <==> k in keys)
    }
  }

  type OrderedMap<V> = m: Entries<V> | m.Valid() witness Entries([], map[])

  function Empty<V>(): (m: OrderedMap<V>)
    ensures |m.keys| == 0 && m.values == map[]
  {
    Entries([], map[])
  }

  /** `map.get(key)`. */
  function Get<V>(m: OrderedMap<V>, key: string): (r: Option<V>)
    ensures r.Some? <==> key in m.keys
    ensures r.Some? ==> key in m.values && r.value == m.values[key]
  {
    if key in m.values then Some(m.values[key]) else None
  }

  /**
   `map.set(key, value)`: a new key goes to the end of the iteration order; an
   existing key keeps its position and only its value changes.
   */
  function Set<V>(m: OrderedMap<V>, key: string, value: V): (r: OrderedMap<V>)
    ensures r.values == m.values[key := value]
    ensures key in m.keys ==> r.keys == m.keys
    ensures key !in m.keys ==> r.keys == m.keys + [key]
  {
    if key in m.values then
      Entries(m.keys, m.values[key := value])
    else
      var r := Entries(m.keys + [key], m.values[key := value]);
      assert forall i, j :: 0 <= i < j < |r.keys| ==> r.keys[i] != r.keys[j] by {
        forall i, j | 0 <= i < j < |r.keys|
          ensures r.keys[i] != r.keys[j]
        {
          if j == |m.keys| {
            assert r.keys[i] == m.keys[i];
          }
        }
      }
      r
  }

  /** A value set under a key is the value read back under it. */
  lemma GetSet<V>(m: OrderedMap<V>, key: string, value: V)
    ensures Get(Set(m, key, value), key) == Some(value)
  {
  }
}
