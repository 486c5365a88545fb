// A map from session ids that remembers the order of first insertion.
module IndexMap {
  import opened Wrappers

  datatype IndexMap<V> = IndexMap(keys: seq<string>, values: map<string, V>)

  ghost predicate Distinct<T>(s: seq<T>) {
    forall i, j :: 0 <= i < j < |s| ==> s[i] != s[j]
  }

  ghost predicate Ordered<V>(m: IndexMap<V>) {
    Distinct(m.keys) && forall key :: key in m.keys <==> key in m.values
  }

  function EmptyMap<V>(): IndexMap<V> {
    IndexMap([], map[])
  }

  function Get<V>(m: IndexMap<V>, key: string): Option<V> {
    if key in m.values then Some(m.values[key]) else None
  }

  function Put<V>(m: IndexMap<V>, key: string, value: V): IndexMap<V> {
    IndexMap(if key in m.values then m.keys else m.keys + [key], m.values[key := value])
  }

  function Dropped(keys: seq<string>, key: string): seq<string> {
    if keys == [] then []
    else (if keys[0] == key then [] else [keys[0]]) + Dropped(keys[1..], key)
  }

  // `shift_remove`
  function Without<V>(m: IndexMap<V>, key: string): IndexMap<V> {
    IndexMap(Dropped(m.keys, key), m.values - {key})
  }

  lemma PutKeepsOrdered<V>(m: IndexMap<V>, key: string, value: V)
    requires Ordered(m)
    ensures Ordered(Put(m, key, value))
  {
  }

  lemma {:induction false} DroppedHas(keys: seq<string>, key: string)
    requires Distinct(keys)
    ensures forall k :: k in Dropped(keys, key) <==> k in keys && k != key
    ensures Distinct(Dropped(keys, key))
  {
    if keys != [] {
      assert keys == [keys[0]] + keys[1..];
      DroppedHas(keys[1..], key);
      var rest := Dropped(keys[1..], key);
      assert Dropped(keys, key) == (if keys[0] == key then [] else [keys[0]]) + rest;
      assert keys[0] !in rest by {
        assert keys[0] !in keys[1..];
      }
      assert Distinct([keys[0]] + rest);
    }
  }

  lemma WithoutKeepsOrdered<V>(m: IndexMap<V>, key: string)
    requires Ordered(m)
    ensures Ordered(Without(m, key))
  {
    DroppedHas(m.keys, key);
  }
}
