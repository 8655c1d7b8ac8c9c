/**
 * Python dictionaries as the readers use them: a finite map together with the
 * order in which its keys were first inserted (the order export follows).
 */
module Tables {
  import opened Wrappers

  datatype Table<K(==), V> = Table(keys: seq<K>, entries: map<K, V>) {

    /** Keys are listed once each, and exactly the keys of the map are listed. */
    ghost predicate Valid() {
      && (forall i, j :: 0 <= i < j < |keys| ==> keys[i] != keys[j])
      && (forall k :: k in entries ==> k in keys)
      && (forall i :: 0 <= i < |keys| ==> keys[i] in entries)
    }

    /** Python's `d.get(k, None)`. */
    function Get(k: K): (r: Option<V>)
      ensures r.Some? <==> k in entries
      ensures r.Some? ==> r.value == entries[k]
    {
      if k in entries then Some(entries[k]) else None
    }

    /** Python's `d[k] = v`: an existing key keeps its place, a new key goes last. */
    function Put(k: K, v: V): (t: Table<K, V>)
      ensures Valid() ==> t.Valid()
      ensures t.entries == entries[k := v]
      ensures k in entries ==> t.keys == keys
      ensures k !in entries ==> t.keys == keys + [k]
    {
      Table(if k in entries then keys else keys + [k], entries[k := v])
    }
  }

  function Empty<K(==), V>(): (t: Table<K, V>)
    ensures t.Valid() && t.keys == [] && t.entries == map[]
  {
    Table([], map[])
  }

  /**
   * `d[k].append(w)` when `k` is present, `d[k] = [w]` otherwise: `k`'s list
   * gains `w` at its end and no other key changes.
   */
  function AppendTo<K(==,!new), W>(t: Table<K, seq<W>>, k: K, w: W): (r: Table<K, seq<W>>)
    ensures t.Valid() ==> r.Valid()
    ensures r.Get(k) == Some((if k in t.entries then t.entries[k] else []) + [w])
    ensures forall k' :: k' != k ==> r.Get(k') == t.Get(k')
    ensures k in t.entries ==> r.keys == t.keys
    ensures k !in t.entries ==> r.keys == t.keys + [k]
  {
    t.Put(k, (if k in t.entries then t.entries[k] else []) + [w])
  }
}
