/**
 * A Python dict as its list of key/value entries in insertion order, each key held once:
 * the JSON objects the decoder returns and the table behind `functools.lru_cache`.
 */
module Dict {
  import opened Wrappers

  /** `d.get(key)`: the value stored under `key`, or `None`. */
  function Get<K(==), V>(entries: seq<(K, V)>, key: K): (r: Option<V>)
    ensures r.None? <==> forall i :: 0 <= i < |entries| ==> entries[i].0 != key
    ensures r.Some? ==> exists i :: 0 <= i < |entries| && entries[i] == (key, r.value)
  {
    if entries == [] then None
    else if entries[0].0 == key then Some(entries[0].1)
    else Get(entries[1..], key)
  }

  /** `d.get(key, default)`. */
  function GetOr<K(==), V>(entries: seq<(K, V)>, key: K, default: V): V {
    match Get(entries, key)
    case Some(v) => v
    case None => default
  }

  /**
   * `d[key] = value`: an existing key keeps its place and takes the new value; a new key
   * goes at the end.
   */
  function Put<K(==,!new), V>(entries: seq<(K, V)>, key: K, value: V): (r: seq<(K, V)>)
    ensures Get(r, key) == Some(value)
    ensures forall k :: k != key ==> Get(r, k) == Get(entries, k)
    ensures |r| == |entries| + (if Get(entries, key).None? then 1 else 0)
    ensures forall i :: 0 <= i < |entries| ==> r[i].0 == entries[i].0
  {
    if entries == [] then [(key, value)]
    else if entries[0].0 == key then [(key, value)] + entries[1..]
    else [entries[0]] + Put(entries[1..], key, value)
  }

  /** Storing a key the dict lacks appends it after every existing entry. */
  lemma {:induction false} PutAbsentAppends<K(!new), V>(entries: seq<(K, V)>, key: K, value: V)
    requires Get(entries, key).None?
    ensures Put(entries, key, value) == entries + [(key, value)]
  {
    if entries != [] {
      assert entries[0].0 != key;
      assert Get(entries[1..], key) == Get(entries, key);
      PutAbsentAppends(entries[1..], key, value);
      assert Put(entries, key, value) == [entries[0]] + (entries[1..] + [(key, value)]);
      assert entries == [entries[0]] + entries[1..];
    }
  }
}
