/**
 * Typed load/save/remove over a key-value backend (factory/src/state.rs).
 * Values are kept as typed values; their binary serialization is not modelled.
 */
module Store {
  import opened Wrappers
  import opened Types

  /** `may_load`: the value stored under `key`, if any. */
  function MayLoad<K, V>(st: map<K, V>, key: K): Option<V> {
    if key in st then Some(st[key]) else None
  }

  /** `save`: a later `may_load` of `key` yields `value`; other keys are untouched. */
  function Save<K(!new), V>(st: map<K, V>, key: K, value: V): (r: map<K, V>)
    ensures MayLoad(r, key) == Some(value)
    ensures forall k :: k != key ==> MayLoad(r, k) == MayLoad(st, k)
  {
    st[key := value]
  }

  /** `remove`: a later `may_load` of `key` yields nothing; other keys are untouched. */
  function Remove<K(!new), V>(st: map<K, V>, key: K): (r: map<K, V>)
    ensures MayLoad(r, key) == None
    ensures forall k :: k != key ==> MayLoad(r, k) == MayLoad(st, k)
  {
    st - {key}
  }

  /**
   * `load`: like `may_load`, but a missing key is a `NotFound` error naming
   * the requested type.
   */
  function Load<K, V>(st: map<K, V>, key: K, typeName: string): (r: Result<V, StdError>)
    ensures r.Ok? <==> MayLoad(st, key).Some?
    ensures r.Ok? ==> MayLoad(st, key) == Some(r.value)
    ensures r.Err? ==> r.error == NotFound(typeName)
  {
    match MayLoad(st, key)
    case Some(v) => Ok(v)
    case None => Err(NotFound(typeName))
  }

  /** Loading a key right after saving it returns the saved value. */
  lemma LoadAfterSave<K(!new), V>(st: map<K, V>, key: K, value: V, typeName: string)
    ensures Load(Save(st, key, value), key, typeName) == Ok(value)
  {
  }

  /** Loading a key right after removing it fails with `NotFound`. */
  lemma LoadAfterRemove<K(!new), V>(st: map<K, V>, key: K, typeName: string)
    ensures Load(Remove(st, key), key, typeName) == Err(NotFound(typeName))
  {
  }
}
