/**
 * The keyed, insertion-ordered container behind every offspring index. The
 * real container comes from an external library; this module is an assumed
 * model of it: a sequence of distinct keys in insertion order plus the value
 * stored under each key, with `paging(p, s)` returning the values at
 * positions `[p*s, min(p*s + s, len))`.
 */
module CashMaps {
  import opened Wrappers

  predicate Distinct<K(==,!new)>(s: seq<K>) {
    forall i, j :: 0 <= i < j < |s| ==> s[i] != s[j]
  }

  datatype CashMap<K, V> = CashMap(keys: seq<K>, vals: map<K, V>)

  /** Every stored key is listed exactly once. */
  predicate Valid<K(==,!new), V>(m: CashMap<K, V>) {
    && Distinct(m.keys)
    && (forall k :: k in m.keys ==> k in m.vals)
    && (forall k :: k in m.vals ==> k in m.keys)
  }

  /** The map a never-written storage key reads as. */
  function Empty<K(==,!new), V>(): (m: CashMap<K, V>)
    ensures Valid(m)
    ensures m.vals == map[]
  {
    CashMap([], map[])
  }

  function Get<K(==,!new), V>(m: CashMap<K, V>, k: K): Option<V> {
    if k in m.vals then Some(m.vals[k]) else None
  }

  /** `s` with every occurrence of `k` dropped, the rest in order. */
  function Without<K(==,!new)>(s: seq<K>, k: K): (r: seq<K>)
    ensures forall x :: x in r <==> x in s && x != k
    ensures |r| <= |s|
    ensures k !in s ==> r == s
    ensures Distinct(s) ==> Distinct(r)
  {
    if s == [] then []
    else if s[0] == k then Without(s[1..], k)
    else
      var rest := Without(s[1..], k);
      assert Distinct(s) ==> s[0] !in s[1..];
      [s[0]] + rest
  }

  /**
   * `insert`: stores `v` under `k`. A new key goes to the end of the order;
   * an existing key keeps its position.
   */
  function Insert<K(==,!new), V>(m: CashMap<K, V>, k: K, v: V): (r: CashMap<K, V>)
    ensures Get(r, k) == Some(v)
    ensures forall k' :: k' != k ==> Get(r, k') == Get(m, k')
    ensures k in m.vals ==> r.keys == m.keys
    ensures k !in m.vals ==> r.keys == m.keys + [k]
    ensures Valid(m) ==> Valid(r)
  {
    if k in m.vals then CashMap(m.keys, m.vals[k := v])
    else CashMap(m.keys + [k], m.vals[k := v])
  }

  /**
   * `remove`: drops `k`, keeping the remaining keys in order. Removing an
   * absent key changes nothing.
   */
  function Remove<K(==,!new), V>(m: CashMap<K, V>, k: K): (r: CashMap<K, V>)
    ensures Get(r, k) == None
    ensures forall k' :: k' != k ==> Get(r, k') == Get(m, k')
    ensures Valid(m) ==> Valid(r)
    ensures Valid(m) && k !in m.vals ==> r == m
  {
    CashMap(Without(m.keys, k), m.vals - {k})
  }

  /** The values stored under `keys`, in the order of `keys`. */
  function ValuesOf<K(==,!new), V(==)>(keys: seq<K>, vals: map<K, V>): (r: seq<V>)
    ensures |r| <= |keys|
    ensures forall i :: 0 <= i < |r| ==> r[i] in vals.Values
  {
    if keys == [] then []
    else (if keys[0] in vals then [vals[keys[0]]] else []) + ValuesOf(keys[1..], vals)
  }

  /** The stored values in insertion order. */
  function Values<K(==,!new), V(==)>(m: CashMap<K, V>): seq<V> {
    ValuesOf(m.keys, m.vals)
  }

  lemma {:induction false} ValuesOfAllPresent<K(!new), V>(keys: seq<K>, vals: map<K, V>)
    requires forall k :: k in keys ==> k in vals
    ensures |ValuesOf(keys, vals)| == |keys|
    ensures forall i :: 0 <= i < |keys| ==> ValuesOf(keys, vals)[i] == vals[keys[i]]
  {
    if keys != [] {
      ValuesOfAllPresent(keys[1..], vals);
    }
  }

  /** In a well-formed map the listed values are those of the keys, position by position. */
  lemma ValuesInKeyOrder<K(!new), V>(m: CashMap<K, V>)
    requires Valid(m)
    ensures |Values(m)| == |m.keys|
    ensures forall i :: 0 <= i < |m.keys| ==> Values(m)[i] == m.vals[m.keys[i]]
  {
    ValuesOfAllPresent(m.keys, m.vals);
  }

  function Min(a: int, b: int): int {
    if a < b then a else b
  }

  /**
   * `paging(page, size)`: the `page`-th run of `size` values, cut short at
   * the end of the map and empty past it.
   */
  function Paging<K(==,!new), V(==)>(m: CashMap<K, V>, page: nat, size: nat): (r: seq<V>)
    ensures |r| <= size
    ensures forall i :: 0 <= i < |r| ==> r[i] in m.vals.Values
    ensures page * size <= |Values(m)| ==> r == Values(m)[page * size..Min(page * size + size, |Values(m)|)]
    ensures page * size >= |Values(m)| ==> r == []
  {
    Values(m)[Min(page * size, |Values(m)|)..Min(page * size + size, |Values(m)|)]
  }

  /** All pages from `page` on, concatenated in page order. */
  function PagesFrom<K(==,!new), V(==)>(m: CashMap<K, V>, size: nat, page: nat): seq<V>
    requires size > 0
    decreases |Values(m)| - page * size
  {
    if page * size >= |Values(m)| then []
    else
      assert (page + 1) * size == page * size + size;
      Paging(m, page, size) + PagesFrom(m, size, page + 1)
  }

  /** A suffix is the run up to `hi` followed by the suffix from `hi`. */
  lemma SliceSplit<T>(s: seq<T>, lo: nat, hi: nat)
    requires lo <= hi <= |s|
    ensures s[lo..] == s[lo..hi] + s[hi..]
  {
  }

  /** One unfolding of `PagesFrom` on a page that starts inside the values. */
  lemma PagesFromStep<K(!new), V>(m: CashMap<K, V>, size: nat, page: nat)
    requires size > 0
    requires page * size < |Values(m)|
    ensures (page + 1) * size == page * size + size
    ensures PagesFrom(m, size, page) == Values(m)[page * size..Min(page * size + size, |Values(m)|)] + PagesFrom(m, size, page + 1)
    ensures page * size + size >= |Values(m)| ==> PagesFrom(m, size, page + 1) == []
  {
  }

  lemma {:induction false} PagesFromSuffix<K(!new), V>(m: CashMap<K, V>, size: nat, page: nat)
    requires size > 0
    requires page * size <= |Values(m)|
    ensures PagesFrom(m, size, page) == Values(m)[page * size..]
    decreases |Values(m)| - page * size
  {
    var all := Values(m);
    var lo: nat := page * size;
    if lo < |all| {
      PagesFromStep(m, size, page);
      if lo + size <= |all| {
        PagesFromSuffix(m, size, page + 1);
        SliceSplit(all, lo, lo + size);
      }
    }
  }

  /**
   * Paging is complete and non-overlapping: for any page size of at least
   * one, the pages in order concatenate to exactly the stored values.
   */
  lemma PagingCovers<K(!new), V>(m: CashMap<K, V>, size: nat)
    requires size > 0
    ensures PagesFrom(m, size, 0) == Values(m)
  {
    PagesFromSuffix(m, size, 0);
  }
}
