/** Datatypes and map lookups shared by every module. */
module Wrappers {

  datatype Option<+T> = None | Some(value: T)

  datatype Result<+R, +E> = Ok(value: R) | Err(error: E)

  /** The value a map holds for a key, if any. */
  function Lookup<K, V>(m: map<K, V>, k: K): Option<V> {
    if k in m then Some(m[k]) else None
  }

  /** Two maps that answer every lookup alike are equal. */
  lemma LookupExtensional<K(!new), V>(a: map<K, V>, b: map<K, V>)
    requires forall k :: Lookup(a, k) == Lookup(b, k)
    ensures a == b
  {
    forall k
      ensures k in a <==> k in b
      ensures k in a ==> a[k] == b[k]
    {
      assert Lookup(a, k) == Lookup(b, k);
    }
  }

  /** The map that holds `f(k)` for each of the keys. */
  ghost function Tabulate<K(!new), V>(keys: set<K>, f: K -> V): (m: map<K, V>)
    ensures m.Keys == keys
    ensures forall k :: k in keys ==> m[k] == f(k)
  {
    if keys == {} then map[]
    else
      var k :| k in keys;
      Tabulate(keys - {k}, f)[k := f(k)]
  }

  /** The same keys, each with `f` of its value. */
  ghost function MapValues<K(!new), V, W>(m: map<K, V>, f: V -> W): (n: map<K, W>)
    ensures n.Keys == m.Keys
    ensures forall k :: k in m ==> n[k] == f(m[k])
    decreases |m|
  {
    if m == map[] then map[]
    else
      var k :| k in m;
      MapValues(m - {k}, f)[k := f(m[k])]
  }

  /** Subtraction that stops at zero. */
  function SatSub(a: nat, b: nat): nat {
    if a <= b then 0 else a - b
  }
}
