/** Python dictionaries: a map that remembers insertion order, and sums over its entries. */
module Dicts {
  import opened Prelude

  datatype Dict<!K(==), V> = Dict(keys: seq<K>, entries: map<K, V>) {

    ghost predicate Valid() {
      && (forall i, j :: 0 <= i < j < |keys| ==> keys[i] != keys[j])
      && (forall k :: k in keys ==> k in entries)
      && (forall k :: k in entries ==> k in keys)
    }

    function Get(k: K, default: V): V {
      if k in entries then entries[k] else default
    }

    function Set(k: K, v: V): Dict<K, V> {
      Dict(if k in entries then keys else keys + [k], entries[k := v])
    }
  }

  function Empty<K(==), V>(): Dict<K, V> {
    Dict([], map[])
  }

  lemma SetValid<K, V>(d: Dict<K, V>, k: K, v: V)
    requires d.Valid()
    ensures d.Set(k, v).Valid()
  {
  }

  lemma GetSet<K, V>(d: Dict<K, V>, k: K, v: V, x: K, default: V)
    ensures d.Set(k, v).Get(x, default) == if x == k then v else d.Get(x, default)
    ensures x in d.Set(k, v).entries <==> x == k || x in d.entries
  {
  }

  // The sum of f over the first n entries.
  function SumTo<K, V>(d: Dict<K, V>, f: (K, V) -> real, n: nat): real
    requires n <= |d.keys| && forall k :: k in d.keys ==> k in d.entries
  {
    if n == 0 then 0.0 else SumTo(d, f, n - 1) + f(d.keys[n - 1], d.entries[d.keys[n - 1]])
  }

  ghost function Sum<K, V>(d: Dict<K, V>, f: (K, V) -> real): real
    requires d.Valid()
  {
    SumTo(d, f, |d.keys|)
  }

  lemma {:induction false} SumUntouched<K, V>(d: Dict<K, V>, k: K, v: V, f: (K, V) -> real, n: nat)
    requires d.Valid() && n <= |d.keys| && forall i :: 0 <= i < n ==> d.keys[i] != k
    ensures forall x :: x in d.Set(k, v).keys ==> x in d.Set(k, v).entries
    ensures SumTo(d.Set(k, v), f, n) == SumTo(d, f, n)
  {
    SetValid(d, k, v);
    if n > 0 {
      SumUntouched(d, k, v, f, n - 1);
    }
  }

  lemma {:induction false} SumReplaced<K, V>(d: Dict<K, V>, k: K, v: V, f: (K, V) -> real, n: nat)
    requires d.Valid() && k in d.entries && n <= |d.keys| && k in d.keys[..n]
    ensures forall x :: x in d.Set(k, v).keys ==> x in d.Set(k, v).entries
    ensures SumTo(d.Set(k, v), f, n) == SumTo(d, f, n) + f(k, v) - f(k, d.entries[k])
  {
    SetValid(d, k, v);
    if d.keys[n - 1] == k {
      SumUntouched(d, k, v, f, n - 1);
    } else {
      assert k in d.keys[..n - 1];
      SumReplaced(d, k, v, f, n - 1);
    }
  }

  // Writing one entry changes a sum by that entry alone.
  lemma SumSet<K, V>(d: Dict<K, V>, k: K, v: V, f: (K, V) -> real)
    requires d.Valid()
    ensures d.Set(k, v).Valid()
    ensures Sum(d.Set(k, v), f) == Sum(d, f) + f(k, v) - if k in d.entries then f(k, d.entries[k]) else 0.0
  {
    SetValid(d, k, v);
    if k in d.entries {
      assert d.keys[..|d.keys|] == d.keys;
      SumReplaced(d, k, v, f, |d.keys|);
    } else {
      SumUntouched(d, k, v, f, |d.keys|);
    }
  }

  // Two sums over the same keys that agree entry by entry agree.
  lemma {:induction false} SumSame<K, V, W>(d: Dict<K, V>, e: Dict<K, W>, f: (K, V) -> real, g: (K, W) -> real, n: nat)
    requires d.Valid() && e.Valid() && d.keys == e.keys && n <= |d.keys|
    requires forall k :: k in d.entries ==> f(k, d.entries[k]) == g(k, e.entries[k])
    ensures SumTo(d, f, n) == SumTo(e, g, n)
  {
    if n > 0 {
      SumSame(d, e, f, g, n - 1);
    }
  }

  // Two summands that differ at one key only.
  lemma {:induction false} SumChangedAt<K, V>(d: Dict<K, V>, f: (K, V) -> real, g: (K, V) -> real, key: K, n: nat)
    requires d.Valid() && n <= |d.keys|
    requires forall k :: k in d.entries && k != key ==> f(k, d.entries[k]) == g(k, d.entries[k])
    ensures SumTo(d, g, n) == SumTo(d, f, n)
              + if key in d.keys[..n] then g(key, d.entries[key]) - f(key, d.entries[key]) else 0.0
  {
    if n > 0 {
      SumChangedAt(d, f, g, key, n - 1);
      assert d.keys[..n] == d.keys[..n - 1] + [d.keys[n - 1]];
    }
  }

  lemma SumPatched<K, V>(d: Dict<K, V>, f: (K, V) -> real, g: (K, V) -> real, key: K)
    requires d.Valid()
    requires forall k :: k in d.entries && k != key ==> f(k, d.entries[k]) == g(k, d.entries[k])
    ensures Sum(d, g) == Sum(d, f) + if key in d.entries then g(key, d.entries[key]) - f(key, d.entries[key]) else 0.0
  {
    SumChangedAt(d, f, g, key, |d.keys|);
    assert d.keys[..|d.keys|] == d.keys;
  }

  // A sum of sums, entry by entry.
  lemma {:induction false} SumAdds<K, V>(d: Dict<K, V>, f: (K, V) -> real, g: (K, V) -> real, h: (K, V) -> real, n: nat)
    requires d.Valid() && n <= |d.keys|
    requires forall k :: k in d.entries ==> f(k, d.entries[k]) == g(k, d.entries[k]) + h(k, d.entries[k])
    ensures SumTo(d, f, n) == SumTo(d, g, n) + SumTo(d, h, n)
  {
    if n > 0 {
      SumAdds(d, f, g, h, n - 1);
    }
  }
}
