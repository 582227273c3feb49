/**
 A JavaScript `Map` as the in-memory store uses it: entries kept in insertion
 order, `get` returning undefined for a missing key, `set` replacing the value
 of an existing key in place and appending a new key at the end, and
 `Array.from(map.values())` listing values in insertion order.
 */
module JsMap {
  import opened Seqs

  datatype Entry<K, V> = Entry(key: K, value: V)

  type Table<K, V> = seq<Entry<K, V>>

  function Keys<K(==), V>(t: Table<K, V>): set<K> {
    set i | 0 <= i < |t| :: t[i].key
  }

  predicate DistinctKeys<K(==), V>(t: Table<K, V>) {
    forall i, j :: 0 <= i < j < |t| ==> t[i].key != t[j].key
  }

  /** `map.get(k)` */
  function Get<K(==), V>(t: Table<K, V>, k: K): (r: Option<V>)
    ensures r.None? <==> k !in Keys(t)
    ensures r.Some? ==> exists i :: 0 <= i < |t| && t[i] == Entry(k, r.value)
  {
    if |t| == 0 then None
    else if t[0].key == k then Some(t[0].value)
    else
      var r := Get(t[1..], k);
      KeysCons(t);
      assert r.Some? ==> exists i :: 0 <= i < |t| && t[i] == Entry(k, r.value) by {
        if r.Some? {
          var i :| 0 <= i < |t[1..]| && t[1..][i] == Entry(k, r.value);
          assert t[i + 1] == Entry(k, r.value);
        }
      }
      r
  }

  /** `map.set(k, v)` */
  function Set<K(==,!new), V>(t: Table<K, V>, k: K, v: V): (r: Table<K, V>)
    ensures k !in Keys(t) ==> r == t + [Entry(k, v)]
    ensures k in Keys(t) ==> |r| == |t| && forall i :: 0 <= i < |t| ==> r[i].key == t[i].key
  {
    if |t| == 0 then [Entry(k, v)]
    else if t[0].key == k then [Entry(k, v)] + t[1..]
    else
      var rest := Set(t[1..], k, v);
      KeysCons(t);
      var r := [t[0]] + rest;
      assert r[1..] == rest;
      r
  }

  /** After `set(k, v)`, `get(k)` gives `v` and every other key reads as before. */
  lemma {:induction false} SetGet<K(!new), V>(t: Table<K, V>, k: K, v: V)
    ensures Get(Set(t, k, v), k) == Some(v)
    ensures forall k' :: k' != k ==> Get(Set(t, k, v), k') == Get(t, k')
  {
    if |t| > 0 && t[0].key != k {
      SetGet(t[1..], k, v);
      var r := Set(t, k, v);
      assert r[1..] == Set(t[1..], k, v);
    }
  }

  lemma KeysCons<K, V>(t: Table<K, V>)
    requires |t| > 0
    ensures Keys(t) == {t[0].key} + Keys(t[1..])
  {
    forall x | x in Keys(t) ensures x in {t[0].key} + Keys(t[1..]) {
      var i :| 0 <= i < |t| && t[i].key == x;
      if i > 0 { assert t[1..][i - 1].key == x; }
    }
  }

  lemma DistinctCons<K, V>(t: Table<K, V>)
    requires |t| > 0
    ensures DistinctKeys(t) <==> t[0].key !in Keys(t[1..]) && DistinctKeys(t[1..])
  {
    if DistinctKeys(t) {
      forall i | 0 <= i < |t[1..]| ensures t[1..][i].key != t[0].key {
        assert t[1..][i] == t[i + 1];
      }
    }
    if t[0].key !in Keys(t[1..]) && DistinctKeys(t[1..]) {
      forall i, j | 0 <= i < j < |t| ensures t[i].key != t[j].key {
        assert t[j].key == t[1..][j - 1].key;
        if i > 0 { assert t[i].key == t[1..][i - 1].key; }
      }
    }
  }

  /** `set` adds its key to the key set and never creates a second entry for a key. */
  lemma {:induction false} SetKeys<K(!new), V>(t: Table<K, V>, k: K, v: V)
    ensures Keys(Set(t, k, v)) == Keys(t) + {k}
    ensures DistinctKeys(t) ==> DistinctKeys(Set(t, k, v))
  {
    var r := Set(t, k, v);
    if |t| == 0 {
      assert Keys(r) == {k} by { KeysCons(r); }
    } else if t[0].key == k {
      KeysCons(r);
      KeysCons(t);
      assert r[1..] == t[1..];
      DistinctCons(r);
      DistinctCons(t);
    } else {
      var rest := Set(t[1..], k, v);
      SetKeys(t[1..], k, v);
      assert r[1..] == rest;
      KeysCons(r);
      KeysCons(t);
      DistinctCons(r);
      DistinctCons(t);
    }
  }

  /** `Array.from(map.values())` */
  function Values<K, V>(t: Table<K, V>): (r: seq<V>)
    ensures |r| == |t|
    ensures forall i :: 0 <= i < |t| ==> r[i] == t[i].value
  {
    seq(|t|, i requires 0 <= i < |t| => t[i].value)
  }

  lemma ValuesAppend<K, V>(t: Table<K, V>, u: Table<K, V>)
    ensures Values(t + u) == Values(t) + Values(u)
  {
  }
}
