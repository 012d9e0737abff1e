/**
 * A PHP array used as a dictionary: keys in insertion order, each key at most
 * once. `$a[$k] = $v` replaces the value of an existing key in its place and adds a
 * new key at the end; `array_values` lists the values in key order.
 */
module OrderedMap {
  import opened Wrappers

  datatype Pair<K, V> = Pair(key: K, val: V)

  /** The position of a key, if it is there. */
  function KeyIndex<K(==), V>(m: seq<Pair<K, V>>, k: K): (r: Option<nat>)
    ensures r.Some? ==> r.value < |m| && m[r.value].key == k
    ensures r.None? ==> forall p :: p in m ==> p.key != k
  {
    if |m| == 0 then None
    else if m[|m| - 1].key == k then Some(|m| - 1)
    else
      var r := KeyIndex(m[..|m| - 1], k);
      assert forall p :: p in m ==> p in m[..|m| - 1] || p == m[|m| - 1] by {
        assert m == m[..|m| - 1] + [m[|m| - 1]];
      }
      r
  }

  /** `isset`-style key test (values here are never null). */
  predicate HasKey<K(==), V>(m: seq<Pair<K, V>>, k: K)
  {
    KeyIndex(m, k).Some?
  }

  /** `$a[$k]` when the key is there. */
  function Get<K(==), V>(m: seq<Pair<K, V>>, k: K): (r: Option<V>)
    ensures r.Some? <==> HasKey(m, k)
    ensures r.Some? ==> Pair(k, r.value) in m
  {
    match KeyIndex(m, k)
    case Some(j) => Some(m[j].val)
    case None => None
  }

  /** `$a[$k] = $v`. */
  function Put<K(==), V>(m: seq<Pair<K, V>>, k: K, v: V): (r: seq<Pair<K, V>>)
    ensures KeyIndex(m, k).Some? ==> |r| == |m| && r[KeyIndex(m, k).value] == Pair(k, v)
    ensures KeyIndex(m, k).None? ==> |r| == |m| + 1 && r[|m|] == Pair(k, v)
    ensures forall i :: 0 <= i < |m| && m[i].key != k ==> r[i] == m[i]
    ensures forall i :: 0 <= i < |m| && KeyIndex(m, k) != Some(i) ==> r[i] == m[i]
  {
    match KeyIndex(m, k)
    case Some(j) => m[j := Pair(k, v)]
    case None => m + [Pair(k, v)]
  }

  /** The keys in order. */
  function Keys<K, V>(m: seq<Pair<K, V>>): (r: seq<K>)
    ensures |r| == |m| && forall i :: 0 <= i < |m| ==> r[i] == m[i].key
  {
    seq(|m|, i requires 0 <= i < |m| => m[i].key)
  }

  /** `array_values`: the values in key order. */
  function Values<K, V>(m: seq<Pair<K, V>>): (r: seq<V>)
    ensures |r| == |m| && forall i :: 0 <= i < |m| ==> r[i] == m[i].val
  {
    seq(|m|, i requires 0 <= i < |m| => m[i].val)
  }

  /** Every key occurs once. */
  ghost predicate DistinctKeys<K, V>(m: seq<Pair<K, V>>)
  {
    forall i, j :: 0 <= i < j < |m| ==> m[i].key != m[j].key
  }

  /** A key is present exactly when it is one of the keys. */
  lemma HasKeyIffInKeys<K, V>(m: seq<Pair<K, V>>, k: K)
    ensures HasKey(m, k) <==> k in Keys(m)
  {
  }

  /** Reading the key just written gives the value written. */
  lemma GetPutSame<K, V>(m: seq<Pair<K, V>>, k: K, v: V)
    requires DistinctKeys(m)
    ensures Get(Put(m, k, v), k) == Some(v)
  {
    var r := Put(m, k, v);
    PutKeepsDistinct(m, k, v);
    var j := if KeyIndex(m, k).Some? then KeyIndex(m, k).value else |m|;
    assert r[j] == Pair(k, v);
    var i := KeyIndex(r, k).value;
    assert r[i].key == k;
  }

  /** Writing one key leaves every other key's value alone. */
  lemma GetPutOther<K, V>(m: seq<Pair<K, V>>, k: K, v: V, k2: K)
    requires DistinctKeys(m) && k2 != k
    ensures Get(Put(m, k, v), k2) == Get(m, k2)
  {
    var r := Put(m, k, v);
    PutKeepsDistinct(m, k, v);
    assert forall i :: 0 <= i < |m| ==> r[i].key == m[i].key;
    match KeyIndex(m, k2)
    case Some(j) =>
      assert r[j] == m[j];
      var i := KeyIndex(r, k2).value;
      assert i == j;
    case None =>
  }

  /** Writing never gives a key a second place. */
  lemma PutKeepsDistinct<K, V>(m: seq<Pair<K, V>>, k: K, v: V)
    requires DistinctKeys(m)
    ensures DistinctKeys(Put(m, k, v))
  {
    var r := Put(m, k, v);
    assert forall i :: 0 <= i < |m| ==> r[i].key == m[i].key;
    if KeyIndex(m, k).None? {
      forall i | 0 <= i < |m| ensures r[i].key != r[|m|].key {
        assert m[i] in m;
      }
    }
  }

  /** Writing keeps the keys there were, in their order, and adds a new key at the end. */
  lemma PutKeys<K, V>(m: seq<Pair<K, V>>, k: K, v: V)
    ensures Keys(Put(m, k, v)) == if HasKey(m, k) then Keys(m) else Keys(m) + [k]
  {
    var r := Put(m, k, v);
    assert forall i :: 0 <= i < |m| ==> r[i].key == m[i].key;
  }

  /** After writing a key, exactly the old keys and the written one are there. */
  lemma PutHasKey<K, V>(m: seq<Pair<K, V>>, k: K, v: V, k2: K)
    ensures HasKey(Put(m, k, v), k2) <==> HasKey(m, k2) || k2 == k
  {
    PutKeys(m, k, v);
    HasKeyIffInKeys(m, k2);
    HasKeyIffInKeys(Put(m, k, v), k2);
  }

  /** `array_merge` for string keys: each pair of `b` in turn written over `a`. */
  function Merge<K(==), V>(a: seq<Pair<K, V>>, b: seq<Pair<K, V>>): (r: seq<Pair<K, V>>)
    decreases |b|
  {
    if b == [] then a else Put(Merge(a, b[..|b| - 1]), b[|b| - 1].key, b[|b| - 1].val)
  }

  /** Merging maps whose keys are all different places `b` after `a`, unchanged. */
  lemma {:induction false} MergeDistinct<K, V>(a: seq<Pair<K, V>>, b: seq<Pair<K, V>>)
    requires DistinctKeys(a + b)
    ensures Merge(a, b) == a + b
    decreases |b|
  {
    if b != [] {
      var n := |b|;
      var front := b[..n - 1];
      var m := a + front;
      var k := b[n - 1].key;
      assert a + b == m + [b[n - 1]];
      forall i, j | 0 <= i < j < |m| ensures m[i].key != m[j].key {
        assert m[i] == (a + b)[i] && m[j] == (a + b)[j];
      }
      MergeDistinct(a, front);
      forall i | 0 <= i < |m| ensures m[i].key != k {
        assert m[i] == (a + b)[i] && (a + b)[|m|] == b[n - 1];
      }
      assert KeyIndex(m, k).None?;
    }
  }
}
