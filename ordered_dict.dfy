/** A Python `dict` as an association list: keys keep the order in which
    they were first inserted, and writing an existing key replaces its value
    where it stands. */
module OrderedDict {
  import opened Wrappers

  type Dict<K, V> = seq<(K, V)>

  function Keys<K, V>(d: Dict<K, V>): (ks: seq<K>)
    ensures |ks| == |d| && forall i :: 0 <= i < |d| ==> ks[i] == d[i].0
  {
    if d == [] then [] else [d[0].0] + Keys(d[1..])
  }

  predicate HasKey<K(==), V>(d: Dict<K, V>, k: K) {
    exists i :: 0 <= i < |d| && d[i].0 == k
  }

  predicate DistinctKeys<K(==), V>(d: Dict<K, V>) {
    forall i, j :: 0 <= i < j < |d| ==> d[i].0 != d[j].0
  }

  /** Position of `k`, the first one if the list repeats it. */
  function IndexOf<K(==), V>(d: Dict<K, V>, k: K): (r: Option<nat>)
    ensures r.Some? ==> r.value < |d| && d[r.value].0 == k
    ensures r.Some? ==> forall j :: 0 <= j < r.value ==> d[j].0 != k
    ensures r.None? <==> !HasKey(d, k)
  {
    if d == [] then None
    else if d[0].0 == k then Some(0)
    else match IndexOf(d[1..], k)
      case None => None
      case Some(i) => Some(i + 1)
  }

  /** Python `d.get(k)`. */
  function Get<K(==), V>(d: Dict<K, V>, k: K): (r: Option<V>)
    ensures r.Some? <==> HasKey(d, k)
    ensures r.Some? ==> exists i :: 0 <= i < |d| && d[i] == (k, r.value)
  {
    match IndexOf(d, k)
    case None => None
    case Some(i) => Some(d[i].1)
  }

  /** Python `d[k] = v`: the new value is read back under `k`, and every
      other key reads as before. */
  function Put<K(==,!new), V>(d: Dict<K, V>, k: K, v: V): (r: Dict<K, V>)
    ensures Get(r, k) == Some(v)
    ensures forall k' :: k' != k ==> Get(r, k') == Get(d, k')
  {
    match IndexOf(d, k)
    case None =>
      assert forall k' :: k' != k ==> IndexOf(d + [(k, v)], k') == IndexOf(d, k') by {
        forall k' | k' != k ensures IndexOf(d + [(k, v)], k') == IndexOf(d, k') {
          IndexOfAppend(d, k, v, k');
        }
      }
      IndexOfAppend(d, k, v, k);
      d + [(k, v)]
    case Some(i) =>
      var r := d[i := (k, v)];
      assert forall k' :: IndexOf(r, k') == IndexOf(d, k') by {
        forall k' ensures IndexOf(r, k') == IndexOf(d, k') {
          IndexOfReplace(d, i, k, v, k');
        }
      }
      r
  }

  /** Writing an existing key keeps the key order; a new key goes last. */
  lemma PutKeys<K(!new), V>(d: Dict<K, V>, k: K, v: V)
    ensures HasKey(d, k) ==> Keys(Put(d, k, v)) == Keys(d)
    ensures !HasKey(d, k) ==> Keys(Put(d, k, v)) == Keys(d) + [k]
  {
  }

  /** Writing a key never repeats one. */
  lemma PutDistinct<K(!new), V>(d: Dict<K, V>, k: K, v: V)
    requires DistinctKeys(d)
    ensures DistinctKeys(Put(d, k, v))
  {
    match IndexOf(d, k)
    case None =>
    case Some(i) =>
      var r := d[i := (k, v)];
      assert forall j :: 0 <= j < |d| ==> r[j].0 == d[j].0;
  }

  /** After `d[k] = v` the keys are those of `d` and `k`. */
  lemma PutHasKey<K(!new), V>(d: Dict<K, V>, k: K, v: V, h: K)
    ensures HasKey(Put(d, k, v), h) <==> HasKey(d, h) || h == k
  {
    if h != k {
      assert Get(Put(d, k, v), h) == Get(d, h);
    }
  }

  /** The keys of two lists one after the other are those of either. */
  lemma HasKeyConcat<K, V>(d: Dict<K, V>, e: Dict<K, V>, h: K)
    ensures HasKey(d + e, h) <==> HasKey(d, h) || HasKey(e, h)
  {
    if HasKey(d + e, h) {
      var i :| 0 <= i < |d + e| && (d + e)[i].0 == h;
      if i < |d| { assert d[i] == (d + e)[i]; } else { assert e[i - |d|] == (d + e)[i]; }
    }
    if HasKey(d, h) {
      var i :| 0 <= i < |d| && d[i].0 == h;
      assert (d + e)[i] == d[i];
    }
    if HasKey(e, h) {
      var i :| 0 <= i < |e| && e[i].0 == h;
      assert (d + e)[|d| + i] == e[i];
    }
  }

  /** A new key is appended. */
  lemma PutNew<K(!new), V>(d: Dict<K, V>, k: K, v: V)
    requires !HasKey(d, k)
    ensures Put(d, k, v) == d + [(k, v)]
  {
  }

  /** Writing again the key that was appended last replaces its value. */
  lemma PutLast<K(!new), V>(d: Dict<K, V>, k: K, v: V, v': V)
    requires !HasKey(d, k)
    ensures Put(d + [(k, v)], k, v') == d + [(k, v')]
  {
    IndexOfAppend(d, k, v, k);
    assert (d + [(k, v)])[|d| := (k, v')] == d + [(k, v')];
  }

  lemma {:induction false} IndexOfAppend<K, V>(d: Dict<K, V>, k: K, v: V, k': K)
    requires !HasKey(d, k)
    ensures IndexOf(d + [(k, v)], k') == if k' == k then Some(|d|) else IndexOf(d, k')
  {
    if d != [] {
      assert (d + [(k, v)])[1..] == d[1..] + [(k, v)];
      if d[0].0 != k' {
        IndexOfAppend(d[1..], k, v, k');
      }
    }
  }

  lemma {:induction false} IndexOfReplace<K, V>(d: Dict<K, V>, i: nat, k: K, v: V, k': K)
    requires i < |d| && d[i].0 == k
    ensures IndexOf(d[i := (k, v)], k') == IndexOf(d, k')
  {
    if i > 0 && d[0].0 != k' {
      assert d[i := (k, v)][1..] == d[1..][i - 1 := (k, v)];
      IndexOfReplace(d[1..], i - 1, k, v, k');
    }
  }
}
