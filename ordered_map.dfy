/**
 * A JavaScript `Map`: key/value entries in insertion order. Setting an
 * existing key replaces its value in place, a new key goes to the end, and
 * iteration (`keys()`, `values()`) follows that order.
 */
module OrderedMap {
  import opened Wrappers

  type Entries<K, V> = seq<(K, V)>

  ghost predicate UniqueKeys<K, V>(m: Entries<K, V>)
  {
    forall i, j :: 0 <= i < j < |m| ==> m[i].0 != m[j].0
  }

  function Keys<K, V>(m: Entries<K, V>): (ks: seq<K>)
    ensures |ks| == |m| && forall i :: 0 <= i < |m| ==> ks[i] == m[i].0
  {
    if m == [] then [] else [m[0].0] + Keys(m[1..])
  }

  function Values<K, V>(m: Entries<K, V>): (vs: seq<V>)
    ensures |vs| == |m| && forall i :: 0 <= i < |m| ==> vs[i] == m[i].1
  {
    if m == [] then [] else [m[0].1] + Values(m[1..])
  }

  predicate Has<K(==), V>(m: Entries<K, V>, k: K)
  {
    exists i :: 0 <= i < |m| && m[i].0 == k
  }

  /** `m.get(k)`: the value of the entry for `k`, if any. */
  function Get<K(==), V>(m: Entries<K, V>, k: K): (r: Option<V>)
    ensures r.None? <==> !Has(m, k)
    ensures r.Some? ==> exists i :: 0 <= i < |m| && m[i] == (k, r.value)
  {
    if m == [] then None else if m[0].0 == k then Some(m[0].1) else Get(m[1..], k)
  }

  /** `m.set(k, v)`. */
  function Put<K(==), V>(m: Entries<K, V>, k: K, v: V): (r: Entries<K, V>)
  {
    if m == [] then [(k, v)]
    else if m[0].0 == k then [(k, v)] + m[1..]
    else [m[0]] + Put(m[1..], k, v)
  }

  /** `m.delete(k)`. */
  function Remove<K(==), V>(m: Entries<K, V>, k: K): (r: Entries<K, V>)
  {
    if m == [] then [] else if m[0].0 == k then Remove(m[1..], k) else [m[0]] + Remove(m[1..], k)
  }

  lemma {:induction false} PutGet<K, V>(m: Entries<K, V>, k: K, v: V, k2: K)
    ensures Get(Put(m, k, v), k2) == if k2 == k then Some(v) else Get(m, k2)
    decreases |m|
  {
    if m != [] && m[0].0 != k {
      PutGet(m[1..], k, v, k2);
    }
  }

  /** Setting a key keeps the order of the other keys and appends a new key at the end. */
  lemma {:induction false} PutKeys<K, V>(m: Entries<K, V>, k: K, v: V)
    ensures Keys(Put(m, k, v)) == if Has(m, k) then Keys(m) else Keys(m) + [k]
    decreases |m|
  {
    if m != [] && m[0].0 != k {
      PutKeys(m[1..], k, v);
      if Has(m[1..], k) {
        assert Has(m, k);
      } else {
        assert !Has(m, k) by {
          forall i | 0 <= i < |m| ensures m[i].0 != k {
            if i > 0 {
              assert m[1..][i - 1] == m[i];
            }
          }
        }
      }
    } else if m != [] {
      assert Has(m, k);
    }
  }

  /** A key not yet present is appended as a new last entry. */
  lemma {:induction false} PutNew<K, V>(m: Entries<K, V>, k: K, v: V)
    requires !Has(m, k)
    ensures Put(m, k, v) == m + [(k, v)]
    decreases |m|
  {
    if m != [] {
      assert !Has(m[1..], k) by {
        forall i | 0 <= i < |m[1..]| ensures m[1..][i].0 != k {
          assert m[1..][i] == m[i + 1];
        }
      }
      PutNew(m[1..], k, v);
      assert [m[0]] + (m[1..] + [(k, v)]) == m + [(k, v)];
    }
  }

  lemma {:induction false} PutUnique<K, V>(m: Entries<K, V>, k: K, v: V)
    requires UniqueKeys(m)
    ensures UniqueKeys(Put(m, k, v))
  {
    PutKeys(m, k, v);
    var r := Put(m, k, v);
    forall i, j | 0 <= i < j < |r| ensures r[i].0 != r[j].0 {
      assert Keys(r)[i] == r[i].0 && Keys(r)[j] == r[j].0;
      if !Has(m, k) && j == |m| {
        assert Keys(m)[i] == m[i].0;
      } else {
        assert Keys(m)[i] == m[i].0 && Keys(m)[j] == m[j].0;
      }
    }
  }

  lemma {:induction false} RemoveGet<K, V>(m: Entries<K, V>, k: K, k2: K)
    ensures Get(Remove(m, k), k2) == if k2 == k then None else Get(m, k2)
    decreases |m|
  {
    if m != [] {
      RemoveGet(m[1..], k, k2);
    }
  }

  /** Removing a key that is absent changes nothing. */
  lemma {:induction false} RemoveAbsent<K, V>(m: Entries<K, V>, k: K)
    requires !Has(m, k)
    ensures Remove(m, k) == m
    decreases |m|
  {
    if m != [] {
      assert !Has(m[1..], k) by {
        forall i | 0 <= i < |m[1..]| ensures m[1..][i].0 != k {
          assert m[1..][i] == m[i + 1];
        }
      }
      RemoveAbsent(m[1..], k);
    }
  }

  /** Deleting the first key of a map drops its first entry: the earliest-inserted one. */
  lemma RemoveFirst<K, V>(m: Entries<K, V>)
    requires m != [] && UniqueKeys(m)
    ensures Remove(m, Keys(m)[0]) == m[1..]
  {
    assert !Has(m[1..], m[0].0) by {
      forall i | 0 <= i < |m[1..]| ensures m[1..][i].0 != m[0].0 {
        assert m[1..][i] == m[i + 1];
      }
    }
    RemoveAbsent(m[1..], m[0].0);
  }

  /** `for (const v of vs) m.set(key(v), v)`. */
  function PutAll<K(==), V>(m: Entries<K, V>, vs: seq<V>, key: V -> K): Entries<K, V>
  {
    if vs == [] then m else Put(PutAll(m, vs[..|vs| - 1], key), key(vs[|vs| - 1]), vs[|vs| - 1])
  }

  /** The last element of `vs` with key `k`, if any. */
  function LastKeyed<K(==), V>(vs: seq<V>, key: V -> K, k: K): (r: Option<V>)
    ensures r.None? <==> forall i :: 0 <= i < |vs| ==> key(vs[i]) != k
    ensures r.Some? ==> r.value in vs && key(r.value) == k
  {
    if vs == [] then None
    else if key(vs[|vs| - 1]) == k then Some(vs[|vs| - 1])
    else
      assert forall i :: 0 <= i < |vs| - 1 ==> vs[..|vs| - 1][i] == vs[i];
      LastKeyed(vs[..|vs| - 1], key, k)
  }

  /**
   * After the loop each key holds the last element set under it, and a key
   * no element has keeps its old value.
   */
  lemma {:induction false} PutAllGet<K, V>(m: Entries<K, V>, vs: seq<V>, key: V -> K, k: K)
    ensures Get(PutAll(m, vs, key), k) == if LastKeyed(vs, key, k).Some? then LastKeyed(vs, key, k) else Get(m, k)
    decreases |vs|
  {
    if vs != [] {
      PutAllGet(m, vs[..|vs| - 1], key, k);
      PutGet(PutAll(m, vs[..|vs| - 1], key), key(vs[|vs| - 1]), vs[|vs| - 1], k);
    }
  }

  /** The keys present before keep their places at the front. */
  lemma {:induction false} PutAllKeysPrefix<K, V>(m: Entries<K, V>, vs: seq<V>, key: V -> K)
    ensures |Keys(m)| <= |Keys(PutAll(m, vs, key))| && Keys(PutAll(m, vs, key))[..|m|] == Keys(m)
    decreases |vs|
  {
    if vs != [] {
      var before := PutAll(m, vs[..|vs| - 1], key);
      PutAllKeysPrefix(m, vs[..|vs| - 1], key);
      PutKeys(before, key(vs[|vs| - 1]), vs[|vs| - 1]);
      assert Keys(PutAll(m, vs, key))[..|before|] == Keys(before);
      assert Keys(before)[..|m|] == Keys(m);
    }
  }

  lemma {:induction false} PutAllUnique<K, V>(m: Entries<K, V>, vs: seq<V>, key: V -> K)
    requires UniqueKeys(m)
    ensures UniqueKeys(PutAll(m, vs, key))
    decreases |vs|
  {
    if vs != [] {
      PutAllUnique(m, vs[..|vs| - 1], key);
      PutUnique(PutAll(m, vs[..|vs| - 1], key), key(vs[|vs| - 1]), vs[|vs| - 1]);
    }
  }
}
