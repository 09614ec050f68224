// The insertion-ordered map (`LinkedHashMap`) that `associateBy` and
// `toMutableMap` build: a key keeps the position of its first insertion and
// `put` on a present key overwrites the value in place.
module LinkedMap {
  import opened Seqs
  import opened Reconcile

  datatype Linked<K, V> = Linked(keys: seq<K>, entries: map<K, V>)

  /** Keys are listed once each, and exactly the keys with an entry are listed. */
  ghost predicate Valid<K, V>(m: Linked<K, V>)
  {
    (forall i, j :: 0 <= i < j < |m.keys| ==> m.keys[i] != m.keys[j]) &&
    (forall k :: k in m.entries ==> k in m.keys) &&
    (forall i :: 0 <= i < |m.keys| ==> m.keys[i] in m.entries)
  }

  /** `map[k] = v`. */
  function Put<K, V>(m: Linked<K, V>, k: K, v: V): (r: Linked<K, V>)
    ensures r.entries == m.entries[k := v]
    ensures k in m.entries ==> r.keys == m.keys
    ensures k !in m.entries ==> r.keys == m.keys + [k]
  {
    if k in m.entries then m.(entries := m.entries[k := v])
    else Linked(m.keys + [k], m.entries[k := v])
  }

  lemma PutValid<K, V>(m: Linked<K, V>, k: K, v: V)
    requires Valid(m)
    ensures Valid(Put(m, k, v))
  {
  }

  /** Each element put under its id, in list order. */
  function PutAll<T, K>(m: Linked<K, T>, s: seq<T>, key: T -> K): Linked<K, T>
  {
    if s == [] then m else Put(PutAll(m, s[..|s| - 1], key), key(s[|s| - 1]), s[|s| - 1])
  }

  /** Putting two lists one after the other is putting their concatenation. */
  lemma {:induction false} PutAllConcat<T, K>(m: Linked<K, T>, a: seq<T>, b: seq<T>, key: T -> K)
    ensures PutAll(PutAll(m, a, key), b, key) == PutAll(m, a + b, key)
  {
    if b == [] {
      assert a + b == a;
    } else {
      var n := |b| - 1;
      PutAllConcat(m, a, b[..n], key);
      assert (a + b)[..|a + b| - 1] == a + b[..n];
    }
  }

  /** Putting a list keeps a map valid. */
  lemma {:induction false} PutAllValid<T, K>(m: Linked<K, T>, s: seq<T>, key: T -> K)
    requires Valid(m)
    ensures Valid(PutAll(m, s, key))
  {
    if s != [] {
      var n := |s| - 1;
      PutAllValid(m, s[..n], key);
      PutValid(PutAll(m, s[..n], key), key(s[n]), s[n]);
    }
  }

  /** Starting from no entries, the entries are `associateBy` of the list. */
  lemma {:induction false} PutAllEntries<T, K>(s: seq<T>, key: T -> K)
    ensures PutAll(Linked([], map[]), s, key).entries == AssociateBy(s, key)
  {
    if s != [] {
      PutAllEntries(s[..|s| - 1], key);
    }
  }

  /** Starting from no entries, the keys are the distinct ids in order of
    * first occurrence. */
  lemma {:induction false} PutAllKeys<T, K>(s: seq<T>, key: T -> K)
    ensures PutAll(Linked([], map[]), s, key).keys == Distinct(Keys(s, key))
  {
    if s != [] {
      var n := |s| - 1;
      var init, x := s[..n], s[n];
      PutAllKeys(init, key);
      PutAllEntries(init, key);
      assert Keys(s, key) == Keys(init, key) + [key(x)] by {
        assert s == init + [x];
        KeysConcat(init, [x], key);
      }
      DistinctSnoc(Keys(init, key), key(x));
      AssociateByKeys(init, key, key(x));
      assert key(x) in Keys(init, key) <==> HasKey(init, key, key(x)) by {
        if key(x) in Keys(init, key) {
          var i :| 0 <= i < |init| && Keys(init, key)[i] == key(x);
        }
        if HasKey(init, key, key(x)) {
          var i :| 0 <= i < |init| && key(init[i]) == key(x);
          assert Keys(init, key)[i] == key(x);
        }
      }
    }
  }

  /** Starting from no entries: the keys are the distinct ids in order of
    * first occurrence, and the entries are `associateBy` of the list. */
  lemma PutAllFromEmpty<T, K>(s: seq<T>, key: T -> K)
    ensures PutAll(Linked([], map[]), s, key).keys == Distinct(Keys(s, key))
    ensures PutAll(Linked([], map[]), s, key).entries == AssociateBy(s, key)
    ensures Valid(PutAll(Linked([], map[]), s, key))
  {
    PutAllKeys(s, key);
    PutAllEntries(s, key);
    PutAllValid(Linked([], map[]), s, key);
  }

  /** `values`: the entries in key order. */
  function Values<K, V>(m: Linked<K, V>): (r: seq<V>)
    requires forall i :: 0 <= i < |m.keys| ==> m.keys[i] in m.entries
    ensures |r| == |m.keys|
    ensures forall i :: 0 <= i < |r| ==> r[i] == m.entries[m.keys[i]]
  {
    seq(|m.keys|, i requires 0 <= i < |m.keys| => m.entries[m.keys[i]])
  }
}
