// The reconciliation shape shared by the contact and call-log sync passes:
// split a delta into ids the snapshot already has and new ids, add the new
// ones (at the end for contacts, at the front for the call log), replace the
// existing ones where they stand, then drop every id a full census lacks.
// Everything is generic in the record type `T` and its id type `K`.
module Reconcile {
  import opened Wrappers
  import opened Seqs

  /** Some element of `s` carries id `k`. */
  predicate HasKey<T, K(==)>(s: seq<T>, key: T -> K, k: K)
  {
    exists i :: 0 <= i < |s| && key(s[i]) == k
  }

  /** `associateBy(key)`: each id mapped to the last element carrying it. */
  function AssociateBy<T, K(==)>(s: seq<T>, key: T -> K): (m: map<K, T>)
    ensures forall k :: k in m ==> key(m[k]) == k && m[k] in s
  {
    if s == [] then map[]
    else
      var m := AssociateBy(s[..|s| - 1], key);
      assert forall k :: k in m ==> m[k] in s by {
        forall k | k in m ensures m[k] in s {
          assert m[k] in s[..|s| - 1];
        }
      }
      m[key(s[|s| - 1]) := s[|s| - 1]]
  }

  /** The map has exactly the ids of the list. */
  lemma {:induction false} AssociateByKeys<T, K>(s: seq<T>, key: T -> K, k: K)
    ensures k in AssociateBy(s, key) <==> HasKey(s, key, k)
  {
    if s != [] {
      var n := |s| - 1;
      AssociateByKeys(s[..n], key, k);
      if HasKey(s[..n], key, k) {
        var i :| 0 <= i < n && key(s[..n][i]) == k;
        assert key(s[i]) == k;
      }
      if HasKey(s, key, k) && key(s[n]) != k {
        var i :| 0 <= i < |s| && key(s[i]) == k;
        assert key(s[..n][i]) == k;
      }
    }
  }

  /** The value kept for an id is the last element carrying it. */
  lemma {:induction false} AssociateByLast<T, K>(s: seq<T>, key: T -> K, i: nat)
    requires i < |s|
    requires forall j :: i < j < |s| ==> key(s[j]) != key(s[i])
    ensures key(s[i]) in AssociateBy(s, key) && AssociateBy(s, key)[key(s[i])] == s[i]
  {
    var n := |s| - 1;
    var init := s[..n];
    assert AssociateBy(s, key) == AssociateBy(init, key)[key(s[n]) := s[n]];
    if i < n {
      assert init[i] == s[i];
      forall j | i < j < |init| ensures key(init[j]) != key(init[i]) {
        assert init[j] == s[j];
      }
      AssociateByLast(init, key, i);
    }
  }

  /** With distinct ids, the map sends each id to the one element carrying it. */
  lemma AssociateByDistinct<T, K>(s: seq<T>, key: T -> K, i: nat)
    requires i < |s| && DistinctKeys(s, key)
    ensures key(s[i]) in AssociateBy(s, key) && AssociateBy(s, key)[key(s[i])] == s[i]
  {
    AssociateByLast(s, key, i);
  }

  /** The delta elements whose id the snapshot already has (`partition`, first half). */
  function Updates<T, K(==)>(delta: seq<T>, current: seq<T>, key: T -> K): seq<T>
  {
    var known := AssociateBy(current, key);
    Filter(delta, x => key(x) in known)
  }

  /** The delta elements with a new id (`partition`, second half). */
  function Adds<T, K(==)>(delta: seq<T>, current: seq<T>, key: T -> K): seq<T>
  {
    var known := AssociateBy(current, key);
    Filter(delta, x => key(x) !in known)
  }

  /** `indexOf(old)` followed by `list[index] = new` when the index is not -1. */
  function Replace<T(==)>(s: seq<T>, was: T, now: T): (r: seq<T>)
    ensures |r| == |s|
  {
    var i := IndexOf(s, was);
    if i == -1 then s else s[i := now]
  }

  /** One update: the old element is looked up by id in the snapshot's map and
    * replaced, by equality, in the list being built. */
  function UpdateOne<T(==), K(==)>(s: seq<T>, u: T, current: seq<T>, key: T -> K): (r: seq<T>)
    ensures |r| == |s|
  {
    var known := AssociateBy(current, key);
    if key(u) in known then Replace(s, known[key(u)], u) else s
  }

  /** The updates applied one after the other, in delta order. */
  function ApplyUpdates<T(==), K(==)>(s: seq<T>, ups: seq<T>, current: seq<T>, key: T -> K): (r: seq<T>)
    ensures |r| == |s|
  {
    if ups == [] then s
    else UpdateOne(ApplyUpdates(s, ups[..|ups| - 1], current, key), ups[|ups| - 1], current, key)
  }

  /** The contact merge: new ids appended, known ids replaced in place. */
  function MergeAppend<T(==), K(==)>(current: seq<T>, delta: seq<T>, key: T -> K): seq<T>
  {
    if delta == [] then current
    else ApplyUpdates(current + Adds(delta, current, key), Updates(delta, current, key), current, key)
  }

  /** The call-log merge: new ids prepended, known ids replaced in place. */
  function MergePrepend<T(==), K(==)>(current: seq<T>, delta: seq<T>, key: T -> K): seq<T>
  {
    if delta == [] then current
    else ApplyUpdates(Adds(delta, current, key) + current, Updates(delta, current, key), current, key)
  }

  lemma MapUnionUpdate<K, V>(ma: map<K, V>, mb: map<K, V>, k: K, v: V)
    ensures (ma + mb)[k := v] == ma + mb[k := v]
  {
  }

  /** `associateBy` of a concatenation: the later list's elements win. */
  lemma {:induction false} AssociateByConcat<T, K>(a: seq<T>, b: seq<T>, key: T -> K)
    ensures AssociateBy(a + b, key) == AssociateBy(a, key) + AssociateBy(b, key)
  {
    if b == [] {
      assert a + b == a;
    } else {
      var n := |b| - 1;
      var x := b[n];
      AssociateByConcat(a, b[..n], key);
      assert (a + b)[..|a + b| - 1] == a + b[..n];
      assert (a + b)[|a + b| - 1] == x;
      var ma, mb := AssociateBy(a, key), AssociateBy(b[..n], key);
      assert AssociateBy(a + b, key) == (ma + mb)[key(x) := x];
      assert AssociateBy(b, key) == mb[key(x) := x];
      MapUnionUpdate(ma, mb, key(x), x);
    }
  }

  /** The ids of `s` absent from the census, in list order. */
  function StaleIds<T, K(==)>(s: seq<T>, key: T -> K, census: set<K>): (r: seq<K>)
    ensures forall i :: 0 <= i < |r| ==> r[i] !in census
  {
    Filter(Keys(s, key), id => id !in census)
  }

  /** The elements whose id the census holds, in list order. */
  function InCensus<T, K(==)>(s: seq<T>, key: T -> K, census: set<K>): seq<T>
  {
    Filter(s, x => key(x) in census)
  }

  /** `removeAll { key(it) in ids }`. */
  function RemoveIds<T, K(==)>(s: seq<T>, key: T -> K, ids: seq<K>): seq<T>
  {
    Filter(s, x => key(x) !in ids)
  }

  /** Removing no ids changes nothing. */
  lemma RemoveNoIds<T, K>(s: seq<T>, key: T -> K)
    ensures RemoveIds(s, key, []) == s
  {
    FilterAll(s, x => key(x) !in []);
  }

  /** Tombstone by absence: removing the stale ids keeps exactly the elements
    * whose id the census holds. */
  lemma {:induction false} RemoveStaleIds<T, K>(s: seq<T>, key: T -> K, census: set<K>)
    ensures RemoveIds(s, key, StaleIds(s, key, census)) == InCensus(s, key, census)
  {
    var stale := StaleIds(s, key, census);
    assert forall x :: x in s ==> (key(x) in stale <==> key(x) !in census) by {
      forall x | x in s ensures key(x) in stale <==> key(x) !in census {
        var i :| 0 <= i < |s| && s[i] == x;
        assert Keys(s, key)[i] == key(x);
      }
    }
    FilterSame(s, x => key(x) !in stale, x => key(x) in census);
  }

  /** Two predicates that agree on the elements filter alike. */
  lemma {:induction false} FilterSame<T>(s: seq<T>, p: T -> bool, q: T -> bool)
    requires forall x :: x in s ==> p(x) == q(x)
    ensures Filter(s, p) == Filter(s, q)
  {
    if s != [] {
      FilterSame(s[1..], p, q);
    }
  }

  /** The reference the merges are measured against: each snapshot element
    * replaced by the delta's element with its id, when there is one. */
  function Refreshed<T, K(==)>(current: seq<T>, delta: seq<T>, key: T -> K): (r: seq<T>)
    ensures |r| == |current|
    ensures forall i :: 0 <= i < |r| ==> key(r[i]) == key(current[i])
  {
    var byId := AssociateBy(delta, key);
    seq(|current|, i requires 0 <= i < |current| =>
      if key(current[i]) in byId then byId[key(current[i])] else current[i])
  }

  /** A filter of a list with distinct ids has distinct ids. */
  lemma {:induction false} FilterDistinctKeys<T, K>(s: seq<T>, p: T -> bool, key: T -> K)
    requires DistinctKeys(s, key)
    ensures DistinctKeys(Filter(s, p), key)
  {
    if s != [] {
      FilterDistinctKeys(s[1..], p, key);
      var r := Filter(s[1..], p);
      forall i | 0 <= i < |r| ensures key(r[i]) != key(s[0]) {
        var j :| 0 <= j < |s[1..]| && s[1..][j] == r[i];
        assert s[j + 1] == r[i];
      }
    }
  }

  /** Two elements of a list with distinct ids that share an id are equal. */
  lemma SameKeySame<T, K>(s: seq<T>, key: T -> K, x: T, y: T)
    requires DistinctKeys(s, key) && x in s && y in s && key(x) == key(y)
    ensures x == y
  {
    var i :| 0 <= i < |s| && s[i] == x;
    var j :| 0 <= j < |s| && s[j] == y;
    assert i == j;
  }

  /** The updates carry the same replacement for every snapshot id as the
    * whole delta does. */
  lemma RefreshedByUpdates<T, K>(current: seq<T>, delta: seq<T>, key: T -> K)
    requires DistinctKeys(delta, key)
    ensures Refreshed(current, Updates(delta, current, key), key) == Refreshed(current, delta, key)
  {
    var known := AssociateBy(current, key);
    var ups := Updates(delta, current, key);
    var a, b := Refreshed(current, ups, key), Refreshed(current, delta, key);
    forall i | 0 <= i < |current| ensures a[i] == b[i] {
      var k := key(current[i]);
      assert k in known by { AssociateByKeys(current, key, k); }
      AssociateByKeys(ups, key, k);
      AssociateByKeys(delta, key, k);
      if HasKey(delta, key, k) {
        var j :| 0 <= j < |delta| && key(delta[j]) == k;
        assert delta[j] in ups;
        var x, y := AssociateBy(ups, key)[k], AssociateBy(delta, key)[k];
        assert x in delta;
        SameKeySame(delta, key, x, y);
      }
    }
  }

  /** `indexOf` finds the first position holding the value. */
  lemma IndexOfAt<T>(l: seq<T>, o: T, p: nat)
    requires p < |l| && l[p] == o
    requires forall q :: 0 <= q < p ==> l[q] != o
    ensures IndexOf(l, o) == p
  {
  }

  /** One more update with a fresh id changes the reference at exactly the
    * position of that id. */
  lemma RefreshedSnoc<T, K>(current: seq<T>, init: seq<T>, u: T, p: nat, key: T -> K)
    requires DistinctKeys(current, key)
    requires p < |current| && key(current[p]) == key(u)
    requires !HasKey(init, key, key(u))
    ensures Refreshed(current, init, key)[p] == current[p]
    ensures Refreshed(current, init + [u], key) == Refreshed(current, init, key)[p := u]
  {
    var k := key(u);
    AssociateByKeys(init, key, k);
    var r0, r1 := Refreshed(current, init, key), Refreshed(current, init + [u], key);
    assert (init + [u])[..|init|] == init;
    assert AssociateBy(init + [u], key) == AssociateBy(init, key)[k := u];
    forall i | 0 <= i < |current| ensures r1[i] == r0[p := u][i] {
      if i != p {
        assert key(current[i]) != k;
      }
    }
  }

  /** One update whose id the snapshot holds and the earlier updates do not. */
  lemma UpdateStep<T, K>(a: seq<T>, current: seq<T>, b: seq<T>, init: seq<T>, u: T, key: T -> K)
    requires DistinctKeys(current, key)
    requires forall x :: x in a + b ==> key(x) !in AssociateBy(current, key)
    requires key(u) in AssociateBy(current, key) && !HasKey(init, key, key(u))
    ensures UpdateOne(a + Refreshed(current, init, key) + b, u, current, key)
      == a + Refreshed(current, init + [u], key) + b
  {
    var known := AssociateBy(current, key);
    var r0 := Refreshed(current, init, key);
    var l := a + r0 + b;
    var k := key(u);
    AssociateByKeys(current, key, k);
    var p :| 0 <= p < |current| && key(current[p]) == k;
    AssociateByDistinct(current, key, p);
    RefreshedSnoc(current, init, u, p, key);
    forall q | 0 <= q < |a| + p ensures l[q] != current[p] {
      if q < |a| {
        assert l[q] == a[q] && a[q] in a + b;
      } else {
        assert key(l[q]) == key(current[q - |a|]);
      }
    }
    IndexOfAt(l, current[p], |a| + p);
    assert UpdateOne(l, u, current, key) == l[|a| + p := u];
    UpdateInMiddle(a, r0, b, p, u);
  }

  /** The heart of both merges: applying the updates one by one to a list that
    * holds the snapshot between elements with new ids replaces each snapshot
    * element by its update where it stands, and touches nothing else. */
  lemma {:induction false} ApplyUpdatesRefreshes<T, K>(a: seq<T>, current: seq<T>, b: seq<T>, ups: seq<T>, key: T -> K)
    requires DistinctKeys(current, key) && DistinctKeys(ups, key)
    requires forall x :: x in a + b ==> key(x) !in AssociateBy(current, key)
    requires forall x :: x in ups ==> key(x) in AssociateBy(current, key)
    ensures ApplyUpdates(a + current + b, ups, current, key) == a + Refreshed(current, ups, key) + b
  {
    if ups == [] {
      assert Refreshed(current, ups, key) == current;
    } else {
      var n := |ups| - 1;
      var init, u := ups[..n], ups[n];
      assert ups == init + [u];
      forall x | x in init ensures key(x) in AssociateBy(current, key) {
        assert x in ups;
      }
      ApplyUpdatesRefreshes(a, current, b, init, key);
      assert u in ups;
      assert !HasKey(init, key, key(u));
      UpdateStep(a, current, b, init, u, key);
    }
  }

  lemma UpdateInMiddle<T>(a: seq<T>, r: seq<T>, b: seq<T>, p: nat, u: T)
    requires p < |r|
    ensures (a + r + b)[|a| + p := u] == a + r[p := u] + b
  {
  }

  /** The updates applied to the snapshot between new-id lists `a` and `b`. */
  lemma UpdatesAround<T, K>(current: seq<T>, delta: seq<T>, key: T -> K, a: seq<T>, b: seq<T>)
    requires DistinctKeys(current, key) && DistinctKeys(delta, key)
    requires forall x :: x in a + b ==> x in Adds(delta, current, key)
    ensures ApplyUpdates(a + current + b, Updates(delta, current, key), current, key)
         == a + Refreshed(current, Updates(delta, current, key), key) + b
  {
    var known := AssociateBy(current, key);
    FilterMembers(delta, x => key(x) in known);
    FilterMembers(delta, x => key(x) !in known);
    FilterDistinctKeys(delta, x => key(x) in known, key);
    ApplyUpdatesRefreshes(a, current, b, Updates(delta, current, key), key);
  }

  /** The contact merge equals the reference: the snapshot refreshed in place,
    * followed by the delta's new ids in delta order. */
  lemma MergeAppendRefreshes<T, K>(current: seq<T>, delta: seq<T>, key: T -> K)
    requires DistinctKeys(current, key) && DistinctKeys(delta, key)
    ensures MergeAppend(current, delta, key) == Refreshed(current, delta, key) + Adds(delta, current, key)
  {
    if delta == [] {
      assert Refreshed(current, delta, key) == current;
    } else {
      var ups, adds := Updates(delta, current, key), Adds(delta, current, key);
      var r := Refreshed(current, ups, key);
      assert MergeAppend(current, delta, key) == r + adds by {
        assert MergeAppend(current, delta, key) == ApplyUpdates(current + adds, ups, current, key);
        assert current + adds == [] + current + adds;
        UpdatesAround(current, delta, key, [], adds);
        assert [] + r == r;
      }
      assert r == Refreshed(current, delta, key) by {
        RefreshedByUpdates(current, delta, key);
      }
    }
  }

  /** The call-log merge equals the reference: the delta's new ids in delta
    * order, followed by the snapshot refreshed in place. */
  lemma MergePrependRefreshes<T, K>(current: seq<T>, delta: seq<T>, key: T -> K)
    requires DistinctKeys(current, key) && DistinctKeys(delta, key)
    ensures MergePrepend(current, delta, key) == Adds(delta, current, key) + Refreshed(current, delta, key)
  {
    if delta == [] {
      assert Refreshed(current, delta, key) == current;
    } else {
      var ups, adds := Updates(delta, current, key), Adds(delta, current, key);
      var r := Refreshed(current, ups, key);
      assert MergePrepend(current, delta, key) == adds + r by {
        assert MergePrepend(current, delta, key) == ApplyUpdates(adds + current, ups, current, key);
        assert adds + current == adds + current + [];
        UpdatesAround(current, delta, key, adds, []);
        assert adds + r + [] == adds + r;
      }
      assert r == Refreshed(current, delta, key) by {
        RefreshedByUpdates(current, delta, key);
      }
    }
  }

  /** In a list with distinct ids every value occurs at most once. */
  lemma {:induction false} DistinctKeysOnce<T, K>(s: seq<T>, key: T -> K, x: T)
    requires DistinctKeys(s, key)
    ensures multiset(s)[x] <= 1
  {
    if s != [] {
      assert s == [s[0]] + s[1..];
      DistinctKeysOnce(s[1..], key, x);
    }
  }

  /** A value at two positions occurs twice. */
  lemma TwoPositions<T>(s: seq<T>, i: nat, j: nat)
    requires i < j < |s| && s[i] == s[j]
    ensures multiset(s)[s[i]] >= 2
  {
    assert s == s[..j] + [s[j]] + s[j + 1..];
    assert s[i] in s[..j];
  }

  /** Distinct ids survive any permutation, a sort in particular. */
  lemma DistinctKeysPermutation<T, K>(a: seq<T>, b: seq<T>, key: T -> K)
    requires multiset(a) == multiset(b) && DistinctKeys(a, key)
    ensures DistinctKeys(b, key)
  {
    forall i, j | 0 <= i < j < |b| ensures key(b[i]) != key(b[j]) {
      if b[i] == b[j] {
        TwoPositions(b, i, j);
        DistinctKeysOnce(a, key, b[i]);
      } else {
        assert b[i] in multiset(a) && b[j] in multiset(a);
      }
    }
  }

  /** Two lists with distinct ids and no id in common concatenate to one. */
  lemma DistinctKeysConcat<T, K>(a: seq<T>, b: seq<T>, key: T -> K)
    requires DistinctKeys(a, key) && DistinctKeys(b, key)
    requires forall i, j :: 0 <= i < |a| && 0 <= j < |b| ==> key(a[i]) != key(b[j])
    ensures DistinctKeys(a + b, key)
  {
    var l := a + b;
    forall i, j | 0 <= i < j < |l| ensures key(l[i]) != key(l[j]) {
      if j < |a| {
        assert l[i] == a[i] && l[j] == a[j];
      } else if i >= |a| {
        assert l[i] == b[i - |a|] && l[j] == b[j - |a|];
      } else {
        assert l[i] == a[i] && l[j] == b[j - |a|];
      }
    }
  }

  /** The reference has distinct ids: the snapshot's, then the new ones. */
  lemma RefreshedAddsDistinct<T, K>(current: seq<T>, delta: seq<T>, key: T -> K)
    requires DistinctKeys(current, key) && DistinctKeys(delta, key)
    ensures DistinctKeys(Refreshed(current, delta, key) + Adds(delta, current, key), key)
  {
    var known := AssociateBy(current, key);
    var r, adds := Refreshed(current, delta, key), Adds(delta, current, key);
    assert DistinctKeys(adds, key) by {
      FilterDistinctKeys(delta, x => key(x) !in known, key);
    }
    assert DistinctKeys(r, key) by {
      forall i, j | 0 <= i < j < |r| ensures key(r[i]) != key(r[j]) {
        assert key(r[i]) == key(current[i]) && key(r[j]) == key(current[j]);
      }
    }
    forall i, j | 0 <= i < |r| && 0 <= j < |adds| ensures key(r[i]) != key(adds[j]) {
      assert key(r[i]) == key(current[i]);
      AssociateByKeys(current, key, key(current[i]));
      assert key(adds[j]) !in known;
    }
    DistinctKeysConcat(r, adds, key);
  }

  /** Every element of an arrangement of the reference is a refreshed
    * snapshot element or a new one. */
  lemma InReference<T, K>(current: seq<T>, delta: seq<T>, key: T -> K, s: seq<T>, x: T)
    requires multiset(s) == multiset(Refreshed(current, delta, key) + Adds(delta, current, key))
    ensures x in s <==> x in Refreshed(current, delta, key) || x in Adds(delta, current, key)
  {
    var l := Refreshed(current, delta, key) + Adds(delta, current, key);
    assert x in s <==> x in multiset(s);
    assert x in l <==> x in multiset(l);
  }

  /** A survivor carries the delta's value when the delta has its id and is a
    * snapshot element otherwise. */
  lemma PassValue<T, K>(current: seq<T>, delta: seq<T>, key: T -> K, x: T)
    requires DistinctKeys(delta, key)
    requires x in Refreshed(current, delta, key) || x in Adds(delta, current, key)
    ensures key(x) in AssociateBy(delta, key) ==> x == AssociateBy(delta, key)[key(x)]
    ensures key(x) !in AssociateBy(delta, key) ==> x in current
  {
    var byId := AssociateBy(delta, key);
    var ref, adds := Refreshed(current, delta, key), Adds(delta, current, key);
    AssociateByKeys(delta, key, key(x));
    if x in adds {
      assert x in delta;
      SameKeySame(delta, key, x, byId[key(x)]);
    } else {
      var j :| 0 <= j < |ref| && ref[j] == x;
      assert key(x) == key(current[j]);
    }
  }

  /** The ids of the reference are those of the snapshot and the delta. */
  lemma PassIds<T, K>(current: seq<T>, delta: seq<T>, key: T -> K, k: K)
    ensures (exists x :: (x in Refreshed(current, delta, key) || x in Adds(delta, current, key)) && key(x) == k)
      <==> HasKey(current, key, k) || HasKey(delta, key, k)
  {
    var ref, adds := Refreshed(current, delta, key), Adds(delta, current, key);
    AssociateByKeys(current, key, k);
    if exists x :: (x in ref || x in adds) && key(x) == k {
      var x :| (x in ref || x in adds) && key(x) == k;
      if x in adds {
        var j :| 0 <= j < |delta| && delta[j] == x;
      } else {
        var j :| 0 <= j < |ref| && ref[j] == x;
        assert key(current[j]) == k;
      }
    }
    if HasKey(current, key, k) {
      var j :| 0 <= j < |current| && key(current[j]) == k;
      assert ref[j] in ref;
    } else if HasKey(delta, key, k) {
      var j :| 0 <= j < |delta| && key(delta[j]) == k;
      assert delta[j] in adds;
    }
  }

  /** What survives a pass. The merged list `s` is any arrangement of the
    * reference (appended, prepended or sorted); the census then removes the
    * ids it lacks. An id survives exactly when the snapshot or the delta has
    * it and the census does; a survivor carries the delta's value when the
    * delta has its id and is unchanged otherwise; ids stay distinct. */
  lemma PassOutcome<T, K>(current: seq<T>, delta: seq<T>, key: T -> K, census: set<K>, s: seq<T>, k: K)
    requires DistinctKeys(current, key) && DistinctKeys(delta, key)
    requires multiset(s) == multiset(Refreshed(current, delta, key) + Adds(delta, current, key))
    ensures var r := InCensus(s, key, census);
      && (HasKey(r, key, k) <==> (HasKey(current, key, k) || HasKey(delta, key, k)) && k in census)
      && (forall i :: 0 <= i < |r| && key(r[i]) in AssociateBy(delta, key) ==>
            r[i] == AssociateBy(delta, key)[key(r[i])])
      && (forall i :: 0 <= i < |r| && key(r[i]) !in AssociateBy(delta, key) ==> r[i] in current)
      && DistinctKeys(r, key)
  {
    var ref, adds := Refreshed(current, delta, key), Adds(delta, current, key);
    var r := InCensus(s, key, census);
    assert DistinctKeys(r, key) by {
      RefreshedAddsDistinct(current, delta, key);
      DistinctKeysPermutation(ref + adds, s, key);
      FilterDistinctKeys(s, x => key(x) in census, key);
    }
    forall i | 0 <= i < |r| ensures
      (key(r[i]) in AssociateBy(delta, key) ==> r[i] == AssociateBy(delta, key)[key(r[i])])
      && (key(r[i]) !in AssociateBy(delta, key) ==> r[i] in current)
    {
      InReference(current, delta, key, s, r[i]);
      PassValue(current, delta, key, r[i]);
    }
    PassIds(current, delta, key, k);
    if HasKey(r, key, k) {
      var i :| 0 <= i < |r| && key(r[i]) == k;
      InReference(current, delta, key, s, r[i]);
    }
    if (HasKey(current, key, k) || HasKey(delta, key, k)) && k in census {
      var x :| (x in ref || x in adds) && key(x) == k;
      InReference(current, delta, key, s, x);
      var j :| 0 <= j < |s| && s[j] == x;
      assert x in r;
      var i :| 0 <= i < |r| && r[i] == x;
    }
  }

  /** A rearranged list has the same elements and the same ids. */
  lemma PermutationKeys<T, K>(r: seq<T>, m: seq<T>, key: T -> K, k: K)
    requires multiset(r) == multiset(m)
    ensures HasKey(r, key, k) <==> HasKey(m, key, k)
    ensures forall i :: 0 <= i < |r| ==> r[i] in m
  {
    forall i | 0 <= i < |r| ensures r[i] in m {
      assert r[i] in multiset(m);
    }
    if HasKey(m, key, k) {
      var i :| 0 <= i < |m| && key(m[i]) == k;
      assert m[i] in multiset(r);
      var j :| 0 <= j < |r| && r[j] == m[i];
    }
  }

  /** The contact pass: with distinct ids, the surviving ids are exactly
    * (snapshot ids ∪ delta ids) ∩ census, each with the delta's value when
    * the delta has it. */
  lemma AppendPassOutcome<T, K>(current: seq<T>, delta: seq<T>, key: T -> K, census: set<K>, k: K)
    requires DistinctKeys(current, key) && DistinctKeys(delta, key)
    ensures var r := InCensus(MergeAppend(current, delta, key), key, census);
      && (HasKey(r, key, k) <==> (HasKey(current, key, k) || HasKey(delta, key, k)) && k in census)
      && (forall i :: 0 <= i < |r| && key(r[i]) in AssociateBy(delta, key) ==>
            r[i] == AssociateBy(delta, key)[key(r[i])])
      && (forall i :: 0 <= i < |r| && key(r[i]) !in AssociateBy(delta, key) ==> r[i] in current)
      && DistinctKeys(r, key)
  {
    MergeAppendRefreshes(current, delta, key);
    PassOutcome(current, delta, key, census, MergeAppend(current, delta, key), k);
  }

  /** The call-log pass: the same outcome with the new ids in front. */
  lemma PrependPassOutcome<T, K>(current: seq<T>, delta: seq<T>, key: T -> K, census: set<K>, k: K)
    requires DistinctKeys(current, key) && DistinctKeys(delta, key)
    ensures var r := InCensus(MergePrepend(current, delta, key), key, census);
      && (HasKey(r, key, k) <==> (HasKey(current, key, k) || HasKey(delta, key, k)) && k in census)
      && (forall i :: 0 <= i < |r| && key(r[i]) in AssociateBy(delta, key) ==>
            r[i] == AssociateBy(delta, key)[key(r[i])])
      && (forall i :: 0 <= i < |r| && key(r[i]) !in AssociateBy(delta, key) ==> r[i] in current)
      && DistinctKeys(r, key)
  {
    var ref, adds := Refreshed(current, delta, key), Adds(delta, current, key);
    MergePrependRefreshes(current, delta, key);
    assert multiset(adds + ref) == multiset(ref + adds);
    PassOutcome(current, delta, key, census, MergePrepend(current, delta, key), k);
  }

  /** An id is stale exactly when some element has it and the census lacks it. */
  lemma StaleIdsMembers<T, K>(s: seq<T>, key: T -> K, census: set<K>, k: K)
    ensures k in StaleIds(s, key, census) <==> HasKey(s, key, k) && k !in census
  {
    var ks := Keys(s, key);
    if HasKey(s, key, k) && k !in census {
      var i :| 0 <= i < |s| && key(s[i]) == k;
      assert ks[i] == k;
    }
  }

  /** Stale ids depend only on which elements a list holds, not on their order. */
  lemma StaleIdsPermutation<T, K>(a: seq<T>, b: seq<T>, key: T -> K, census: set<K>, k: K)
    requires multiset(a) == multiset(b)
    ensures k in StaleIds(a, key, census) <==> k in StaleIds(b, key, census)
  {
    StaleIdsMembers(a, key, census, k);
    StaleIdsMembers(b, key, census, k);
    PermutationKeys(a, b, key, k);
  }

  /** An element list made of the refreshed snapshot and the added delta
    * elements, in either order, holds exactly the ids of the snapshot and the delta. */
  lemma SplitKeys<T, K>(current: seq<T>, delta: seq<T>, key: T -> K, m: seq<T>, k: K)
    requires forall x :: x in m <==> x in Refreshed(current, delta, key) || x in Adds(delta, current, key)
    ensures HasKey(m, key, k) <==> HasKey(current, key, k) || HasKey(delta, key, k)
  {
    PassIds(current, delta, key, k);
    if HasKey(current, key, k) || HasKey(delta, key, k) {
      var x :| (x in Refreshed(current, delta, key) || x in Adds(delta, current, key)) && key(x) == k;
      var i :| 0 <= i < |m| && m[i] == x;
    }
    if HasKey(m, key, k) {
      var i :| 0 <= i < |m| && key(m[i]) == k;
      assert m[i] in m;
    }
  }

  /** Either merge holds exactly the ids of the snapshot and the delta. */
  lemma MergeKeys<T, K>(current: seq<T>, delta: seq<T>, key: T -> K, k: K)
    requires DistinctKeys(current, key) && DistinctKeys(delta, key)
    ensures HasKey(MergeAppend(current, delta, key), key, k) <==> HasKey(current, key, k) || HasKey(delta, key, k)
    ensures HasKey(MergePrepend(current, delta, key), key, k) <==> HasKey(current, key, k) || HasKey(delta, key, k)
  {
    MergeAppendRefreshes(current, delta, key);
    MergePrependRefreshes(current, delta, key);
    SplitKeys(current, delta, key, MergeAppend(current, delta, key), k);
    SplitKeys(current, delta, key, MergePrepend(current, delta, key), k);
  }

  /** Tombstone by absence wins over a same-pass update: an id of the snapshot
    * or the delta that the census lacks is deleted, whichever merge runs. */
  lemma TombstoneWins<T, K>(current: seq<T>, delta: seq<T>, key: T -> K, census: set<K>, k: K)
    requires DistinctKeys(current, key) && DistinctKeys(delta, key)
    requires (HasKey(current, key, k) || HasKey(delta, key, k)) && k !in census
    ensures k in StaleIds(MergeAppend(current, delta, key), key, census)
    ensures k in StaleIds(MergePrepend(current, delta, key), key, census)
  {
    MergeKeys(current, delta, key, k);
    StaleIdsMembers(MergeAppend(current, delta, key), key, census, k);
    StaleIdsMembers(MergePrepend(current, delta, key), key, census, k);
  }
}
