// Generic list helpers standing for the Kotlin collection functions the
// program uses: filter, sum, take, flatten, indexOf / indexOfFirst, distinct.
module Seqs {

  /** `list.filter(p)`: the elements satisfying `p`, in order. */
  function Filter<T>(s: seq<T>, p: T -> bool): (r: seq<T>)
    ensures |r| <= |s|
    ensures forall i :: 0 <= i < |r| ==> r[i] in s && p(r[i])
    ensures forall i :: 0 <= i < |s| && p(s[i]) ==> s[i] in r
  {
    if s == [] then []
    else
      assert s == [s[0]] + s[1..];
      if p(s[0]) then [s[0]] + Filter(s[1..], p) else Filter(s[1..], p)
  }

  lemma {:induction false} FilterConcat<T>(a: seq<T>, b: seq<T>, p: T -> bool)
    ensures Filter(a + b, p) == Filter(a, p) + Filter(b, p)
  {
    if a == [] {
      assert a + b == b;
    } else {
      assert (a + b)[1..] == a[1..] + b;
      FilterConcat(a[1..], b, p);
    }
  }

  /** Filtering with a predicate that holds of every element changes nothing. */
  lemma {:induction false} FilterAll<T>(s: seq<T>, p: T -> bool)
    requires forall i :: 0 <= i < |s| ==> p(s[i])
    ensures Filter(s, p) == s
  {
    if s != [] {
      FilterAll(s[1..], p);
    }
  }

  /** An element is kept exactly when it is in the list and satisfies `p`. */
  lemma FilterMembers<T>(s: seq<T>, p: T -> bool)
    ensures forall x :: x in Filter(s, p) <==> x in s && p(x)
  {
    var r := Filter(s, p);
    forall x | x in r ensures x in s && p(x) {
      var i :| 0 <= i < |r| && r[i] == x;
    }
  }

  /** Appending in two steps is appending the two parts at once. */
  lemma AppendTwice<T>(a: seq<T>, b: seq<T>, c: seq<T>)
    ensures a + b + c == a + (b + c)
  {
  }

  /** `list.sumOf { f(it) }`. */
  function Sum(s: seq<int>): int
  {
    if s == [] then 0 else s[0] + Sum(s[1..])
  }

  lemma {:induction false} SumConcat(a: seq<int>, b: seq<int>)
    ensures Sum(a + b) == Sum(a) + Sum(b)
  {
    if a == [] {
      assert a + b == b;
    } else {
      assert (a + b)[1..] == a[1..] + b;
      SumConcat(a[1..], b);
    }
  }

  /** `list.take(n)`. */
  function Take<T>(s: seq<T>, n: nat): (r: seq<T>)
    ensures |r| == if n < |s| then n else |s|
    ensures r <= s
  {
    if n < |s| then s[..n] else s
  }

  /** `flatten()` of a list of lists. */
  function Flatten<T>(ss: seq<seq<T>>): seq<T>
  {
    if ss == [] then [] else ss[0] + Flatten(ss[1..])
  }

  lemma {:induction false} FlattenConcat<T>(a: seq<seq<T>>, b: seq<seq<T>>)
    ensures Flatten(a + b) == Flatten(a) + Flatten(b)
  {
    if a == [] {
      assert a + b == b;
    } else {
      assert (a + b)[1..] == a[1..] + b;
      FlattenConcat(a[1..], b);
    }
  }

  /** One more list flattens onto the end. */
  lemma FlattenSnoc<T>(a: seq<seq<T>>, g: seq<T>)
    ensures Flatten(a + [g]) == Flatten(a) + g
  {
    FlattenConcat(a, [g]);
    assert Flatten([g]) == g + Flatten<T>([]);
  }

  /** `list.indexOf(x)`: the first position holding a value equal to `x`, or -1. */
  function IndexOf<T(==)>(s: seq<T>, x: T): (r: int)
    ensures -1 <= r < |s|
    ensures r == -1 <==> x !in s
    ensures 0 <= r ==> r < |s| && s[r] == x && x !in s[..r]
  {
    if s == [] then -1
    else if s[0] == x then 0
    else
      var k := IndexOf(s[1..], x);
      if k == -1 then -1
      else
        assert s[..k + 1] == [s[0]] + s[1..][..k];
        k + 1
  }

  /** `list.indexOfFirst { key(it) == k }`. */
  function IndexOfKey<T, K(==)>(s: seq<T>, key: T -> K, k: K): (r: int)
    ensures -1 <= r < |s|
    ensures r == -1 <==> forall i :: 0 <= i < |s| ==> key(s[i]) != k
    ensures 0 <= r ==> key(s[r]) == k && forall i :: 0 <= i < r ==> key(s[i]) != k
  {
    if s == [] then -1
    else if key(s[0]) == k then 0
    else
      var j := IndexOfKey(s[1..], key, k);
      if j == -1 then -1 else j + 1
  }

  /** The keys of a list, in order. */
  function Keys<T, K>(s: seq<T>, key: T -> K): (r: seq<K>)
    ensures |r| == |s|
    ensures forall i :: 0 <= i < |s| ==> r[i] == key(s[i])
  {
    seq(|s|, i requires 0 <= i < |s| => key(s[i]))
  }

  /** No two positions of the list hold the same key. */
  ghost predicate DistinctKeys<T, K>(s: seq<T>, key: T -> K)
  {
    forall i, j :: 0 <= i < j < |s| ==> key(s[i]) != key(s[j])
  }

  /** `distinct()`: each value once, in first-occurrence order. */
  function Distinct<T(==)>(s: seq<T>): (r: seq<T>)
    ensures forall i :: 0 <= i < |r| ==> r[i] in s
    ensures forall i :: 0 <= i < |s| ==> s[i] in r
    ensures forall i, j :: 0 <= i < j < |r| ==> r[i] != r[j]
  {
    DistinctFrom(s, [])
  }

  function DistinctFrom<T(==)>(s: seq<T>, seen: seq<T>): (r: seq<T>)
    requires forall i, j :: 0 <= i < j < |seen| ==> seen[i] != seen[j]
    ensures forall i :: 0 <= i < |r| ==> r[i] in s || r[i] in seen
    ensures forall i :: 0 <= i < |s| ==> s[i] in r
    ensures seen <= r
    ensures forall i, j :: 0 <= i < j < |r| ==> r[i] != r[j]
    decreases |s|
  {
    if s == [] then seen
    else if s[0] in seen then DistinctFrom(s[1..], seen)
    else
      var r := DistinctFrom(s[1..], seen + [s[0]]);
      assert s[0] in seen + [s[0]];
      r
  }

  /** Appending one value to the input appends it to `distinct()` exactly when it is new. */
  lemma {:induction false} DistinctFromSnoc<T>(s: seq<T>, x: T, seen: seq<T>)
    requires forall i, j :: 0 <= i < j < |seen| ==> seen[i] != seen[j]
    ensures DistinctFrom(s + [x], seen) ==
      if x in s || x in seen then DistinctFrom(s, seen) else DistinctFrom(s, seen) + [x]
    decreases |s|
  {
    if s == [] {
      assert [x][1..] == [];
      if x !in seen {
        assert x in seen + [x];
      }
    } else {
      assert (s + [x])[1..] == s[1..] + [x];
      if s[0] in seen {
        DistinctFromSnoc(s[1..], x, seen);
      } else {
        assert s[0] in seen + [s[0]];
        DistinctFromSnoc(s[1..], x, seen + [s[0]]);
      }
    }
  }

  lemma DistinctSnoc<T>(s: seq<T>, x: T)
    ensures Distinct(s + [x]) == if x in s then Distinct(s) else Distinct(s) + [x]
  {
    DistinctFromSnoc(s, x, []);
  }

  /** `distinct()` of a prefix is a prefix of `distinct()`. */
  lemma {:induction false} DistinctFromPrefix<T>(a: seq<T>, b: seq<T>, seen: seq<T>)
    requires forall i, j :: 0 <= i < j < |seen| ==> seen[i] != seen[j]
    ensures DistinctFrom(a, seen) <= DistinctFrom(a + b, seen)
    decreases |b|
  {
    if b != [] {
      var c := b[..|b| - 1];
      var x := b[|b| - 1];
      assert a + b == (a + c) + [x];
      DistinctFromPrefix(a, c, seen);
      DistinctFromSnoc(a + c, x, seen);
    } else {
      assert a + b == a;
    }
  }

  /** Where the first element with a key sits after one more element is appended. */
  lemma IndexOfKeySnoc<T, K>(s: seq<T>, x: T, key: T -> K, k: K)
    ensures IndexOfKey(s + [x], key, k) ==
      if IndexOfKey(s, key, k) != -1 then IndexOfKey(s, key, k)
      else if key(x) == k then |s| else -1
  {
    var r := IndexOfKey(s + [x], key, k);
    var q := IndexOfKey(s, key, k);
    assert forall i :: 0 <= i < |s| ==> (s + [x])[i] == s[i];
    assert (s + [x])[|s|] == x;
    if q != -1 {
      assert r != -1 && r <= q;
    }
  }

  /** A key found in a prefix is found at the same place in the whole list. */
  lemma IndexOfKeyPrefix<T, K>(pre: seq<T>, post: seq<T>, key: T -> K, k: K)
    requires IndexOfKey(pre, key, k) != -1
    ensures IndexOfKey(pre + post, key, k) == IndexOfKey(pre, key, k)
  {
    var q := IndexOfKey(pre, key, k);
    assert (pre + post)[q] == pre[q];
    assert forall i :: 0 <= i < q ==> (pre + post)[i] == pre[i];
  }

  /** A key found within the first `n` elements is found at the same place in the whole list. */
  lemma IndexOfKeyTake<T, K>(s: seq<T>, n: nat, key: T -> K, k: K)
    requires n <= |s| && IndexOfKey(s[..n], key, k) != -1
    ensures IndexOfKey(s, key, k) == IndexOfKey(s[..n], key, k)
    ensures s[IndexOfKey(s, key, k)] == s[..n][IndexOfKey(s, key, k)]
  {
    assert s == s[..n] + s[n..];
    IndexOfKeyPrefix(s[..n], s[n..], key, k);
  }

  /** A prefix of length `n`, or the whole list when shorter, is `take(n)`. */
  lemma TakePrefix<T>(d: seq<T>, a: seq<T>, n: nat)
    requires d <= a && |d| <= n
    requires |d| == n || d == a
    ensures Take(a, n) == d
  {
  }

  /** A prefix grows by the next element of the list. */
  lemma PrefixSnoc<T>(a: seq<T>, s: seq<T>)
    requires a <= s && |a| < |s|
    ensures a + [s[|a|]] <= s
  {
    assert a + [s[|a|]] == s[..|a| + 1];
  }

  /** Where index `i` of a concatenation lands. */
  lemma ConcatAt<T>(a: seq<T>, b: seq<T>, i: nat)
    requires i < |a + b|
    ensures (a + b)[i] == if i < |a| then a[i] else b[i - |a|]
  {
  }

  lemma KeysConcat<T, K>(a: seq<T>, b: seq<T>, key: T -> K)
    ensures Keys(a + b, key) == Keys(a, key) + Keys(b, key)
  {
    var l, r := Keys(a + b, key), Keys(a, key) + Keys(b, key);
    assert |l| == |r|;
    forall i | 0 <= i < |l| ensures l[i] == r[i] {
      if i < |a| {
        assert (a + b)[i] == a[i];
      } else {
        assert (a + b)[i] == b[i - |a|];
      }
    }
  }
}
