// The in-place stable sort behind `MutableList.sortBy`, `sortWith` and
// `sortByDescending`: an insertion sort over an array, proved to leave the
// array holding `SortBy` of what it held before.
module ListSort {
  import opened Sorting

  /** Where `Insert` puts `x`: after the prefix it may not precede. */
  lemma {:induction false} InsertAt<T>(x: T, s: seq<T>, p: nat, le: (T, T) -> bool)
    requires p <= |s|
    requires forall m :: 0 <= m < p ==> !le(x, s[m])
    requires p == |s| || le(x, s[p])
    ensures Insert(x, s, le) == s[..p] + [x] + s[p..]
  {
    if p == 0 {
      assert s[..0] + [x] + s[0..] == [x] + s;
    } else {
      var t := s[1..];
      forall m | 0 <= m < p - 1 ensures !le(x, t[m]) {
        assert t[m] == s[m + 1];
      }
      if p < |s| {
        assert t[p - 1] == s[p];
      }
      InsertAt(x, t, p - 1, le);
      assert Insert(x, s, le) == [s[0]] + Insert(x, t, le);
      assert s[..p] == [s[0]] + t[..p - 1];
      assert s[p..] == t[p - 1..];
    }
  }


  /** Moves `a[i]` rightwards into the sorted suffix `a[i + 1..]`. */
  method InsertInto<T>(a: array<T>, i: nat, le: (T, T) -> bool)
    requires i < a.Length
    modifies a
    ensures a[..i] == old(a[..i])
    ensures a[i..] == Insert(old(a[i]), old(a[i + 1..]), le)
  {
    ghost var o := a[..];
    var x := a[i];
    var j := i;
    while j + 1 < a.Length && !le(x, a[j + 1])
      invariant i <= j < a.Length
      invariant forall m :: 0 <= m < i ==> a[m] == o[m]
      invariant forall m :: i <= m < j ==> a[m] == o[m + 1]
      invariant forall m :: j < m < a.Length ==> a[m] == o[m]
      invariant forall m :: i < m <= j ==> !le(x, o[m])
    {
      a[j] := a[j + 1];
      j := j + 1;
    }
    a[j] := x;
    Placed(a[..], o, i, j, x, le);
  }

  /** The array after the shifts and the final write holds `x` inserted
    * where `Insert` puts it. */
  lemma Placed<T>(r: seq<T>, o: seq<T>, i: nat, j: nat, x: T, le: (T, T) -> bool)
    requires i <= j < |o| == |r| && o[i] == x && r[j] == x
    requires forall m :: 0 <= m < i ==> r[m] == o[m]
    requires forall m :: i <= m < j ==> r[m] == o[m + 1]
    requires forall m :: j < m < |r| ==> r[m] == o[m]
    requires forall m :: i < m <= j ==> !le(x, o[m])
    requires j + 1 == |o| || le(x, o[j + 1])
    ensures r[..i] == o[..i]
    ensures r[i..] == Insert(o[i], o[i + 1..], le)
  {
    var s := o[i + 1..];
    var p := j - i;
    forall m | 0 <= m < p ensures !le(x, s[m]) {
      assert s[m] == o[i + 1 + m];
    }
    InsertAt(x, s, p, le);
    var w := s[..p] + [x] + s[p..];
    assert |r[i..]| == |w|;
    forall k | 0 <= k < |w| ensures r[i..][k] == w[k] {
      if k < p {
        assert w[k] == s[k] == o[i + 1 + k];
      } else if k > p {
        assert w[k] == s[k - 1] == o[i + k];
      }
    }
  }

  /** Sorts `a` in place, stably, under `le`. */
  method SortInPlace<T>(a: array<T>, le: (T, T) -> bool)
    modifies a
    ensures a[..] == SortBy(old(a[..]), le)
  {
    ghost var o := a[..];
    var i := a.Length;
    while i > 0
      invariant 0 <= i <= a.Length
      invariant a[..i] == o[..i]
      invariant a[i..] == SortBy(o[i..], le)
    {
      i := i - 1;
      assert a[i] == o[i] by {
        assert a[..i + 1][i] == o[..i + 1][i];
      }
      InsertInto(a, i, le);
      SortByStep(o, i, le);
    }
    assert a[..] == a[0..] && o == o[0..];
  }

  lemma SortByStep<T>(o: seq<T>, i: nat, le: (T, T) -> bool)
    requires i < |o|
    ensures SortBy(o[i..], le) == Insert(o[i], SortBy(o[i + 1..], le), le)
  {
    assert o[i..][1..] == o[i + 1..];
  }

  /** A list sorted through an array: the array's contents afterwards. */
  method SortSeq<T>(s: seq<T>, le: (T, T) -> bool) returns (r: seq<T>)
    ensures r == SortBy(s, le)
  {
    var a := new T[|s|](i requires 0 <= i < |s| => s[i]);
    assert a[..] == s;
    SortInPlace(a, le);
    r := a[..];
  }
}
