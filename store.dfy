// Room tables as ordered sequences of rows (the order `findAll` returns them
// in). A table keyed by a plain primary key is upserted by key; a table with
// an auto-generated key hands out a fresh id to a row whose id is 0. The
// paged reads are an `ORDER BY id DESC LIMIT n` page and a `WHERE id < ?` rest.
module Store {
  import opened Wrappers
  import opened Seqs
  import opened Sorting
  import opened Reconcile

  /** `SELECT … WHERE key = ?` on a table with unique keys: the first row with the key. */
  function Lookup<R, K(==)>(t: seq<R>, pk: R -> K, k: K): (r: Option<R>)
    ensures r.Some? <==> HasKey(t, pk, k)
    ensures r.Some? ==> r.value in t && pk(r.value) == k
  {
    var i := IndexOfKey(t, pk, k);
    if i == -1 then None else Some(t[i])
  }

  /** Two lists of one length whose positions carry `k` at the same places find it at the same place. */
  lemma IndexOfKeySame<R, K>(s: seq<R>, u: seq<R>, pk: R -> K, k: K)
    requires |s| == |u|
    requires forall j :: 0 <= j < |s| ==> (pk(s[j]) == k <==> pk(u[j]) == k)
    ensures IndexOfKey(s, pk, k) == IndexOfKey(u, pk, k)
  {
    var a, b := IndexOfKey(s, pk, k), IndexOfKey(u, pk, k);
    if a != -1 {
      assert b != -1 && b <= a;
    }
    if b != -1 {
      assert a != -1 && a <= b;
    }
  }

  /** `@Upsert` on a table with primary key `pk`: a row with the key is
    * overwritten where it stands, otherwise the row is appended. */
  function UpsertRow<R, K(==)>(t: seq<R>, r: R, pk: R -> K): (u: seq<R>)
    ensures HasKey(t, pk, pk(r)) ==> |u| == |t|
    ensures !HasKey(t, pk, pk(r)) ==> u == t + [r]
  {
    var i := IndexOfKey(t, pk, pk(r));
    if i == -1 then t + [r] else t[i := r]
  }

  /** After an upsert the key finds the new row and every other key finds what it found before. */
  lemma UpsertRowLookup<R, K>(t: seq<R>, r: R, pk: R -> K, k: K)
    ensures Lookup(UpsertRow(t, r, pk), pk, k) == if k == pk(r) then Some(r) else Lookup(t, pk, k)
  {
    var i := IndexOfKey(t, pk, pk(r));
    var u := UpsertRow(t, r, pk);
    if i == -1 {
      IndexOfKeySnoc(t, r, pk, k);
      if k != pk(r) && IndexOfKey(t, pk, k) != -1 {
        assert u[IndexOfKey(t, pk, k)] == t[IndexOfKey(t, pk, k)];
      }
    } else if k == pk(r) {
      var q := IndexOfKey(u, pk, k);
      assert pk(u[i]) == k;
      assert q != -1 && q <= i;
      assert forall j :: 0 <= j < i ==> u[j] == t[j];
    } else {
      IndexOfKeySame(t, u, pk, k);
      if IndexOfKey(t, pk, k) != -1 {
        assert IndexOfKey(t, pk, k) != i;
      }
    }
  }

  lemma UpsertRowDistinct<R, K>(t: seq<R>, r: R, pk: R -> K)
    requires DistinctKeys(t, pk)
    ensures DistinctKeys(UpsertRow(t, r, pk), pk)
  {
    var i := IndexOfKey(t, pk, pk(r));
    var u := UpsertRow(t, r, pk);
    if i != -1 {
      assert forall j :: 0 <= j < |t| ==> pk(u[j]) == pk(t[j]);
    }
  }

  /** `@Upsert` of several rows, one after the other. */
  function UpsertRows<R, K(==)>(t: seq<R>, rows: seq<R>, pk: R -> K): seq<R>
  {
    if rows == [] then t else UpsertRow(UpsertRows(t, rows[..|rows| - 1], pk), rows[|rows| - 1], pk)
  }

  /** After upserting rows, a key finds the last row given with it, or what it
    * found before when no row had it. */
  lemma {:induction false} UpsertRowsLookup<R, K>(t: seq<R>, rows: seq<R>, pk: R -> K, k: K)
    ensures Lookup(UpsertRows(t, rows, pk), pk, k) ==
      if k in AssociateBy(rows, pk) then Some(AssociateBy(rows, pk)[k]) else Lookup(t, pk, k)
  {
    if rows != [] {
      var n := |rows| - 1;
      UpsertRowsLookup(t, rows[..n], pk, k);
      UpsertRowLookup(UpsertRows(t, rows[..n], pk), rows[n], pk, k);
    }
  }

  /** Upserts keep a table's keys unique. */
  lemma {:induction false} UpsertRowsDistinct<R, K>(t: seq<R>, rows: seq<R>, pk: R -> K)
    requires DistinctKeys(t, pk)
    ensures DistinctKeys(UpsertRows(t, rows, pk), pk)
  {
    if rows != [] {
      var n := |rows| - 1;
      UpsertRowsDistinct(t, rows[..n], pk);
      UpsertRowDistinct(UpsertRows(t, rows[..n], pk), rows[n], pk);
    }
  }

  /** `DELETE … WHERE key IN (:ids)`. */
  function DeleteIn<R, K(==)>(t: seq<R>, key: R -> K, ids: seq<K>): (u: seq<R>)
    ensures forall i :: 0 <= i < |u| ==> key(u[i]) !in ids
  {
    Filter(t, x => key(x) !in ids)
  }

  lemma LookupCons<R, K>(x: R, s: seq<R>, pk: R -> K, k: K)
    ensures Lookup([x] + s, pk, k) == if pk(x) == k then Some(x) else Lookup(s, pk, k)
  {
    assert ([x] + s)[1..] == s;
  }

  /** A deleted key finds nothing; any other key finds what it found before. */
  lemma {:induction false} DeleteInLookup<R, K>(t: seq<R>, key: R -> K, ids: seq<K>, k: K)
    ensures Lookup(DeleteIn(t, key, ids), key, k) == if k in ids then None else Lookup(t, key, k)
  {
    if t != [] {
      var u := DeleteIn(t[1..], key, ids);
      DeleteInLookup(t[1..], key, ids, k);
      assert t == [t[0]] + t[1..];
      LookupCons(t[0], t[1..], key, k);
      if key(t[0]) !in ids {
        assert DeleteIn(t, key, ids) == [t[0]] + u;
        LookupCons(t[0], u, key, k);
      } else {
        assert DeleteIn(t, key, ids) == u;
      }
    }
  }

  lemma DeleteInDistinct<R, K>(t: seq<R>, key: R -> K, ids: seq<K>)
    requires DistinctKeys(t, key)
    ensures DistinctKeys(DeleteIn(t, key, ids), key)
  {
    FilterDistinctKeys(t, x => key(x) !in ids, key);
  }

  // ---- tables with an auto-generated key

  /** A table whose key is generated: its rows and the last id handed out. */
  datatype Table<R> = Table(rows: seq<R>, lastId: int)

  /** `@Upsert` of one row into such a table. Id 0 means "unset": the row is
    * inserted under a fresh id. Any other id is upserted by key and raises
    * the last id handed out when it is larger. */
  function UpsertChild<R>(t: Table<R>, r: R, id: R -> int, withId: (R, int) -> R): (u: Table<R>)
    ensures id(r) == 0 ==> u.rows == t.rows + [withId(r, t.lastId + 1)]
    ensures u.lastId >= t.lastId
  {
    if id(r) == 0 then Table(t.rows + [withId(r, t.lastId + 1)], t.lastId + 1)
    else Table(UpsertRow(t.rows, r, id), if id(r) > t.lastId then id(r) else t.lastId)
  }

  function UpsertChildren<R>(t: Table<R>, rs: seq<R>, id: R -> int, withId: (R, int) -> R): Table<R>
  {
    if rs == [] then t
    else UpsertChild(UpsertChildren(t, rs[..|rs| - 1], id, withId), rs[|rs| - 1], id, withId)
  }

  /** The rows of one owner. */
  function Owned<R>(owner: R -> int, c: int): R -> bool
  {
    x => owner(x) == c
  }

  /** The rows kept for an owner are the table's rows of that owner. */
  lemma OwnedMembers<R>(s: seq<R>, owner: R -> int, c: int)
    ensures forall x :: x in Filter(s, Owned(owner, c)) <==> x in s && owner(x) == c
  {
    FilterMembers(s, Owned(owner, c));
  }

  /** `DELETE … WHERE owner IN (:ids)` on a table with a generated key. */
  function DeleteOwnedBy<R>(t: Table<R>, owner: R -> int, ids: seq<int>): (u: Table<R>)
    ensures u.lastId == t.lastId
  {
    Table(DeleteIn(t.rows, owner, ids), t.lastId)
  }

  /** Deleting by other owners leaves one owner's rows as they are. */
  lemma {:induction false} DeleteOthersKeeps<R>(rows: seq<R>, owner: R -> int, ids: seq<int>, c: int)
    requires c !in ids
    ensures Filter(DeleteIn(rows, owner, ids), Owned(owner, c)) == Filter(rows, Owned(owner, c))
  {
    if rows != [] {
      var x, tail := rows[0], rows[1..];
      var kept := DeleteIn(tail, owner, ids);
      DeleteOthersKeeps(tail, owner, ids, c);
      assert rows == [x] + tail;
      assert Filter(rows, Owned(owner, c)) == if owner(x) == c then [x] + Filter(tail, Owned(owner, c)) else Filter(tail, Owned(owner, c));
      if owner(x) !in ids {
        assert DeleteIn(rows, owner, ids) == [x] + kept;
        assert Filter([x] + kept, Owned(owner, c)) == if owner(x) == c then [x] + Filter(kept, Owned(owner, c)) else Filter(kept, Owned(owner, c)) by {
          assert ([x] + kept)[1..] == kept;
        }
      } else {
        assert DeleteIn(rows, owner, ids) == kept;
      }
    }
  }

  /** Deleting by an owner leaves none of its rows. */
  lemma DeleteOwnEmpties<R>(rows: seq<R>, owner: R -> int, ids: seq<int>, c: int)
    requires c in ids
    ensures Filter(DeleteIn(rows, owner, ids), Owned(owner, c)) == []
  {
    FilterNone(DeleteIn(rows, owner, ids), Owned(owner, c));
  }

  /** Rows with id 0 never replace anything: each one adds a row, so the
    * number of rows of one owner (`mine`) grows by its number of such rows. */
  lemma {:induction false} UpsertUnsetChildrenAdds<R>(t: Table<R>, rs: seq<R>, id: R -> int,
                                                     withId: (R, int) -> R, mine: R -> bool)
    requires forall r, n :: mine(withId(r, n)) == mine(r)
    requires forall i :: 0 <= i < |rs| ==> id(rs[i]) == 0
    ensures |Filter(UpsertChildren(t, rs, id, withId).rows, mine)| == |Filter(t.rows, mine)| + |Filter(rs, mine)|
  {
    if rs != [] {
      var n := |rs| - 1;
      var u := UpsertChildren(t, rs[..n], id, withId);
      UpsertUnsetChildrenAdds(t, rs[..n], id, withId, mine);
      FilterConcat(u.rows, [withId(rs[n], u.lastId + 1)], mine);
      FilterConcat(rs[..n], [rs[n]], mine);
      assert rs == rs[..n] + [rs[n]];
    }
  }

  /** Rows with id 0 that are not the owner's leave its rows as they are. */
  lemma {:induction false} UpsertUnsetOthers<R>(t: Table<R>, rs: seq<R>, id: R -> int,
                                               withId: (R, int) -> R, mine: R -> bool)
    requires forall r, n :: mine(withId(r, n)) == mine(r)
    requires forall i :: 0 <= i < |rs| ==> id(rs[i]) == 0 && !mine(rs[i])
    ensures Filter(UpsertChildren(t, rs, id, withId).rows, mine) == Filter(t.rows, mine)
  {
    if rs != [] {
      var n := |rs| - 1;
      var u := UpsertChildren(t, rs[..n], id, withId);
      UpsertUnsetOthers(t, rs[..n], id, withId, mine);
      var x := withId(rs[n], u.lastId + 1);
      assert UpsertChildren(t, rs, id, withId).rows == u.rows + [x];
      FilterConcat(u.rows, [x], mine);
      assert Filter([x], mine) == [];
    }
  }

  /** Starting from no rows of the owner (`mine`), rows with id 0 that all
    * belong to it are stored in order, each under a fresh id: clearing the id
    * gives them back. */
  lemma {:induction false} UpsertUnsetChildrenStored<R>(t: Table<R>, rs: seq<R>, id: R -> int,
                                                       withId: (R, int) -> R, clear: R -> R,
                                                       mine: R -> bool)
    requires forall r, n :: mine(withId(r, n)) == mine(r)
    requires forall r, n :: id(r) == 0 ==> clear(withId(r, n)) == r
    requires forall i :: 0 <= i < |rs| ==> id(rs[i]) == 0 && mine(rs[i])
    requires Filter(t.rows, mine) == []
    ensures Keys(Filter(UpsertChildren(t, rs, id, withId).rows, mine), clear) == rs
  {
    if rs != [] {
      var n := |rs| - 1;
      var u := UpsertChildren(t, rs[..n], id, withId);
      var a := Filter(u.rows, mine);
      assert Keys(a, clear) == rs[..n] by {
        UpsertUnsetChildrenStored(t, rs[..n], id, withId, clear, mine);
      }
      assert Keys(Filter(UpsertChildren(t, rs, id, withId).rows, mine), clear) == Keys(a, clear) + [rs[n]] by {
        assert UpsertChildren(t, rs, id, withId) == UpsertChild(u, rs[n], id, withId);
        StoredStep(u, rs[n], id, withId, clear, mine, a);
      }
      assert rs == rs[..n] + [rs[n]];
    }
  }

  lemma StoredStep<R>(u: Table<R>, r: R, id: R -> int, withId: (R, int) -> R, clear: R -> R,
                      mine: R -> bool, a: seq<R>)
    requires id(r) == 0
    requires mine(withId(r, u.lastId + 1)) && clear(withId(r, u.lastId + 1)) == r
    requires a == Filter(u.rows, mine)
    ensures Keys(Filter(UpsertChild(u, r, id, withId).rows, mine), clear) == Keys(a, clear) + [r]
  {
    var x := withId(r, u.lastId + 1);
    var rows := UpsertChild(u, r, id, withId).rows;
    assert rows == u.rows + [x];
    assert Filter(rows, mine) == a + [x] by {
      FilterConcat(u.rows, [x], mine);
      assert Filter([x], mine) == [x];
    }
    assert Keys(a + [x], clear) == Keys(a, clear) + [r] by {
      KeysConcat(a, [x], clear);
      assert Keys([x], clear) == [r];
    }
  }

  /** The intended upsert of one owner's fresh rows, on one table: after its
    * old rows are deleted, the owner's rows are exactly the given ones, in
    * order, each under a fresh id (clearing the id gives them back). */
  lemma ReplaceOwnRows<R>(t: Table<R>, rs: seq<R>, id: R -> int, withId: (R, int) -> R,
                          clear: R -> R, owner: R -> int, c: int)
    requires forall r, n :: owner(withId(r, n)) == owner(r)
    requires forall r, n :: id(r) == 0 ==> clear(withId(r, n)) == r
    requires forall i :: 0 <= i < |rs| ==> id(rs[i]) == 0 && owner(rs[i]) == c
    ensures Keys(Filter(UpsertChildren(DeleteOwnedBy(t, owner, [c]), rs, id, withId).rows, Owned(owner, c)), clear) == rs
  {
    DeleteOwnEmpties(t.rows, owner, [c], c);
    UpsertUnsetChildrenStored(DeleteOwnedBy(t, owner, [c]), rs, id, withId, clear, Owned(owner, c));
  }

  /** The same upsert leaves every other owner's rows on that table as they were. */
  lemma ReplaceOtherRows<R>(t: Table<R>, rs: seq<R>, id: R -> int, withId: (R, int) -> R,
                            owner: R -> int, c: int, k: int)
    requires k != c
    requires forall r, n :: owner(withId(r, n)) == owner(r)
    requires forall i :: 0 <= i < |rs| ==> id(rs[i]) == 0 && owner(rs[i]) == c
    ensures Filter(UpsertChildren(DeleteOwnedBy(t, owner, [c]), rs, id, withId).rows, Owned(owner, k))
         == Filter(t.rows, Owned(owner, k))
  {
    DeleteOthersKeeps(t.rows, owner, [c], k);
    UpsertUnsetOthers(DeleteOwnedBy(t, owner, [c]), rs, id, withId, Owned(owner, k));
  }

  /** Upserting one owner's fresh rows without deleting first: its stored
    * rows grow by all of them. */
  lemma SaveOwnRowsAdds<R>(t: Table<R>, rs: seq<R>, id: R -> int, withId: (R, int) -> R,
                           owner: R -> int, c: int)
    requires forall r, n :: owner(withId(r, n)) == owner(r)
    requires forall i :: 0 <= i < |rs| ==> id(rs[i]) == 0 && owner(rs[i]) == c
    ensures |Filter(UpsertChildren(t, rs, id, withId).rows, Owned(owner, c))| == |Filter(t.rows, Owned(owner, c))| + |rs|
  {
    UpsertUnsetChildrenAdds(t, rs, id, withId, Owned(owner, c));
    FilterAll(rs, Owned(owner, c));
  }

  // ---- paged reads

  /** Descending order of a key. */
  function Descending<R>(key: R -> int): (R, R) -> bool
  {
    (a, b) => key(a) >= key(b)
  }

  lemma DescendingPreorder<R(!new)>(key: R -> int)
    ensures TotalPreorder(Descending(key))
  {
  }

  /** `ORDER BY key DESC LIMIT n`; rows with equal keys keep table order. */
  function FirstPage<R>(t: seq<R>, key: R -> int, n: nat): (p: seq<R>)
    ensures |p| == if n < |t| then n else |t|
  {
    Take(SortBy(t, Descending(key)), n)
  }

  /** `WHERE key < ?`, in table order. */
  function Below<R>(t: seq<R>, key: R -> int, bound: int): (r: seq<R>)
    ensures forall i :: 0 <= i < |r| ==> key(r[i]) < bound
  {
    Filter(t, x => key(x) < bound)
  }

  /** `Below` of a record in front of a table. */
  lemma BelowCons<R>(x: R, t: seq<R>, key: R -> int, bound: int)
    ensures Below([x] + t, key, bound) == (if key(x) < bound then [x] else []) + Below(t, key, bound)
  {
    assert ([x] + t)[1..] == t;
  }

  /** `WHERE key >= ?`, in table order. */
  function AtLeast<R>(t: seq<R>, key: R -> int, bound: int): (r: seq<R>)
    ensures forall i :: 0 <= i < |r| ==> key(r[i]) >= bound
  {
    Filter(t, x => key(x) >= bound)
  }

  /** Filtering by a narrower predicate after a wider one is filtering by the narrower alone. */
  lemma {:induction false} FilterNarrow<T>(s: seq<T>, p: T -> bool, q: T -> bool)
    requires forall x :: q(x) ==> p(x)
    ensures Filter(Filter(s, p), q) == Filter(s, q)
  {
    if s != [] {
      FilterNarrow(s[1..], p, q);
    }
  }

  /** An owner below the bound keeps all of its rows in `Below`. */
  lemma BelowOwned<R>(t: seq<R>, owner: R -> int, bound: int, c: int)
    requires c < bound
    ensures Filter(Below(t, owner, bound), Owned(owner, c)) == Filter(t, Owned(owner, c))
  {
    FilterNarrow(t, x => owner(x) < bound, Owned(owner, c));
  }

  /** An owner at or above the bound keeps all of its rows in `AtLeast`. */
  lemma AtLeastOwned<R>(t: seq<R>, owner: R -> int, bound: int, c: int)
    requires c >= bound
    ensures Filter(AtLeast(t, owner, bound), Owned(owner, c)) == Filter(t, Owned(owner, c))
  {
    FilterNarrow(t, x => owner(x) >= bound, Owned(owner, c));
  }

  /** Occurrences after filtering: those of the kept values. */
  lemma {:induction false} FilterCount<T>(s: seq<T>, p: T -> bool, x: T)
    ensures multiset(Filter(s, p))[x] == if p(x) then multiset(s)[x] else 0
  {
    if s != [] {
      FilterCount(s[1..], p, x);
      assert s == [s[0]] + s[1..];
    }
  }

  /** Filtering two arrangements of the same rows gives arrangements of the same rows. */
  lemma FilterPermutation<T>(a: seq<T>, b: seq<T>, p: T -> bool)
    requires multiset(a) == multiset(b)
    ensures multiset(Filter(a, p)) == multiset(Filter(b, p))
  {
    forall x ensures multiset(Filter(a, p))[x] == multiset(Filter(b, p))[x] {
      FilterCount(a, p, x);
      FilterCount(b, p, x);
    }
  }

  /** Filtering with a predicate no element satisfies gives nothing. */
  lemma {:induction false} FilterNone<T>(s: seq<T>, p: T -> bool)
    requires forall i :: 0 <= i < |s| ==> !p(s[i])
    ensures Filter(s, p) == []
  {
    if s != [] {
      FilterNone(s[1..], p);
    }
  }

  /** In a list sorted by descending unique keys, the rows below the key at
    * position `m - 1` are exactly those after it. */
  lemma SortedBelow<R>(sorted: seq<R>, key: R -> int, m: nat)
    requires 0 < m <= |sorted|
    requires Sorted(sorted, Descending(key)) && DistinctKeys(sorted, key)
    ensures Below(sorted, key, key(sorted[m - 1])) == sorted[m..]
  {
    var bound := key(sorted[m - 1]);
    assert sorted == sorted[..m] + sorted[m..];
    forall i | 0 <= i < m ensures !(key(sorted[..m][i]) < bound) {
      assert i == m - 1 || Descending(key)(sorted[i], sorted[m - 1]);
    }
    forall i | 0 <= i < |sorted[m..]| ensures key(sorted[m..][i]) < bound {
      assert Descending(key)(sorted[m - 1], sorted[m + i]);
      assert key(sorted[m - 1]) != key(sorted[m + i]);
    }
    FilterNone(sorted[..m], x => key(x) < bound);
    FilterAll(sorted[m..], x => key(x) < bound);
    FilterConcat(sorted[..m], sorted[m..], x => key(x) < bound);
  }

  /** The descending sort of a table with unique keys. */
  lemma SortedDescending<R(!new)>(t: seq<R>, key: R -> int)
    requires DistinctKeys(t, key)
    ensures Sorted(SortBy(t, Descending(key)), Descending(key))
    ensures DistinctKeys(SortBy(t, Descending(key)), key)
  {
    DescendingPreorder(key);
    SortBySorted(t, Descending(key));
    DistinctKeysPermutation(t, SortBy(t, Descending(key)), key);
  }

  /** Descending-page-then-rest: with unique keys, the first page together
    * with the rows below the page's last key are all the rows, each once. */
  lemma PageThenBelow<R(!new)>(t: seq<R>, key: R -> int, n: nat)
    requires DistinctKeys(t, key)
    requires FirstPage(t, key, n) != []
    ensures var p := FirstPage(t, key, n);
      multiset(p + Below(t, key, key(p[|p| - 1]))) == multiset(t)
  {
    var sorted := SortBy(t, Descending(key));
    var p := FirstPage(t, key, n);
    var m := |p|;
    var bound := key(p[m - 1]);
    var rest := Below(t, key, bound);
    assert p == sorted[..m];
    assert multiset(rest) == multiset(sorted[m..]) by {
      SortedDescending(t, key);
      SortedBelow(sorted, key, m);
      FilterPermutation(t, sorted, x => key(x) < bound);
    }
    SplitMultiset(sorted, m);
  }

  /** Every row of the first page has a key at least that of the page's last row. */
  lemma FirstPageAbove<R(!new)>(t: seq<R>, key: R -> int, n: nat, i: nat)
    requires i < |FirstPage(t, key, n)|
    ensures key(FirstPage(t, key, n)[i]) >= key(FirstPage(t, key, n)[|FirstPage(t, key, n)| - 1])
  {
    var sorted := SortBy(t, Descending(key));
    var p := FirstPage(t, key, n);
    DescendingPreorder(key);
    SortBySorted(t, Descending(key));
    assert p[i] == sorted[i] && p[|p| - 1] == sorted[|p| - 1];
    if i < |p| - 1 {
      assert Descending(key)(sorted[i], sorted[|p| - 1]);
    }
  }

  lemma SplitMultiset<T>(s: seq<T>, m: nat)
    requires m <= |s|
    ensures multiset(s[..m]) + multiset(s[m..]) == multiset(s)
  {
    assert s == s[..m] + s[m..];
  }
}
