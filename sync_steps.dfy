// The steps every sync pass runs on its working copy of the snapshot, as the
// managers and services write them: `partition` of the delta against the
// snapshot's `associateBy` map, `addAll` of the new ids, a `forEach` that
// replaces each known id where it stands, and the census-driven removal.
// Each method is proved equal to its reference function in `Reconcile`.
module SyncSteps {
  import opened Seqs
  import opened Sorting
  import opened Reconcile

  /** What a pass does outside its working list, in the order it does it:
    * publish a snapshot, write rows to the store, delete ids from the store,
    * advance the persisted cursor, or delete a record from the system. */
  datatype Effect<R, K> =
    | Published(list: seq<R>)
    | Upserted(rows: seq<R>)
    | Deleted(ids: seq<K>)
    | CursorSet(time: int)
    | SystemDeleted(id: K)

  /** `updates.forEach { currentMap[id(new)]?.let { old -> list[list.indexOf(old)] = new } }`. */
  method ReplaceEach<T(==), K(==)>(list: seq<T>, updates: seq<T>, current: seq<T>, key: T -> K)
    returns (r: seq<T>)
    ensures r == ApplyUpdates(list, updates, current, key)
  {
    var currentMap := AssociateBy(current, key);
    r := list;
    var i := 0;
    while i < |updates|
      invariant 0 <= i <= |updates|
      invariant r == ApplyUpdates(list, updates[..i], current, key)
    {
      var u := updates[i];
      if key(u) in currentMap {
        var index := IndexOf(r, currentMap[key(u)]);
        if index != -1 {
          r := r[index := u];
        }
      }
      assert updates[..i + 1][..i] == updates[..i];
      i := i + 1;
    }
    assert updates[..i] == updates;
  }

  /** The contact merge of a non-empty delta: the new ids appended, then the
    * known ids replaced in place; an empty delta leaves the list alone. */
  method AppendAndReplace<T(==), K(==)>(current: seq<T>, delta: seq<T>, key: T -> K)
    returns (r: seq<T>)
    ensures r == MergeAppend(current, delta, key)
  {
    r := current;
    if delta != [] {
      var updates, adds := Updates(delta, current, key), Adds(delta, current, key);
      if adds != [] {
        r := r + adds;
      } else {
        assert r + adds == r;
      }
      r := ReplaceEach(r, updates, current, key);
    }
  }

  /** The call-log merge of a non-empty delta: the new ids put in front
    * (`addAll(0, …)`), then the known ids replaced in place. */
  method PrependAndReplace<T(==), K(==)>(current: seq<T>, delta: seq<T>, key: T -> K)
    returns (r: seq<T>)
    ensures r == MergePrepend(current, delta, key)
  {
    r := current;
    if delta != [] {
      var updates, adds := Updates(delta, current, key), Adds(delta, current, key);
      if adds != [] {
        r := adds + r;
      } else {
        assert adds + r == r;
      }
      r := ReplaceEach(r, updates, current, key);
    }
  }

  /** `list.remove(x)`: the first element equal to `x` is removed, if any. */
  function RemoveFirst<T(==)>(s: seq<T>, x: T): (r: seq<T>)
    ensures x in s ==> multiset(r) == multiset(s) - multiset{x} && |r| == |s| - 1
    ensures x !in s ==> r == s
  {
    var i := IndexOf(s, x);
    if i == -1 then s
    else
      assert s == s[..i] + [s[i]] + s[i + 1..];
      s[..i] + s[i + 1..]
  }

  /** Removing the first occurrence keeps every other element in order. */
  lemma RemoveFirstKeepsOrder<T>(s: seq<T>, x: T)
    requires x in s
    ensures var i := IndexOf(s, x);
      RemoveFirst(s, x) == s[..i] + s[i + 1..] && s[i] == x && x !in s[..i]
  {
  }
}
