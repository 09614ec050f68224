// `EntityDataProcessing` in both modules: merging a new contact list into an
// old one through an insertion-ordered map keyed by id, and the in-place
// sorts by display name (a locale collator) and by recency.
module EntityProcessing {
  import opened Wrappers
  import opened Seqs
  import opened Sorting
  import opened ListSort
  import opened Entities
  import opened Reconcile
  import opened LinkedMap

  /** The map after `associateBy` on the old list and a `put` per new item. */
  function MergedMap<T, K>(olds: seq<T>, news: seq<T>, key: T -> K): (m: Linked<K, T>)
    ensures Valid(m)
    ensures m.keys == Distinct(Keys(olds + news, key))
    ensures m.entries == AssociateBy(olds, key) + AssociateBy(news, key)
  {
    PutAllConcat(Linked([], map[]), olds, news, key);
    PutAllFromEmpty(olds + news, key);
    AssociateByConcat(olds, news, key);
    PutAll(PutAll(Linked([], map[]), olds, key), news, key)
  }

  /** `contactPersonEntityAddOrUpdate`: the map's values, sorted by `le`. */
  function AddOrUpdate<T, K(==)>(olds: seq<T>, news: seq<T>, key: T -> K, le: (T, T) -> bool): seq<T>
  {
    SortBy(Values(MergedMap(olds, news, key)), le)
  }

  /** The map's values carry their own ids, which are distinct. */
  lemma ValuesKeyed<T, K>(olds: seq<T>, news: seq<T>, key: T -> K)
    ensures var m := MergedMap(olds, news, key);
      forall i :: 0 <= i < |m.keys| ==> key(Values(m)[i]) == m.keys[i]
    ensures DistinctKeys(Values(MergedMap(olds, news, key)), key)
  {
    var m := MergedMap(olds, news, key);
    var vs := Values(m);
    forall i | 0 <= i < |vs| ensures key(vs[i]) == m.keys[i] {
      var q := m.keys[i];
      assert q in m.entries;
      if q !in AssociateBy(news, key) {
        assert q in AssociateBy(olds, key);
      }
    }
  }

  /** An element of the result is one of the map's values, and back. */
  lemma AddOrUpdateElements<T, K>(olds: seq<T>, news: seq<T>, key: T -> K, le: (T, T) -> bool, x: T)
    ensures x in AddOrUpdate(olds, news, key, le) <==> x in Values(MergedMap(olds, news, key))
  {
    var vs := Values(MergedMap(olds, news, key));
    var r := AddOrUpdate(olds, news, key, le);
    assert multiset(r) == multiset(vs);
    assert x in r <==> x in multiset(r);
    assert x in vs <==> x in multiset(vs);
  }

  /** Every id in the result comes from the old or the new list. */
  lemma AddOrUpdateOnlyIds<T, K>(olds: seq<T>, news: seq<T>, key: T -> K, le: (T, T) -> bool, k: K)
    requires HasKey(AddOrUpdate(olds, news, key, le), key, k)
    ensures HasKey(olds, key, k) || HasKey(news, key, k)
  {
    var m := MergedMap(olds, news, key);
    var vs := Values(m);
    var r := AddOrUpdate(olds, news, key, le);
    ValuesKeyed(olds, news, key);
    var i :| 0 <= i < |r| && key(r[i]) == k;
    AddOrUpdateElements(olds, news, key, le, r[i]);
    var j :| 0 <= j < |vs| && vs[j] == r[i];
    assert m.keys[j] in m.entries;
    AssociateByKeys(olds, key, k);
    AssociateByKeys(news, key, k);
  }

  /** No id of the old or the new list is dropped. */
  lemma AddOrUpdateKeepsIds<T, K>(olds: seq<T>, news: seq<T>, key: T -> K, le: (T, T) -> bool, k: K)
    requires HasKey(olds, key, k) || HasKey(news, key, k)
    ensures HasKey(AddOrUpdate(olds, news, key, le), key, k)
  {
    var m := MergedMap(olds, news, key);
    var vs := Values(m);
    AssociateByKeys(olds, key, k);
    AssociateByKeys(news, key, k);
    assert k in m.entries;
    var j :| 0 <= j < |m.keys| && m.keys[j] == k;
    ValuesKeyed(olds, news, key);
    AddOrUpdateElements(olds, news, key, le, vs[j]);
  }

  /** One entry per id, and no id dropped: the result's ids are exactly the ids
    * of the old and the new list. */
  lemma AddOrUpdateIds<T, K>(olds: seq<T>, news: seq<T>, key: T -> K, le: (T, T) -> bool, k: K)
    ensures HasKey(AddOrUpdate(olds, news, key, le), key, k) <==> HasKey(olds, key, k) || HasKey(news, key, k)
  {
    if HasKey(AddOrUpdate(olds, news, key, le), key, k) {
      AddOrUpdateOnlyIds(olds, news, key, le, k);
    }
    if HasKey(olds, key, k) || HasKey(news, key, k) {
      AddOrUpdateKeepsIds(olds, news, key, le, k);
    }
  }

  /** Each id appears once in the result. */
  lemma AddOrUpdateDistinct<T, K>(olds: seq<T>, news: seq<T>, key: T -> K, le: (T, T) -> bool)
    ensures DistinctKeys(AddOrUpdate(olds, news, key, le), key)
  {
    ValuesKeyed(olds, news, key);
    DistinctKeysPermutation(Values(MergedMap(olds, news, key)), AddOrUpdate(olds, news, key, le), key);
  }

  /** The last new item with an id wins; an id only the old list has keeps the
    * last old item with it. */
  lemma AddOrUpdateValues<T, K>(olds: seq<T>, news: seq<T>, key: T -> K, le: (T, T) -> bool, i: nat)
    requires i < |AddOrUpdate(olds, news, key, le)|
    ensures var x := AddOrUpdate(olds, news, key, le)[i];
      && (key(x) in AssociateBy(news, key) ==> x == AssociateBy(news, key)[key(x)])
      && (key(x) !in AssociateBy(news, key) ==>
            key(x) in AssociateBy(olds, key) && x == AssociateBy(olds, key)[key(x)])
  {
    var m := MergedMap(olds, news, key);
    var vs := Values(m);
    var x := AddOrUpdate(olds, news, key, le)[i];
    ValuesKeyed(olds, news, key);
    AddOrUpdateElements(olds, news, key, le, x);
    var j :| 0 <= j < |vs| && vs[j] == x;
    assert m.keys[j] in m.entries;
  }

  /** Under a total preorder the result is sorted. */
  lemma AddOrUpdateSorted<T(!new), K>(olds: seq<T>, news: seq<T>, key: T -> K, le: (T, T) -> bool)
    requires TotalPreorder(le)
    ensures Sorted(AddOrUpdate(olds, news, key, le), le)
  {
    SortBySorted(Values(MergedMap(olds, news, key)), le);
  }

  /** The map after putting each element of `s`, in order, over `m`. */
  method PutEach<T, K(==)>(m0: Linked<K, T>, s: seq<T>, key: T -> K) returns (m: Linked<K, T>)
    ensures m == PutAll(m0, s, key)
  {
    m := m0;
    var i := 0;
    while i < |s|
      invariant 0 <= i <= |s|
      invariant m == PutAll(m0, s[..i], key)
    {
      m := Put(m, key(s[i]), s[i]);
      assert s[..i + 1][..i] == s[..i];
      i := i + 1;
    }
    assert s[..i] == s;
  }

  /** `values.toMutableList()`. */
  method ValuesList<K, V>(m: Linked<K, V>) returns (values: seq<V>)
    requires forall i :: 0 <= i < |m.keys| ==> m.keys[i] in m.entries
    ensures values == Values(m)
  {
    values := [];
    var k := 0;
    while k < |m.keys|
      invariant 0 <= k <= |m.keys|
      invariant values == Values(m)[..k]
    {
      values := values + [m.entries[m.keys[k]]];
      k := k + 1;
    }
  }

  /** `contactPersonEntityAddOrUpdate`, step by step: the old list into the
    * map, each new item `put` over it, the values out, sorted in place. */
  method AddOrUpdateBy<T, K(==)>(oldDataList: seq<T>, newDataList: seq<T>, key: T -> K, le: (T, T) -> bool)
    returns (updatedList: seq<T>)
    ensures updatedList == AddOrUpdate(oldDataList, newDataList, key, le)
  {
    var oldDataMap := PutEach(Linked([], map[]), oldDataList, key);
    var m := PutEach(oldDataMap, newDataList, key);
    assert m == MergedMap(oldDataList, newDataList, key);
    var values := ValuesList(m);
    updatedList := SortSeq(values, le);
  }

  /** The communication module's comparator: a locale collator (`compare <= 0`)
    * on display names. */
  function NameOrder(collate: (string, string) -> bool): (ContactPerson, ContactPerson) -> bool
  {
    (a: ContactPerson, b: ContactPerson) => collate(a.baseInfo.disPlayName, b.baseInfo.disPlayName)
  }

  lemma NameOrderPreorder(collate: (string, string) -> bool)
    requires TotalPreorder(collate)
    ensures TotalPreorder(NameOrder(collate))
  {
    var le := NameOrder(collate);
    forall a: ContactPerson, b: ContactPerson ensures le(a, b) || le(b, a) {
      assert collate(a.baseInfo.disPlayName, b.baseInfo.disPlayName) || collate(b.baseInfo.disPlayName, a.baseInfo.disPlayName);
    }
    forall a: ContactPerson, b: ContactPerson, c: ContactPerson | le(a, b) && le(b, c) ensures le(a, c) {
      assert collate(a.baseInfo.disPlayName, b.baseInfo.disPlayName) && collate(b.baseInfo.disPlayName, c.baseInfo.disPlayName);
    }
  }

  /** communication `contactPersonEntityAddOrUpdate`, keyed by the Long contact id. */
  method ContactPersonEntityAddOrUpdate(oldDataList: seq<ContactPerson>, newDataList: seq<ContactPerson>,
                                        collate: (string, string) -> bool)
    returns (updatedList: seq<ContactPerson>)
    ensures updatedList == AddOrUpdate(oldDataList, newDataList, ContactIdOf, NameOrder(collate))
  {
    updatedList := AddOrUpdateBy(oldDataList, newDataList, ContactIdOf, NameOrder(collate));
  }

  /** communication `nameSort`, in place. */
  method NameSort(list: array<ContactPerson>, collate: (string, string) -> bool)
    modifies list
    ensures list[..] == SortBy(old(list[..]), NameOrder(collate))
  {
    SortInPlace(list, NameOrder(collate));
  }

  /** `recentSort`'s comparator: `date` descending, ties by `time` descending,
    * both compared as strings. */
  predicate RecentFirst(a: CallLog, b: CallLog)
  {
    if a.date == b.date then StrLe(b.time, a.time) else StrLe(b.date, a.date)
  }

  lemma RecentFirstPreorder()
    ensures TotalPreorder(RecentFirst)
  {
    forall a: CallLog, b: CallLog ensures RecentFirst(a, b) || RecentFirst(b, a) {
      StrLeTotal(a.date, b.date);
      StrLeTotal(a.time, b.time);
    }
    forall a: CallLog, b: CallLog, c: CallLog | RecentFirst(a, b) && RecentFirst(b, c)
      ensures RecentFirst(a, c)
    {
      if a.date == b.date && b.date == c.date {
        StrLeTransitive(c.time, b.time, a.time);
      } else if a.date == b.date {
      } else if b.date == c.date {
      } else {
        StrLeTransitive(c.date, b.date, a.date);
        if a.date == c.date {
          StrLeAntisymmetric(a.date, b.date);
        }
      }
    }
  }

  /** `recentSort`, in place. */
  method RecentSort(list: array<CallLog>)
    modifies list
    ensures list[..] == SortBy(old(list[..]), RecentFirst)
  {
    SortInPlace(list, RecentFirst);
  }

  /** Once sorted, a newer day comes first, and on the same day a later time. */
  lemma RecentSortOrders(s: seq<CallLog>, i: nat, j: nat)
    requires i < j < |s|
    ensures multiset(SortBy(s, RecentFirst)) == multiset(s)
    ensures var r := SortBy(s, RecentFirst);
      if r[i].date == r[j].date then StrLe(r[j].time, r[i].time) else StrLe(r[j].date, r[i].date)
  {
    RecentFirstPreorder();
    SortBySorted(s, RecentFirst);
  }

  /** The app module's comparator: the collator on the nullable display names. */
  function AppNameOrder(collate: (Option<string>, Option<string>) -> bool): (AppContact, AppContact) -> bool
  {
    (a: AppContact, b: AppContact) => collate(a.disPlayName, b.disPlayName)
  }

  /** `Collator.compare` throws a NullPointerException on a null display
    * name, and `sortWith` compares every element of a list of two or more
    * and none of a shorter one: app `nameSort` throws exactly here. */
  predicate NameSortThrows(list: seq<AppContact>)
  {
    |list| >= 2 && exists i :: 0 <= i < |list| && list[i].disPlayName.None?
  }

  /** Whether `nameSort` throws does not depend on the order of the list. */
  lemma NameSortThrowsPermutation(s: seq<AppContact>, t: seq<AppContact>)
    requires multiset(s) == multiset(t)
    ensures NameSortThrows(s) <==> NameSortThrows(t)
  {
    assert |s| == |multiset(s)| == |multiset(t)| == |t|;
    if exists i :: 0 <= i < |s| && s[i].disPlayName.None? {
      var i :| 0 <= i < |s| && s[i].disPlayName.None?;
      assert s[i] in multiset(t);
      var j :| 0 <= j < |t| && t[j] == s[i];
    }
    if exists j :: 0 <= j < |t| && t[j].disPlayName.None? {
      var j :| 0 <= j < |t| && t[j].disPlayName.None?;
      assert t[j] in multiset(s);
      var i :| 0 <= i < |s| && s[i] == t[j];
    }
  }

  /** app `contactPersonEntityAddOrUpdate` throws when `nameSort` does on the
    * map's values. */
  predicate AddOrUpdateThrows(olds: seq<AppContact>, news: seq<AppContact>)
  {
    NameSortThrows(Values(MergedMap(olds, news, AppContactIdOf)))
  }

  /** A merge of contacts that all have a display name does not throw. */
  lemma AddOrUpdateNamed(olds: seq<AppContact>, news: seq<AppContact>)
    requires forall i :: 0 <= i < |olds| ==> olds[i].disPlayName.Some?
    requires forall i :: 0 <= i < |news| ==> news[i].disPlayName.Some?
    ensures !AddOrUpdateThrows(olds, news)
  {
    var m := MergedMap(olds, news, AppContactIdOf);
    var vs := Values(m);
    forall j | 0 <= j < |vs| ensures vs[j].disPlayName.Some? {
      var k := m.keys[j];
      if k in AssociateBy(news, AppContactIdOf) {
        var y := AssociateBy(news, AppContactIdOf)[k];
        var i :| 0 <= i < |news| && news[i] == y;
      } else {
        var y := AssociateBy(olds, AppContactIdOf)[k];
        var i :| 0 <= i < |olds| && olds[i] == y;
      }
    }
  }

  /** A merge holding two or more ids throws when the last new contact has
    * no display name, since its `put` is the one its id keeps. */
  lemma AddOrUpdateNamelessLast(olds: seq<AppContact>, news: seq<AppContact>)
    requires news != [] && news[|news| - 1].disPlayName.None?
    requires |Distinct(Keys(olds + news, AppContactIdOf))| >= 2
    ensures AddOrUpdateThrows(olds, news)
  {
    var m := MergedMap(olds, news, AppContactIdOf);
    var x := news[|news| - 1];
    assert AssociateBy(news, AppContactIdOf)[x.contactId] == x;
    assert m.entries[x.contactId] == x;
    var j :| 0 <= j < |m.keys| && m.keys[j] == x.contactId;
    assert Values(m)[j] == x;
  }

  /** app `contactPersonEntityAddOrUpdate`, keyed by the String contact id:
    * the map built, then `nameSort` of its values, which throws or sorts. */
  method AppContactPersonEntityAddOrUpdate(oldDataList: seq<AppContact>, newDataList: seq<AppContact>,
                                           collate: (Option<string>, Option<string>) -> bool)
    returns (threw: bool, updatedList: seq<AppContact>)
    ensures threw <==> AddOrUpdateThrows(oldDataList, newDataList)
    ensures !threw ==> updatedList == AddOrUpdate(oldDataList, newDataList, AppContactIdOf, AppNameOrder(collate))
  {
    var oldDataMap := PutEach(Linked([], map[]), oldDataList, AppContactIdOf);
    var m := PutEach(oldDataMap, newDataList, AppContactIdOf);
    assert m == MergedMap(oldDataList, newDataList, AppContactIdOf);
    var values := ValuesList(m);
    threw, updatedList := SortedCopy(values, collate);
  }

  /** app `nameSort`, in place: it throws, leaving the list as it was, or
    * leaves the stable sort by display name. */
  method AppNameSort(list: array<AppContact>, collate: (Option<string>, Option<string>) -> bool)
    returns (threw: bool)
    modifies list
    ensures threw <==> NameSortThrows(old(list[..]))
    ensures threw ==> list[..] == old(list[..])
    ensures !threw ==> list[..] == SortBy(old(list[..]), AppNameOrder(collate))
  {
    threw := list.Length >= 2 && exists i :: 0 <= i < list.Length && list[i].disPlayName.None?;
    if !threw {
      SortInPlace(list, AppNameOrder(collate));
    }
  }

  /** `nameSort` of a fresh mutable copy of a list: whether it threw, else
    * the sorted list. */
  method SortedCopy(details: seq<AppContact>, collate: (Option<string>, Option<string>) -> bool)
    returns (threw: bool, sorted: seq<AppContact>)
    ensures threw <==> NameSortThrows(details)
    ensures !threw ==> sorted == SortBy(details, AppNameOrder(collate))
  {
    var list := new AppContact[|details|](i requires 0 <= i < |details| => details[i]);
    assert list[..] == details;
    threw := AppNameSort(list, collate);
    sorted := list[..];
  }
}
