// `ContactService`: the service object's copy of the contact sync. It keeps
// the same tables and cursor as `ContactManager`, but publishes a list
// without sorting it, sorts with the locale collator of `EntityDataProcessing`
// (a parameter here), sorts a merge only when the delta is non-empty, and
// upserts a delta after merging it rather than before.
module ContactServiceSync {
  import opened Wrappers
  import opened Seqs
  import opened Sorting
  import opened ListSort
  import opened Entities
  import opened Rows
  import opened Reconcile
  import opened Store
  import opened ContactStore
  import opened ContactData
  import opened ContactQuery
  import opened ContactLookup
  import opened SyncSteps
  import opened EntityProcessing
  import CS = ContactSync

  /** `_currentContacts.value = list`: published as it stands. */
  function Show(b: CS.Books, list: seq<ContactPerson>): CS.Books
  {
    b.(contacts := list, log := b.log + [Published(list)])
  }

  /** The working list after the merge step: a non-empty delta merged and
    * name-sorted; an empty delta leaves the copy as it was. */
  function Arranged(current: seq<ContactPerson>, delta: seq<ContactPerson>, collate: (string, string) -> bool)
    : seq<ContactPerson>
  {
    if delta == [] then current else SortBy(MergeAppend(current, delta, ContactIdOf), NameOrder(collate))
  }

  /** The list `mergeAndUpdateContacts` publishes and returns. */
  function ServiceMerged(current: seq<ContactPerson>, delta: seq<ContactPerson>, census: set<int>,
                         collate: (string, string) -> bool): seq<ContactPerson>
  {
    InCensus(Arranged(current, delta, collate), ContactIdOf, census)
  }

  /** The ids `mergeAndUpdateContacts` deletes, in the sorted list's order. */
  function ServiceStale(current: seq<ContactPerson>, delta: seq<ContactPerson>, census: set<int>,
                        collate: (string, string) -> bool): seq<int>
  {
    StaleIds(Arranged(current, delta, collate), ContactIdOf, census)
  }

  /** `mergeAndUpdateContacts`: a non-empty delta upserted, the stale ids
    * deleted if there are any, the cursor advanced, the merged list published. */
  function ServicePass(b: CS.Books, delta: seq<ContactPerson>, census: set<int>, now: int,
                       collate: (string, string) -> bool): CS.Books
  {
    var b1 := if delta == [] then b else CS.Upsert(b, delta);
    var stale := ServiceStale(b.contacts, delta, census, collate);
    var b2 := if stale == [] then b1 else CS.DeleteIds(b1, stale);
    Show(CS.SetCursor(b2, now), ServiceMerged(b.contacts, delta, census, collate))
  }

  /** `updateContactPersonListByTimestamp`: the pass over the contacts updated
    * after the cursor. */
  function ServiceTimestampPass(b: CS.Books, rows: seq<Row>, photoOf: int -> Option<Bitmap>, census: set<int>,
                                now: int, collate: (string, string) -> bool): CS.Books
  {
    ServicePass(b, QueryUpdatedContacts(rows, b.contactTime, photoOf), census, now, collate)
  }

  /** `storeInitialContacts`: the first `n` contacts upserted, the cursor
    * advanced, and the list published; the list object is published first
    * and sorted in place after, so the snapshot is the sorted list. */
  function ServiceStoreInitial(b: CS.Books, rows: seq<Row>, photoOf: int -> Option<Bitmap>, n: nat, now: int,
                               collate: (string, string) -> bool): CS.Books
  {
    var details := QueryResult(rows, Some(n), photoOf);
    Show(CS.SetCursor(CS.Upsert(b, details), now), SortBy(details, NameOrder(collate)))
  }

  /** `loadRemainingContacts`: an empty snapshot is left as it is; otherwise
    * the remaining contacts, if any, upserted, appended, sorted and published. */
  function ServiceRemaining(b: CS.Books, rows: seq<Row>, photoOf: int -> Option<Bitmap>,
                            collate: (string, string) -> bool): CS.Books
  {
    if b.contacts == [] then b
    else
      var rem := CS.Remaining(b.contacts, rows, photoOf);
      if rem == [] then b
      else Show(CS.Upsert(b, rem), SortBy(b.contacts + rem, NameOrder(collate)))
  }

  /** `loadAllContactPersonFromRoom`: the full join of the tables, published
    * and sorted in place. */
  function ServiceLoadAll(b: CS.Books, collate: (string, string) -> bool): CS.Books
  {
    Show(b, SortBy(FindAllContacts(b.db), NameOrder(collate)))
  }

  /** Filtering keeps a sorted list sorted. */
  lemma {:induction false} FilterSorted<T>(s: seq<T>, p: T -> bool, le: (T, T) -> bool)
    requires Sorted(s, le)
    ensures Sorted(Filter(s, p), le)
  {
    if s != [] {
      assert Sorted(s[1..], le);
      FilterSorted(s[1..], p, le);
      var r := Filter(s[1..], p);
      if p(s[0]) {
        forall j | 0 <= j < |r| ensures le(s[0], r[j]) {
          var i :| 0 <= i < |s[1..]| && s[1..][i] == r[j];
          assert s[i + 1] == r[j];
        }
      }
    }
  }

  /** The contacts the census holds, from two arrangements of the same
    * contacts, are arrangements of the same contacts. */
  lemma InCensusPermutation<T, K>(a: seq<T>, b: seq<T>, key: T -> K, census: set<K>)
    requires multiset(a) == multiset(b)
    ensures multiset(InCensus(a, key, census)) == multiset(InCensus(b, key, census))
  {
    FilterPermutation(a, b, x => key(x) in census);
  }

  /** The service's merge holds the same contacts as the manager's. */
  lemma ServiceMergedPermutes(current: seq<ContactPerson>, delta: seq<ContactPerson>, census: set<int>,
                              collate: (string, string) -> bool)
    ensures multiset(ServiceMerged(current, delta, census, collate)) == multiset(CS.MergePass(current, delta, census))
    ensures multiset(Arranged(current, delta, collate)) == multiset(MergeAppend(current, delta, ContactIdOf))
  {
    InCensusPermutation(Arranged(current, delta, collate), MergeAppend(current, delta, ContactIdOf), ContactIdOf, census);
  }

  /** A contact id survives the service's merge exactly when the snapshot or
    * the delta has it and the census does; a delta contact replaces the old
    * one; every other contact is the snapshot's. */
  lemma ServiceMergeOutcome(current: seq<ContactPerson>, delta: seq<ContactPerson>, census: set<int>,
                            collate: (string, string) -> bool, k: int)
    requires DistinctKeys(current, ContactIdOf) && DistinctKeys(delta, ContactIdOf)
    ensures var r := ServiceMerged(current, delta, census, collate);
      && (HasKey(r, ContactIdOf, k) <==> (HasKey(current, ContactIdOf, k) || HasKey(delta, ContactIdOf, k)) && k in census)
      && (forall i :: 0 <= i < |r| && ContactIdOf(r[i]) in AssociateBy(delta, ContactIdOf) ==>
            r[i] == AssociateBy(delta, ContactIdOf)[ContactIdOf(r[i])])
      && (forall i :: 0 <= i < |r| && ContactIdOf(r[i]) !in AssociateBy(delta, ContactIdOf) ==> r[i] in current)
  {
    var m := CS.MergePass(current, delta, census);
    var r := ServiceMerged(current, delta, census, collate);
    ServiceMergedPermutes(current, delta, census, collate);
    AppendPassOutcome(current, delta, ContactIdOf, census, k);
    PermutationKeys(r, m, ContactIdOf, k);
    forall i | 0 <= i < |r| ensures
      (ContactIdOf(r[i]) in AssociateBy(delta, ContactIdOf) ==> r[i] == AssociateBy(delta, ContactIdOf)[ContactIdOf(r[i])])
      && (ContactIdOf(r[i]) !in AssociateBy(delta, ContactIdOf) ==> r[i] in current)
    {
      var j :| 0 <= j < |m| && m[j] == r[i];
    }
  }

  /** The contacts the census holds, from a sorted list, stay sorted. */
  lemma InCensusSorted<T, K>(s: seq<T>, key: T -> K, census: set<K>, le: (T, T) -> bool)
    requires Sorted(s, le)
    ensures Sorted(InCensus(s, key, census), le)
  {
    FilterSorted(s, x => key(x) in census, le);
  }

  /** After a non-empty delta the published list is sorted by the collator. */
  lemma ServiceMergeSorted(current: seq<ContactPerson>, delta: seq<ContactPerson>, census: set<int>,
                           collate: (string, string) -> bool)
    requires TotalPreorder(collate) && delta != []
    ensures Sorted(ServiceMerged(current, delta, census, collate), NameOrder(collate))
  {
    NameOrderPreorder(collate);
    SortBySorted(MergeAppend(current, delta, ContactIdOf), NameOrder(collate));
    InCensusSorted(Arranged(current, delta, collate), ContactIdOf, census, NameOrder(collate));
  }

  /** After an empty delta nothing is re-sorted: the survivors keep the
    * snapshot's order, and a census that holds every id leaves the snapshot
    * as it was. */
  lemma ServiceEmptyDeltaKeepsOrder(current: seq<ContactPerson>, census: set<int>, collate: (string, string) -> bool)
    ensures ServiceMerged(current, [], census, collate)
      == RemoveIds(current, ContactIdOf, StaleIds(current, ContactIdOf, census))
    ensures (forall i :: 0 <= i < |current| ==> ContactIdOf(current[i]) in census) ==>
      ServiceMerged(current, [], census, collate) == current
  {
    RemoveStaleIds(current, ContactIdOf, census);
    if forall i :: 0 <= i < |current| ==> ContactIdOf(current[i]) in census {
      InCensusAll(current, ContactIdOf, census);
    }
  }

  /** When the census holds every id, no contact is dropped. */
  lemma InCensusAll<T, K>(s: seq<T>, key: T -> K, census: set<K>)
    requires forall i :: 0 <= i < |s| ==> key(s[i]) in census
    ensures InCensus(s, key, census) == s
  {
    FilterAll(s, x => key(x) in census);
  }

  /** A contact whose id the census lacks is deleted in the same pass, even
    * when the delta brings it. */
  lemma ServiceTombstoneWins(current: seq<ContactPerson>, delta: seq<ContactPerson>, census: set<int>,
                             collate: (string, string) -> bool, k: int)
    requires DistinctKeys(current, ContactIdOf) && DistinctKeys(delta, ContactIdOf)
    requires (HasKey(current, ContactIdOf, k) || HasKey(delta, ContactIdOf, k)) && k !in census
    ensures k in ServiceStale(current, delta, census, collate)
  {
    TombstoneWins(current, delta, ContactIdOf, census, k);
    ServiceMergedPermutes(current, delta, census, collate);
    StaleIdsPermutation(Arranged(current, delta, collate), MergeAppend(current, delta, ContactIdOf), ContactIdOf, census, k);
  }

  /** What a service pass leaves in the tables: the same as the manager's
    * pass, since the stale ids are the same set. */
  lemma ServicePassStore(b: CS.Books, delta: seq<ContactPerson>, census: set<int>, now: int,
                         collate: (string, string) -> bool, c: BaseInfo)
    requires forall i :: 0 <= i < |delta| ==> Fresh(delta[i])
    ensures var db0, db1 := b.db, ServicePass(b, delta, census, now, collate).db;
      var byId := AssociateBy(delta, ContactIdOf);
      var k := c.contactId;
      && (k in ServiceStale(b.contacts, delta, census, collate) ==> Store.Lookup(db1.base, BaseIdOf, k) == None)
      && (k !in ServiceStale(b.contacts, delta, census, collate) && k in byId ==>
            Store.Lookup(db1.base, BaseIdOf, k) == Some(byId[k].baseInfo)
            && Unnumbered(StoredContact(db1, byId[k].baseInfo)) == byId[k])
      && (k !in ServiceStale(b.contacts, delta, census, collate) && k !in byId ==>
            Store.Lookup(db1.base, BaseIdOf, k) == Store.Lookup(db0.base, BaseIdOf, k)
            && StoredContact(db1, c) == StoredContact(db0, c))
    ensures ServicePass(b, delta, census, now, collate).contactTime == now
  {
    var byId := AssociateBy(delta, ContactIdOf);
    var k := c.contactId;
    var db1 := if delta == [] then b.db else ReplacePersons(b.db, delta);
    var stale := ServiceStale(b.contacts, delta, census, collate);
    if delta != [] {
      ReplacePersonsStored(b.db, delta, c);
    }
    if stale != [] {
      DeleteContactsEffect(db1, stale, c);
      if k in byId {
        DeleteContactsEffect(db1, stale, byId[k].baseInfo);
      }
    }
  }

  /** `storeInitialContacts` publishes at most `n` contacts, sorted by the
    * collator, exactly those it upserted. */
  lemma StoreInitialShown(b: CS.Books, rows: seq<Row>, photoOf: int -> Option<Bitmap>, n: nat, now: int,
                          collate: (string, string) -> bool)
    requires TotalPreorder(collate)
    ensures var r := ServiceStoreInitial(b, rows, photoOf, n, now, collate);
      && |r.contacts| <= n
      && Sorted(r.contacts, NameOrder(collate))
      && multiset(r.contacts) == multiset(QueryResult(rows, Some(n), photoOf))
      && r.contactTime == now
  {
    QueryCapped(rows, n, photoOf);
    NameOrderPreorder(collate);
    SortBySorted(QueryResult(rows, Some(n), photoOf), NameOrder(collate));
  }

  /** `loadRemainingContacts` adds only contacts with ids above every id of
    * the snapshot, keeps every contact it had, and leaves an empty snapshot
    * alone. */
  lemma RemainingShown(b: CS.Books, rows: seq<Row>, photoOf: int -> Option<Bitmap>, collate: (string, string) -> bool)
    ensures b.contacts == [] ==> ServiceRemaining(b, rows, photoOf, collate) == b
    ensures b.contacts != [] ==>
      multiset(ServiceRemaining(b, rows, photoOf, collate).contacts)
        == multiset(b.contacts + CS.Remaining(b.contacts, rows, photoOf))
  {
  }

  /** `loadAllContactPersonFromRoom` publishes every stored contact once, each
    * with exactly its own child rows. */
  lemma LoadAllShown(b: CS.Books, collate: (string, string) -> bool)
    ensures var r := ServiceLoadAll(b, collate).contacts;
      && multiset(r) == multiset(FindAllContacts(b.db))
      && (forall i :: 0 <= i < |r| ==> IsStored(b.db, r[i]))
  {
    var all := FindAllContacts(b.db);
    var r := ServiceLoadAll(b, collate).contacts;
    forall i | 0 <= i < |r| ensures IsStored(b.db, r[i]) {
      assert r[i] in multiset(all);
      var j :| 0 <= j < |all| && all[j] == r[i];
      FindAllContactsStored(b.db, j);
    }
  }

  class ContactService {
    /** `_currentContacts.value`. */
    var contacts: seq<ContactPerson>
    /** The Room tables. */
    var db: Db
    /** The DataStore contact cursor. */
    var contactTime: int
    /** Everything the service has done outside its own lists, in order. */
    var log: seq<CS.ContactEffect>
    /** `FIRST_COUNT`. */
    const firstCount: nat

    ghost predicate Valid()
      reads this
    {
      ContactStore.Valid(db)
    }

    function State(): CS.Books
      reads this
    {
      CS.Books(contacts, db, contactTime, log)
    }

    constructor(db0: Db, time0: int, n: nat)
      requires ContactStore.Valid(db0) && n > 0
      ensures Valid()
      ensures State() == CS.Books([], db0, time0, []) && firstCount == n
    {
      contacts := [];
      db := db0;
      contactTime := time0;
      log := [];
      firstCount := n;
    }

    method Publish(list: seq<ContactPerson>)
      requires Valid()
      modifies this
      ensures Valid() && State() == Show(old(State()), list)
    {
      contacts := list;
      log := log + [Published(list)];
    }

    /** `upsertContactPersonRoom`. */
    method UpsertContactPersonRoom(list: seq<ContactPerson>)
      requires Valid()
      modifies this
      ensures Valid() && State() == CS.Upsert(old(State()), list)
    {
      ReplacePersonsValid(db, list);
      db := ReplacePersons(db, list);
      log := log + [Upserted(list)];
    }

    /** `deleteContactPersonByContactIds`. */
    method DeleteContactPersonByContactIds(ids: seq<int>)
      requires Valid()
      modifies this
      ensures Valid() && State() == CS.DeleteIds(old(State()), ids)
    {
      DeleteContactsValid(db, ids);
      db := DeleteContacts(db, ids);
      log := log + [Deleted(ids)];
    }

    /** `deleteContactPersonByContactId`. */
    method DeleteContactPersonByContactId(contactId: int)
      requires Valid()
      modifies this
      ensures Valid() && State() == CS.DeleteIds(old(State()), [contactId])
    {
      DeleteContactsValid(db, [contactId]);
      db := DeleteContacts(db, [contactId]);
      log := log + [Deleted([contactId])];
    }

    method UpdateContactTime(now: int)
      requires Valid()
      modifies this
      ensures Valid() && State() == CS.SetCursor(old(State()), now)
    {
      contactTime := now;
      log := log + [CursorSet(now)];
    }

    /** `storeInitialContacts`. */
    method StoreInitialContacts(rows: seq<Row>, photoOf: int -> Option<Bitmap>, now: int,
                                collate: (string, string) -> bool)
      returns (details: seq<ContactPerson>)
      requires Valid()
      modifies this
      ensures Valid() && State() == ServiceStoreInitial(old(State()), rows, photoOf, firstCount, now, collate)
      ensures details == contacts
    {
      details := QueryResult(rows, Some(firstCount), photoOf);
      UpsertContactPersonRoom(details);
      UpdateContactTime(now);
      details := SortSeq(details, NameOrder(collate));
      Publish(details);
    }

    /** `loadRemainingContacts`. */
    method LoadRemainingContacts(rows: seq<Row>, photoOf: int -> Option<Bitmap>, collate: (string, string) -> bool)
      returns (currentContacts: seq<ContactPerson>)
      requires Valid()
      modifies this
      ensures Valid() && State() == ServiceRemaining(old(State()), rows, photoOf, collate)
      ensures currentContacts == contacts
    {
      currentContacts := contacts;
      if currentContacts == [] {
        return;
      }
      var maxContactId := CS.MaxContactId(currentContacts);
      var remainingContacts := QueryResult(CS.RowsAfterId(rows, maxContactId), None, photoOf);
      if remainingContacts != [] {
        UpsertContactPersonRoom(remainingContacts);
        currentContacts := currentContacts + remainingContacts;
        currentContacts := SortSeq(currentContacts, NameOrder(collate));
        Publish(currentContacts);
      }
    }

    /** `mergeAndUpdateContacts`: on a copy of the snapshot, a non-empty
      * delta merged, upserted and name-sorted; then the ids the census lacks
      * deleted from the tables and the copy; then the cursor advanced and
      * the copy published and returned. */
    method MergeAndUpdateContacts(newContacts: seq<ContactPerson>, systemIds: set<int>, now: int,
                                  collate: (string, string) -> bool)
      returns (currentContacts: seq<ContactPerson>)
      requires Valid()
      modifies this
      ensures Valid() && State() == ServicePass(old(State()), newContacts, systemIds, now, collate)
      ensures currentContacts == contacts
    {
      currentContacts := contacts;
      if newContacts != [] {
        currentContacts := AppendAndReplace(currentContacts, newContacts, ContactIdOf);
        UpsertContactPersonRoom(newContacts);
        currentContacts := SortSeq(currentContacts, NameOrder(collate));
      }
      assert currentContacts == Arranged(old(contacts), newContacts, collate);
      var idsToDelete := StaleIds(currentContacts, ContactIdOf, systemIds);
      if idsToDelete != [] {
        DeleteContactPersonByContactIds(idsToDelete);
        currentContacts := RemoveIds(currentContacts, ContactIdOf, idsToDelete);
      } else {
        RemoveNoIds(currentContacts, ContactIdOf);
      }
      RemoveStaleIds(Arranged(old(contacts), newContacts, collate), ContactIdOf, systemIds);
      UpdateContactTime(now);
      Publish(currentContacts);
    }

    /** `updateContactPersonListByTimestamp`. */
    method UpdateContactPersonListByTimestamp(rows: seq<Row>, photoOf: int -> Option<Bitmap>, systemIds: set<int>,
                                              now: int, collate: (string, string) -> bool)
      returns (list: seq<ContactPerson>)
      requires Valid()
      modifies this
      ensures Valid() && State() == ServiceTimestampPass(old(State()), rows, photoOf, systemIds, now, collate)
      ensures list == contacts
    {
      var newContacts := QueryUpdatedContacts(rows, contactTime, photoOf);
      list := MergeAndUpdateContacts(newContacts, systemIds, now, collate);
    }

    /** `loadAllContactPersonFromRoom`. */
    method LoadAllContactPersonFromRoom(collate: (string, string) -> bool) returns (list: seq<ContactPerson>)
      requires Valid()
      modifies this
      ensures Valid() && State() == ServiceLoadAll(old(State()), collate)
      ensures list == contacts
    {
      list := FindAllContacts(db);
      list := SortSeq(list, NameOrder(collate));
      Publish(list);
    }
  }
}
