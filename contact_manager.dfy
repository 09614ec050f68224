// `ContactManager`: the published contact snapshot, the Room tables behind it
// and the persisted contact cursor. The system contacts provider is the
// sequence of data rows a query's cursor would deliver, plus the census of
// contact ids; a photo lookup stands for the avatar stream; the clock reading
// `updateContactTime` stores is a parameter.
module ContactSync {
  import opened Wrappers
  import opened Seqs
  import opened Sorting
  import opened ListSort
  import opened Entities
  import opened Rows
  import opened Reconcile
  import opened Store
  import opened ContactStore
  import opened ContactData
  import opened ContactQuery
  import opened ContactLookup
  import opened SyncSteps

  type ContactEffect = Effect<ContactPerson, int>

  /** `sortBy { it.baseInfo.disPlayName }`: Kotlin's natural string order of
    * the display names. */
  predicate ByDisplayName(a: ContactPerson, b: ContactPerson)
  {
    StrLe(a.baseInfo.disPlayName, b.baseInfo.disPlayName)
  }

  lemma ByDisplayNamePreorder()
    ensures TotalPreorder(ByDisplayName)
  {
    forall a: ContactPerson, b: ContactPerson ensures ByDisplayName(a, b) || ByDisplayName(b, a) {
      StrLeTotal(a.baseInfo.disPlayName, b.baseInfo.disPlayName);
    }
    forall a: ContactPerson, b: ContactPerson, c: ContactPerson | ByDisplayName(a, b) && ByDisplayName(b, c)
      ensures ByDisplayName(a, c)
    {
      StrLeTransitive(a.baseInfo.disPlayName, b.baseInfo.disPlayName, c.baseInfo.disPlayName);
    }
  }

  /** `maxOf { it.baseInfo.contactId }` of a non-empty list. */
  function MaxContactId(s: seq<ContactPerson>): (m: int)
    requires s != []
    ensures exists i :: 0 <= i < |s| && ContactIdOf(s[i]) == m
    ensures forall i :: 0 <= i < |s| ==> ContactIdOf(s[i]) <= m
  {
    if |s| == 1 then ContactIdOf(s[0])
    else
      var m := MaxContactId(s[1..]);
      assert forall i :: 1 <= i < |s| ==> s[i] == s[1..][i - 1];
      if ContactIdOf(s[0]) >= m then ContactIdOf(s[0]) else m
  }

  /** The rows the selection `Data.CONTACT_ID > maxId` delivers. */
  function RowsAfterId(rows: seq<Row>, maxId: int): (r: seq<Row>)
    ensures forall i :: 0 <= i < |r| ==> RowContactId(r[i]) > maxId
  {
    Filter(rows, row => RowContactId(row) > maxId)
  }

  /** What `loadRemainingContacts` fetches after a non-empty snapshot: every
    * contact with an id above the snapshot's largest. */
  function Remaining(snapshot: seq<ContactPerson>, rows: seq<Row>, photoOf: int -> Option<Bitmap>): seq<ContactPerson>
    requires snapshot != []
  {
    QueryResult(RowsAfterId(rows, MaxContactId(snapshot)), None, photoOf)
  }

  /** The contacts appended by `loadRemainingContacts` all have ids the
    * snapshot lacks: each is above every snapshot id. */
  lemma RemainingAreNew(snapshot: seq<ContactPerson>, rows: seq<Row>, photoOf: int -> Option<Bitmap>, i: nat, j: nat)
    requires i < |snapshot| && j < |Remaining(snapshot, rows, photoOf)|
    ensures ContactIdOf(Remaining(snapshot, rows, photoOf)[j]) > ContactIdOf(snapshot[i])
  {
    var sel := RowsAfterId(rows, MaxContactId(snapshot));
    QueryFirstRows(sel, None, photoOf, j);
    var c := QueryResult(sel, None, photoOf)[j];
    var first := IndexOfKey(sel, RowContactId, ContactIdOf(c));
    assert RowContactId(sel[first]) > MaxContactId(snapshot);
  }

  /** The merged list of a pass: the contact merge, then the census. */
  function MergePass(current: seq<ContactPerson>, delta: seq<ContactPerson>, census: set<int>): seq<ContactPerson>
  {
    InCensus(MergeAppend(current, delta, ContactIdOf), ContactIdOf, census)
  }

  /** The ids a pass deletes: those of the merged list the census lacks. */
  function PassStale(current: seq<ContactPerson>, delta: seq<ContactPerson>, census: set<int>): seq<int>
  {
    StaleIds(MergeAppend(current, delta, ContactIdOf), ContactIdOf, census)
  }

  /** Deleting the stale ids leaves exactly the merged contacts the census holds. */
  lemma PassRemovesStale(current: seq<ContactPerson>, delta: seq<ContactPerson>, census: set<int>)
    ensures RemoveIds(MergeAppend(current, delta, ContactIdOf), ContactIdOf, PassStale(current, delta, census))
      == MergePass(current, delta, census)
  {
    RemoveStaleIds(MergeAppend(current, delta, ContactIdOf), ContactIdOf, census);
  }

  /** A contact whose id the census lacks is deleted in the same pass, even
    * when the delta brings it. */
  lemma ContactTombstoneWins(current: seq<ContactPerson>, delta: seq<ContactPerson>, census: set<int>, k: int)
    requires DistinctKeys(current, ContactIdOf) && DistinctKeys(delta, ContactIdOf)
    requires (HasKey(current, ContactIdOf, k) || HasKey(delta, ContactIdOf, k)) && k !in census
    ensures k in PassStale(current, delta, census)
  {
    TombstoneWins(current, delta, ContactIdOf, census, k);
  }

  /** The state a manager keeps: the published snapshot, the tables, the
    * contact cursor and the effects so far. */
  datatype Books = Books(contacts: seq<ContactPerson>, db: Db, contactTime: int, log: seq<ContactEffect>)

  /** `updateData(list)`: published sorted by display name. */
  function Publish(b: Books, list: seq<ContactPerson>): Books
  {
    var sorted := SortBy(list, ByDisplayName);
    b.(contacts := sorted, log := b.log + [Published(sorted)])
  }

  /** `upsertContactPersonRoom(list)`. */
  function Upsert(b: Books, list: seq<ContactPerson>): Books
  {
    b.(db := ReplacePersons(b.db, list), log := b.log + [Upserted(list)])
  }

  /** `deleteContactPersonByContactIds(ids)`. */
  function DeleteIds(b: Books, ids: seq<int>): Books
  {
    b.(db := DeleteContacts(b.db, ids), log := b.log + [Deleted(ids)])
  }

  /** `updateContactTime(now)`. */
  function SetCursor(b: Books, now: int): Books
  {
    b.(contactTime := now, log := b.log + [CursorSet(now)])
  }

  /** The store side of `mergeAndUpdateContacts`: a non-empty delta upserted,
    * the stale ids deleted if there are any, the cursor advanced. */
  function AfterMerge(b: Books, delta: seq<ContactPerson>, census: set<int>, now: int): Books
  {
    var b1 := if delta == [] then b else Upsert(b, delta);
    var stale := PassStale(b.contacts, delta, census);
    SetCursor(if stale == [] then b1 else DeleteIds(b1, stale), now)
  }

  /** `updateContactPersonListByTimestamp`: the merge pass over the contacts
    * updated after the cursor, then the merged list published. */
  function TimestampPass(b: Books, rows: seq<Row>, photoOf: int -> Option<Bitmap>, census: set<int>, now: int): Books
  {
    var delta := QueryUpdatedContacts(rows, b.contactTime, photoOf);
    Publish(AfterMerge(b, delta, census, now), MergePass(b.contacts, delta, census))
  }

  /** `loadRemainingContacts`: an empty snapshot republished; otherwise the
    * remaining contacts, if any, upserted and published with the snapshot. */
  function AfterRemaining(b: Books, rows: seq<Row>, photoOf: int -> Option<Bitmap>): Books
  {
    if b.contacts == [] then Publish(b, [])
    else
      var rem := Remaining(b.contacts, rows, photoOf);
      if rem == [] then b else Publish(Upsert(b, rem), b.contacts + rem)
  }

  /** `storeInitialContacts`: the first `n` contacts published, upserted, the
    * cursor advanced, then the remaining contacts loaded. */
  function AfterStoreInitial(b: Books, rows: seq<Row>, photoOf: int -> Option<Bitmap>, n: nat, now: int): Books
  {
    var first := QueryResult(rows, Some(n), photoOf);
    AfterRemaining(SetCursor(Upsert(Publish(b, first), first), now), rows, photoOf)
  }

  /** `loadAllContactPersonFromRoom`, with the page's child rows read by
    * contactId: the page published, then the contacts below it followed by the
    * published page, then the timestamp pass; an empty page publishes nothing
    * further (`contacts.last()` throws). */
  function AfterLoadAll(b: Books, rows: seq<Row>, photoOf: int -> Option<Bitmap>, census: set<int>, n: nat, now: int)
    : Books
  {
    match LoadAll(b.db, n)
    case None => Publish(b, [])
    case Some(l) =>
      var b1 := Publish(b, l.page);
      TimestampPass(Publish(b1, l.rest + b1.contacts), rows, photoOf, census, now)
  }

  /** Every published snapshot is sorted by display name and holds exactly
    * the list handed to `updateData`. */
  lemma PublishSorted(b: Books, list: seq<ContactPerson>)
    ensures Sorted(Publish(b, list).contacts, ByDisplayName)
    ensures multiset(Publish(b, list).contacts) == multiset(list)
    ensures Publish(b, list).log[|b.log|] == Published(Publish(b, list).contacts)
  {
    ByDisplayNamePreorder();
    SortBySorted(list, ByDisplayName);
  }

  /** What a pass leaves in the tables, for fresh delta contacts: a stale id
    * is gone; a surviving delta id is stored as the delta has it; any other
    * contact is stored as before. The cursor is the clock reading. */
  lemma AfterMergeStore(b: Books, delta: seq<ContactPerson>, census: set<int>, now: int, c: BaseInfo)
    requires forall i :: 0 <= i < |delta| ==> Fresh(delta[i])
    ensures var db0, db1 := b.db, AfterMerge(b, delta, census, now).db;
      var byId := AssociateBy(delta, ContactIdOf);
      var k := c.contactId;
      && (k in PassStale(b.contacts, delta, census) ==> Store.Lookup(db1.base, BaseIdOf, k) == None)
      && (k !in PassStale(b.contacts, delta, census) && k in byId ==>
            Store.Lookup(db1.base, BaseIdOf, k) == Some(byId[k].baseInfo)
            && Unnumbered(StoredContact(db1, byId[k].baseInfo)) == byId[k])
      && (k !in PassStale(b.contacts, delta, census) && k !in byId ==>
            Store.Lookup(db1.base, BaseIdOf, k) == Store.Lookup(db0.base, BaseIdOf, k)
            && StoredContact(db1, c) == StoredContact(db0, c))
    ensures AfterMerge(b, delta, census, now).contactTime == now
  {
    var byId := AssociateBy(delta, ContactIdOf);
    var k := c.contactId;
    var db1 := if delta == [] then b.db else ReplacePersons(b.db, delta);
    var stale := PassStale(b.contacts, delta, census);
    if delta != [] {
      ReplacePersonsStored(b.db, delta, c);
    }
    if stale != [] {
      DeleteContactsEffect(db1, stale, c);
      if k in byId {
        DeleteContactsEffect(db1, stale, byId[k].baseInfo);
      }
    }
  }

  /** The snapshot a merge pass publishes: a contact id survives exactly
    * when the snapshot or the delta has it and the census does; a delta
    * contact replaces the old one. The order is `PublishSorted`'s. */
  lemma PassSnapshot(current: seq<ContactPerson>, delta: seq<ContactPerson>, census: set<int>, k: int)
    requires DistinctKeys(current, ContactIdOf) && DistinctKeys(delta, ContactIdOf)
    ensures var r := SortBy(MergePass(current, delta, census), ByDisplayName);
      && (HasKey(r, ContactIdOf, k) <==> (HasKey(current, ContactIdOf, k) || HasKey(delta, ContactIdOf, k)) && k in census)
      && (forall i :: 0 <= i < |r| && ContactIdOf(r[i]) in AssociateBy(delta, ContactIdOf) ==>
            r[i] == AssociateBy(delta, ContactIdOf)[ContactIdOf(r[i])])
      && (forall i :: 0 <= i < |r| && ContactIdOf(r[i]) !in AssociateBy(delta, ContactIdOf) ==> r[i] in current)
  {
    var m := MergePass(current, delta, census);
    var r := SortBy(m, ByDisplayName);
    AppendPassOutcome(current, delta, ContactIdOf, census, k);
    PermutationKeys(r, m, ContactIdOf, k);
    forall i | 0 <= i < |r| ensures
      (ContactIdOf(r[i]) in AssociateBy(delta, ContactIdOf) ==> r[i] == AssociateBy(delta, ContactIdOf)[ContactIdOf(r[i])])
      && (ContactIdOf(r[i]) !in AssociateBy(delta, ContactIdOf) ==> r[i] in current)
    {
      var j :| 0 <= j < |m| && m[j] == r[i];
    }
  }

  /** A timestamp pass publishes the merge of the contacts updated after the
    * cursor, whose ids the query keeps distinct. */
  lemma TimestampPassSnapshot(b: Books, rows: seq<Row>, photoOf: int -> Option<Bitmap>, census: set<int>, now: int)
    ensures var delta := QueryUpdatedContacts(rows, b.contactTime, photoOf);
      && DistinctKeys(delta, ContactIdOf)
      && TimestampPass(b, rows, photoOf, census, now).contacts == SortBy(MergePass(b.contacts, delta, census), ByDisplayName)
      && TimestampPass(b, rows, photoOf, census, now).contactTime == now
  {
    QueryDistinct(UpdatedRows(rows, b.contactTime), UpdatedContactsQuery(b.contactTime).maxCount, photoOf);
  }

  /** Loading from the store publishes every contact it loaded, each once and
    * as stored, sorted by display name; with `LoadAllComplete` that is every
    * stored contact. */
  lemma LoadAllPublishesAll(db: Db, n: nat)
    requires ContactStore.Valid(db) && LoadAll(db, n).Some?
    ensures var l := LoadAll(db, n).value;
      var shown := SortBy(l.rest + SortBy(l.page, ByDisplayName), ByDisplayName);
      && multiset(shown) == multiset(l.rest + l.page)
      && (forall i :: 0 <= i < |shown| ==> IsStored(db, shown[i]))
      && Sorted(shown, ByDisplayName)
  {
    var l := LoadAll(db, n).value;
    var all := l.rest + SortBy(l.page, ByDisplayName);
    var shown := SortBy(all, ByDisplayName);
    LoadAllComplete(db, n);
    ByDisplayNamePreorder();
    SortBySorted(all, ByDisplayName);
    assert multiset(all) == multiset(l.rest + l.page);
    forall i | 0 <= i < |shown| ensures IsStored(db, shown[i]) {
      assert shown[i] in multiset(l.rest + l.page);
      var j :| 0 <= j < |l.rest + l.page| && (l.rest + l.page)[j] == shown[i];
    }
  }

  class ContactManager {
    /** `_contacts.value`: the published snapshot. */
    var contacts: seq<ContactPerson>
    /** The Room tables. */
    var db: Db
    /** The DataStore contact cursor. */
    var contactTime: int
    /** Everything the manager has done outside its own lists, in order. */
    var log: seq<ContactEffect>
    /** `INITIAL_LOAD_SIZE`. */
    const initialLoadSize: nat

    /** The base table is keyed by contactId and the first page is not empty. */
    ghost predicate Valid()
      reads this
    {
      ContactStore.Valid(db) && initialLoadSize > 0
    }

    function State(): Books
      reads this
    {
      Books(contacts, db, contactTime, log)
    }

    constructor(db0: Db, time0: int, n: nat)
      requires ContactStore.Valid(db0) && n > 0
      ensures Valid()
      ensures State() == Books([], db0, time0, []) && initialLoadSize == n
    {
      contacts := [];
      db := db0;
      contactTime := time0;
      log := [];
      initialLoadSize := n;
    }

    /** `updateData`: `nameSort` in place, then publish. */
    method UpdateData(list: seq<ContactPerson>)
      requires Valid()
      modifies this
      ensures Valid() && State() == Publish(old(State()), list)
    {
      var sorted := SortSeq(list, ByDisplayName);
      contacts := sorted;
      log := log + [Published(sorted)];
    }

    /** `getData`: a copy of the snapshot. */
    method GetData() returns (list: seq<ContactPerson>)
      ensures list == contacts
    {
      list := contacts;
    }

    /** `upsertContactPersonRoom`: every contact of the list written to the tables. */
    method UpsertContactPersonRoom(list: seq<ContactPerson>)
      requires Valid()
      modifies this
      ensures Valid() && State() == Upsert(old(State()), list)
    {
      ReplacePersonsValid(db, list);
      db := ReplacePersons(db, list);
      log := log + [Upserted(list)];
    }

    /** `deleteContactPersonByContactIds`: the ids deleted from every table. */
    method DeleteContactPersonByContactIds(ids: seq<int>)
      requires Valid()
      modifies this
      ensures Valid() && State() == DeleteIds(old(State()), ids)
    {
      DeleteContactsValid(db, ids);
      db := DeleteContacts(db, ids);
      log := log + [Deleted(ids)];
    }

    /** `deleteContactPersonByContactId`: one id deleted from every table. */
    method DeleteContactPersonByContactId(contactId: int)
      requires Valid()
      modifies this
      ensures Valid() && State() == DeleteIds(old(State()), [contactId])
    {
      DeleteContactsValid(db, [contactId]);
      db := DeleteContacts(db, [contactId]);
      log := log + [Deleted([contactId])];
    }

    /** `updateContactTime`. */
    method UpdateContactTime(now: int)
      requires Valid()
      modifies this
      ensures Valid() && State() == SetCursor(old(State()), now)
    {
      contactTime := now;
      log := log + [CursorSet(now)];
    }

    /** `mergeAndUpdateContacts`: the delta merged into a copy of the
      * snapshot, a non-empty delta upserted, the ids the census lacks deleted
      * from the tables and the copy, and the cursor advanced. The snapshot
      * itself is not republished here. */
    method MergeAndUpdateContacts(newContacts: seq<ContactPerson>, systemIds: set<int>, now: int)
      returns (merged: seq<ContactPerson>)
      requires Valid()
      modifies this
      ensures Valid() && State() == AfterMerge(old(State()), newContacts, systemIds, now)
      ensures merged == MergePass(old(contacts), newContacts, systemIds)
    {
      var currentContacts := GetData();
      if newContacts != [] {
        currentContacts := AppendAndReplace(currentContacts, newContacts, ContactIdOf);
        UpsertContactPersonRoom(newContacts);
      }
      ghost var b1 := State();
      assert currentContacts == MergeAppend(old(contacts), newContacts, ContactIdOf);
      var idsToDelete := StaleIds(currentContacts, ContactIdOf, systemIds);
      if idsToDelete != [] {
        DeleteContactPersonByContactIds(idsToDelete);
        currentContacts := RemoveIds(currentContacts, ContactIdOf, idsToDelete);
      } else {
        RemoveNoIds(currentContacts, ContactIdOf);
      }
      PassRemovesStale(old(contacts), newContacts, systemIds);
      UpdateContactTime(now);
      merged := currentContacts;
    }

    /** `updateContactPersonListByTimestamp`: the contacts updated after the
      * cursor merged in, and the result published. */
    method UpdateContactPersonListByTimestamp(rows: seq<Row>, photoOf: int -> Option<Bitmap>,
                                              systemIds: set<int>, now: int)
      requires Valid()
      modifies this
      ensures Valid() && State() == TimestampPass(old(State()), rows, photoOf, systemIds, now)
    {
      var newContacts := QueryUpdatedContacts(rows, contactTime, photoOf);
      var merged := MergeAndUpdateContacts(newContacts, systemIds, now);
      UpdateData(merged);
    }

    /** `loadRemainingContacts`. */
    method LoadRemainingContacts(rows: seq<Row>, photoOf: int -> Option<Bitmap>)
      requires Valid()
      modifies this
      ensures Valid() && State() == AfterRemaining(old(State()), rows, photoOf)
    {
      var currentContacts := GetData();
      if currentContacts == [] {
        UpdateData(currentContacts);
        return;
      }
      var maxContactId := MaxContactId(currentContacts);
      var remainingContacts := QueryResult(RowsAfterId(rows, maxContactId), None, photoOf);
      if remainingContacts != [] {
        UpsertContactPersonRoom(remainingContacts);
        currentContacts := currentContacts + remainingContacts;
        UpdateData(currentContacts);
      }
    }

    /** `storeInitialContacts`. */
    method StoreInitialContacts(rows: seq<Row>, photoOf: int -> Option<Bitmap>, now: int)
      requires Valid()
      modifies this
      ensures Valid() && State() == AfterStoreInitial(old(State()), rows, photoOf, initialLoadSize, now)
    {
      var contacts0 := QueryResult(rows, Some(initialLoadSize), photoOf);
      UpdateData(contacts0);
      UpsertContactPersonRoom(contacts0);
      UpdateContactTime(now);
      LoadRemainingContacts(rows, photoOf);
    }

    /** `loadAllContactPersonFromRoom`; `ok` is false where `contacts.last()`
      * throws on an empty first page. */
    method LoadAllContactPersonFromRoom(rows: seq<Row>, photoOf: int -> Option<Bitmap>,
                                        systemIds: set<int>, now: int)
      returns (ok: bool)
      requires Valid()
      modifies this
      ensures Valid() && State() == AfterLoadAll(old(State()), rows, photoOf, systemIds, initialLoadSize, now)
      ensures ok <==> LoadAll(old(db), initialLoadSize).Some?
    {
      var page := FirstPage(db.base, BaseIdOf, initialLoadSize);
      if page == [] {
        UpdateData([]);
        return false;
      }
      var bound := page[|page| - 1].contactId;
      var list := PageAtLeast(db, initialLoadSize, bound);
      ghost var l := Loaded(list, RestBelow(db, bound));
      assert LoadAll(db, initialLoadSize) == Some(l);
      UpdateData(list);
      ghost var b1 := State();
      var listAll := RestBelow(db, bound);
      var shown := GetData();
      listAll := listAll + shown;
      assert listAll == l.rest + b1.contacts;
      UpdateData(listAll);
      UpdateContactPersonListByTimestamp(rows, photoOf, systemIds, now);
      ok := true;
    }
  }
}
