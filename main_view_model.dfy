// `MainViewModel` (app `ui/page/main/MainViewModel.kt`): the screen state the
// contact and call-log pages read, beside the app's own Room tables and
// DataStore preferences. `loadContactList` starts a contact job and a
// call-log job, joins both, and only then clears the first-run flag; the
// collector of `observeContactsChanges` folds later changes into the list.
// What the content resolver answers is a `Device` value; the two jobs, which
// Kotlin runs concurrently and joins, run one after the other here.
module MainScreen {
  import opened Wrappers
  import opened Seqs
  import opened Sorting
  import opened Entities
  import opened Reconcile
  import opened Store
  import opened EntityProcessing
  import opened LinkedMap
  import CU = AppCallLogUtil

  /** What the content resolver answers. */
  datatype Device = Device(
    contacts: seq<AppContact>,              // queryContacts()
    updatedAfter: int -> seq<AppContact>,   // queryUpdatedContacts(time)
    contactIds: set<string>,                // queryAllContactId()
    callLog: Option<seq<CU.CallRow>>,       // the call-log cursor; None when the query returns null
    lookups: CU.Lookups)

  /** `MainState`. */
  datatype MainState = MainState(
    hasPermissions: Option<bool>,
    contactPersonEntityList: seq<AppContact>,
    callLogEntityList: seq<AppCallLog>,
    callLogEntityMap: Linked<string, seq<AppCallLog>>,
    isContactPersonLoading: bool,
    isCallLogLoading: bool)

  /** The state a fresh view model starts from. */
  const InitialState := MainState(None, [], [], Linked([], map[]), false, false)

  /** The points at which the screen reports back, in the order they happen. */
  datatype Event = ContactsShown | CallLogsShown | FirstEnterAppCleared

  /** The `contact_person` row `upsertContactPersonRoom` writes for a
    * contact: its fields, with the update time of the moment of writing. */
  function Stamped(c: AppContact, now: int): AppContact
  {
    c.(updateTime := Some(now))
  }

  function StampAll(cs: seq<AppContact>, now: int): seq<AppContact>
  {
    seq(|cs|, i requires 0 <= i < |cs| => Stamped(cs[i], now))
  }

  /** The call-log id Room generates (`autoGenerate = true`). */
  function AppCallLogIdOf(c: AppCallLog): int { c.id }

  function WithAppCallLogId(c: AppCallLog, id: int): AppCallLog { c.(id := id) }

  // ---- handleContactSubsequentEnterApp

  /** Every contact the table holds has its id somewhere in `details`. */
  ghost predicate Covers(details: seq<AppContact>, table: seq<AppContact>)
  {
    forall k {:trigger HasKey(table, AppContactIdOf, k)} ::
      HasKey(table, AppContactIdOf, k) ==> IndexOfKey(details, AppContactIdOf, k) != -1
  }

  /** One turn of the `forEach` over the updated contacts: a contact the
    * table lacks is appended; any other replaces the first element of
    * `details` with its id, which is there because `details` covers the
    * table. The table is the one read before the loop; it is written after. */
  function MergeStep(details: seq<AppContact>, u: AppContact, table: seq<AppContact>): (r: seq<AppContact>)
    requires Covers(details, table)
    ensures Covers(r, table)
  {
    if Lookup(table, AppContactIdOf, u.contactId).None? then
      CoversSnoc(details, u, table);
      details + [u]
    else
      var index := IndexOfKey(details, AppContactIdOf, u.contactId);
      CoversUpdate(details, index, u, table);
      details[index := u]
  }

  lemma CoversSnoc(details: seq<AppContact>, u: AppContact, table: seq<AppContact>)
    requires Covers(details, table)
    ensures Covers(details + [u], table)
  {
    forall k | HasKey(table, AppContactIdOf, k) ensures IndexOfKey(details + [u], AppContactIdOf, k) != -1 {
      IndexOfKeySnoc(details, u, AppContactIdOf, k);
    }
  }

  lemma CoversUpdate(details: seq<AppContact>, index: nat, u: AppContact, table: seq<AppContact>)
    requires Covers(details, table)
    requires index < |details| && details[index].contactId == u.contactId
    ensures Covers(details[index := u], table)
  {
    forall k | HasKey(table, AppContactIdOf, k) ensures IndexOfKey(details[index := u], AppContactIdOf, k) != -1 {
      IndexOfKeySame(details, details[index := u], AppContactIdOf, k);
    }
  }

  /** The whole `forEach`, in delta order. */
  function Merged(details: seq<AppContact>, delta: seq<AppContact>, table: seq<AppContact>): (r: seq<AppContact>)
    requires Covers(details, table)
    ensures Covers(r, table)
  {
    if delta == [] then details
    else MergeStep(Merged(details, delta[..|delta| - 1], table), delta[|delta| - 1], table)
  }

  /** `findAllContactPersonRoom` lists every row of the table. */
  lemma CoversSelf(table: seq<AppContact>)
    ensures Covers(table, table)
  {
    forall k | HasKey(table, AppContactIdOf, k) ensures IndexOfKey(table, AppContactIdOf, k) != -1 {
      var i :| 0 <= i < |table| && AppContactIdOf(table[i]) == k;
    }
  }

  /** The list the merge leaves, the table's rows in table order followed by
    * the delta contacts it lacked. */
  function MergedWithTable(table: seq<AppContact>, delta: seq<AppContact>): seq<AppContact>
  {
    CoversSelf(table);
    Merged(table, delta, table)
  }

  /** The list `handleContactSubsequentEnterApp` returns: the merge, with
    * the ids the system no longer has removed. */
  function SubsequentList(table: seq<AppContact>, delta: seq<AppContact>, census: set<string>): seq<AppContact>
  {
    InCensus(MergedWithTable(table, delta), AppContactIdOf, census)
  }

  /** The table it leaves: a non-empty delta upserted with fresh update
    * times, then the ids the system no longer has deleted. */
  function SubsequentTable(table: seq<AppContact>, delta: seq<AppContact>, census: set<string>, now: int)
    : seq<AppContact>
  {
    var upserted := if delta == [] then table else UpsertRows(table, StampAll(delta, now), AppContactIdOf);
    DeleteIn(upserted, AppContactIdOf, StaleIds(MergedWithTable(table, delta), AppContactIdOf, census))
  }

  lemma AddsSnoc<T, K>(delta: seq<T>, u: T, current: seq<T>, key: T -> K)
    ensures Adds(delta + [u], current, key)
      == Adds(delta, current, key) + if key(u) in AssociateBy(current, key) then [] else [u]
  {
    var known := AssociateBy(current, key);
    FilterConcat(delta, [u], x => key(x) !in known);
    assert [u][1..] == [];
  }

  /** An update whose id the snapshot lacks leaves the refreshed snapshot as it was. */
  lemma RefreshedFresh<T, K>(current: seq<T>, init: seq<T>, u: T, key: T -> K)
    requires !HasKey(current, key, key(u))
    ensures Refreshed(current, init + [u], key) == Refreshed(current, init, key)
  {
    assert (init + [u])[..|init|] == init;
    assert AssociateBy(init + [u], key) == AssociateBy(init, key)[key(u) := u];
    var r0, r1 := Refreshed(current, init, key), Refreshed(current, init + [u], key);
    forall i | 0 <= i < |current| ensures r1[i] == r0[i] {
      assert key(current[i]) != key(u);
    }
  }

  lemma RefreshedNone<T, K>(current: seq<T>, key: T -> K)
    ensures Refreshed(current, [], key) == current
  {
  }

  /** With distinct ids in the table and in the delta, the view model's merge
    * is the reference: each table row refreshed in place by the delta's
    * contact with its id, then the delta's new ids in delta order; so it is
    * the managers' `MergeAppend`. */
  lemma {:induction false} MergedRefreshes(table: seq<AppContact>, delta: seq<AppContact>)
    requires DistinctKeys(table, AppContactIdOf) && DistinctKeys(delta, AppContactIdOf)
    ensures MergedWithTable(table, delta)
      == Refreshed(table, delta, AppContactIdOf) + Adds(delta, table, AppContactIdOf)
  {
    CoversSelf(table);
    if delta == [] {
      RefreshedNone(table, AppContactIdOf);
    } else {
      var init, u := delta[..|delta| - 1], delta[|delta| - 1];
      SplitLast(delta);
      MergedRefreshes(table, init);
      MergeStepRefreshes(table, init, u);
    }
  }

  /** So the view model's merge is the managers' `MergeAppend`. */
  lemma MergedIsMergeAppend(table: seq<AppContact>, delta: seq<AppContact>)
    requires DistinctKeys(table, AppContactIdOf) && DistinctKeys(delta, AppContactIdOf)
    ensures MergedWithTable(table, delta) == MergeAppend(table, delta, AppContactIdOf)
  {
    MergedRefreshes(table, delta);
    MergeAppendRefreshes(table, delta, AppContactIdOf);
  }

  /** A delta with distinct ids is its front, also distinct, and a last
    * contact whose id the front lacks. */
  lemma SplitLast(delta: seq<AppContact>)
    requires delta != [] && DistinctKeys(delta, AppContactIdOf)
    ensures var init, u := delta[..|delta| - 1], delta[|delta| - 1];
      && delta == init + [u]
      && DistinctKeys(init, AppContactIdOf)
      && !HasKey(init, AppContactIdOf, u.contactId)
  {
    var init, u := delta[..|delta| - 1], delta[|delta| - 1];
    assert DistinctKeys(init, AppContactIdOf) by {
      forall i, j | 0 <= i < j < |init| ensures init[i].contactId != init[j].contactId {
        assert init[i] == delta[i] && init[j] == delta[j];
      }
    }
    assert !HasKey(init, AppContactIdOf, u.contactId) by {
      forall i | 0 <= i < |init| ensures init[i].contactId != u.contactId {
        assert init[i] == delta[i];
      }
    }
    assert delta == init + [u];
  }

  /** One turn of the loop keeps the list equal to the reference. */
  lemma MergeStepRefreshes(table: seq<AppContact>, init: seq<AppContact>, u: AppContact)
    requires DistinctKeys(table, AppContactIdOf) && !HasKey(init, AppContactIdOf, u.contactId)
    requires Covers(Refreshed(table, init, AppContactIdOf) + Adds(init, table, AppContactIdOf), table)
    ensures MergeStep(Refreshed(table, init, AppContactIdOf) + Adds(init, table, AppContactIdOf), u, table)
      == Refreshed(table, init + [u], AppContactIdOf) + Adds(init + [u], table, AppContactIdOf)
  {
    var r0, a0 := Refreshed(table, init, AppContactIdOf), Adds(init, table, AppContactIdOf);
    var k := u.contactId;
    AddsSnoc(init, u, table, AppContactIdOf);
    AssociateByKeys(table, AppContactIdOf, k);
    if HasKey(table, AppContactIdOf, k) {
      StepKnown(table, init, u, r0, a0);
    } else {
      StepFresh(table, init, u, r0, a0);
    }
  }

  lemma StepFresh(table: seq<AppContact>, init: seq<AppContact>, u: AppContact, r0: seq<AppContact>, a0: seq<AppContact>)
    requires !HasKey(table, AppContactIdOf, u.contactId)
    requires r0 == Refreshed(table, init, AppContactIdOf)
    requires Covers(r0 + a0, table)
    ensures MergeStep(r0 + a0, u, table) == Refreshed(table, init + [u], AppContactIdOf) + (a0 + [u])
  {
    assert Lookup(table, AppContactIdOf, u.contactId).None?;
    assert MergeStep(r0 + a0, u, table) == (r0 + a0) + [u];
    RefreshedFresh(table, init, u, AppContactIdOf);
    SnocAssoc(r0, a0, u);
  }

  lemma SnocAssoc<T>(a: seq<T>, b: seq<T>, u: T)
    ensures (a + b) + [u] == a + (b + [u])
  {
  }

  lemma StepKnown(table: seq<AppContact>, init: seq<AppContact>, u: AppContact, r0: seq<AppContact>, a0: seq<AppContact>)
    requires DistinctKeys(table, AppContactIdOf) && !HasKey(init, AppContactIdOf, u.contactId)
    requires HasKey(table, AppContactIdOf, u.contactId)
    requires r0 == Refreshed(table, init, AppContactIdOf)
    requires Covers(r0 + a0, table)
    ensures MergeStep(r0 + a0, u, table) == Refreshed(table, init + [u], AppContactIdOf) + a0
  {
    var k := u.contactId;
    var p := IndexOfKey(table, AppContactIdOf, k);
    IndexOfKeySame(table, r0, AppContactIdOf, k);
    IndexOfKeyPrefix(r0, a0, AppContactIdOf, k);
    assert IndexOfKey(r0 + a0, AppContactIdOf, k) == p;
    assert Lookup(table, AppContactIdOf, k).Some?;
    assert MergeStep(r0 + a0, u, table) == (r0 + a0)[p := u];
    RefreshedSnoc(table, init, u, p, AppContactIdOf);
    assert r0[p := u] == Refreshed(table, init + [u], AppContactIdOf);
    UpdateInFront(r0, a0, p, u);
  }

  lemma UpdateInFront<T>(r: seq<T>, b: seq<T>, p: nat, u: T)
    requires p < |r|
    ensures (r + b)[p := u] == r[p := u] + b
  {
  }

  /** `removeIf` for one more id after the earlier ones is removing them all. */
  lemma {:induction false} RemoveIdsSnoc<T, K>(s: seq<T>, key: T -> K, ids: seq<K>, id: K)
    ensures RemoveIds(RemoveIds(s, key, ids), key, [id]) == RemoveIds(s, key, ids + [id])
  {
    if s != [] {
      RemoveIdsSnoc(s[1..], key, ids, id);
      var r := RemoveIds(s[1..], key, ids);
      assert key(s[0]) in ids + [id] <==> key(s[0]) in ids || key(s[0]) == id;
      if key(s[0]) !in ids {
        assert RemoveIds(s, key, ids) == [s[0]] + r;
        assert ([s[0]] + r)[1..] == r;
      }
    }
  }

  lemma DeleteInIsRemoveIds<T, K>(s: seq<T>, key: T -> K, ids: seq<K>)
    ensures DeleteIn(s, key, ids) == RemoveIds(s, key, ids)
  {
  }

  // ---- what the subsequent run leaves

  lemma StampAllKeys(delta: seq<AppContact>, now: int, k: string)
    ensures HasKey(StampAll(delta, now), AppContactIdOf, k) <==> HasKey(delta, AppContactIdOf, k)
  {
    var s := StampAll(delta, now);
    if HasKey(delta, AppContactIdOf, k) {
      var i :| 0 <= i < |delta| && AppContactIdOf(delta[i]) == k;
      assert AppContactIdOf(s[i]) == k;
    }
    if HasKey(s, AppContactIdOf, k) {
      var i :| 0 <= i < |s| && AppContactIdOf(s[i]) == k;
      assert AppContactIdOf(delta[i]) == k;
    }
  }

  /** The row stored for an id is the delta's last contact with it, stamped. */
  lemma {:induction false} StampAllLast(delta: seq<AppContact>, now: int, k: string)
    requires k in AssociateBy(delta, AppContactIdOf)
    ensures k in AssociateBy(StampAll(delta, now), AppContactIdOf)
    ensures AssociateBy(StampAll(delta, now), AppContactIdOf)[k] == Stamped(AssociateBy(delta, AppContactIdOf)[k], now)
  {
    var n := |delta| - 1;
    var s := StampAll(delta, now);
    assert s[..n] == StampAll(delta[..n], now);
    if delta[n].contactId != k {
      StampAllLast(delta[..n], now, k);
    }
  }

  /** After a subsequent run the app's table and the list it returns hold the
    * same ids: those of the table or the updated contacts that the system
    * still has. An updated contact the system has is stored with the update
    * time of the run, and listed as the system gave it. */
  lemma SubsequentOutcome(table: seq<AppContact>, delta: seq<AppContact>, census: set<string>, now: int, k: string)
    requires DistinctKeys(table, AppContactIdOf) && DistinctKeys(delta, AppContactIdOf)
    ensures HasKey(SubsequentList(table, delta, census), AppContactIdOf, k)
      <==> (HasKey(table, AppContactIdOf, k) || HasKey(delta, AppContactIdOf, k)) && k in census
    ensures HasKey(SubsequentTable(table, delta, census, now), AppContactIdOf, k)
      <==> HasKey(SubsequentList(table, delta, census), AppContactIdOf, k)
    ensures k in census && k in AssociateBy(delta, AppContactIdOf) ==>
      Lookup(SubsequentTable(table, delta, census, now), AppContactIdOf, k)
        == Some(Stamped(AssociateBy(delta, AppContactIdOf)[k], now))
    ensures var r := SubsequentList(table, delta, census);
      forall i :: 0 <= i < |r| && r[i].contactId in AssociateBy(delta, AppContactIdOf) ==>
        r[i] == AssociateBy(delta, AppContactIdOf)[r[i].contactId]
  {
    var merged := MergedWithTable(table, delta);
    MergedIsMergeAppend(table, delta);
    AppendPassOutcome(table, delta, AppContactIdOf, census, k);
    MergeKeys(table, delta, AppContactIdOf, k);
    var stale := StaleIds(merged, AppContactIdOf, census);
    StaleIdsMembers(merged, AppContactIdOf, census, k);
    var upserted := if delta == [] then table else UpsertRows(table, StampAll(delta, now), AppContactIdOf);
    DeleteInLookup(upserted, AppContactIdOf, stale, k);
    AssociateByKeys(delta, AppContactIdOf, k);
    if delta != [] {
      UpsertRowsLookup(table, StampAll(delta, now), AppContactIdOf, k);
      AssociateByKeys(StampAll(delta, now), AppContactIdOf, k);
      StampAllKeys(delta, now, k);
      if k in AssociateBy(delta, AppContactIdOf) {
        StampAllLast(delta, now, k);
      }
    }
  }

  /** An empty delta writes nothing: the table only loses the ids the system
    * no longer has, and the list is the table's rows the system still has. */
  lemma SubsequentEmptyDelta(table: seq<AppContact>, census: set<string>, now: int)
    ensures SubsequentTable(table, [], census, now) == DeleteIn(table, AppContactIdOf, StaleIds(table, AppContactIdOf, census))
    ensures SubsequentList(table, [], census) == InCensus(table, AppContactIdOf, census)
  {
    CoversSelf(table);
    assert MergedWithTable(table, []) == table;
  }

  // ---- the collector of observeContactsChanges

  /** The list one emission of the observer leaves: an empty emission keeps
    * the contacts the system still has; any other goes through
    * `contactPersonEntityAddOrUpdate`. */
  function Observed(list: seq<AppContact>, delta: seq<AppContact>, census: set<string>,
                    collate: (Option<string>, Option<string>) -> bool): seq<AppContact>
  {
    if delta == [] then InCensus(list, AppContactIdOf, census)
    else AddOrUpdate(list, delta, AppContactIdOf, AppNameOrder(collate))
  }

  lemma InCensusKeys<T, K>(s: seq<T>, key: T -> K, census: set<K>, k: K)
    ensures HasKey(InCensus(s, key, census), key, k) <==> HasKey(s, key, k) && k in census
  {
    var r := InCensus(s, key, census);
    if HasKey(s, key, k) && k in census {
      var i :| 0 <= i < |s| && key(s[i]) == k;
      var j :| 0 <= j < |r| && r[j] == s[i];
    }
    if HasKey(r, key, k) {
      var j :| 0 <= j < |r| && key(r[j]) == k;
      var i :| 0 <= i < |s| && s[i] == r[j];
    }
  }

  /** An empty emission drops exactly the ids the system no longer has; any
    * other emission drops no id, adds the emitted ids once each, and leaves
    * the list sorted by the name comparator. */
  lemma ObservedOutcome(list: seq<AppContact>, delta: seq<AppContact>, census: set<string>,
                        collate: (Option<string>, Option<string>) -> bool, k: string)
    ensures delta == [] ==>
      (HasKey(Observed(list, delta, census, collate), AppContactIdOf, k) <==> HasKey(list, AppContactIdOf, k) && k in census)
    ensures delta != [] ==>
      (HasKey(Observed(list, delta, census, collate), AppContactIdOf, k) <==>
         (HasKey(list, AppContactIdOf, k) || HasKey(delta, AppContactIdOf, k)))
    ensures delta != [] ==> DistinctKeys(Observed(list, delta, census, collate), AppContactIdOf)
    ensures delta != [] && TotalPreorder(AppNameOrder(collate)) ==>
      Sorted(Observed(list, delta, census, collate), AppNameOrder(collate))
  {
    if delta == [] {
      InCensusKeys(list, AppContactIdOf, census, k);
    } else {
      AddOrUpdateIds(list, delta, AppContactIdOf, AppNameOrder(collate), k);
      AddOrUpdateDistinct(list, delta, AppContactIdOf, AppNameOrder(collate));
      if TotalPreorder(AppNameOrder(collate)) {
        AddOrUpdateSorted(list, delta, AppContactIdOf, AppNameOrder(collate));
      }
    }
  }

  /** Sorting before publishing neither adds nor drops a contact. */
  lemma SortKeepsKeys(s: seq<AppContact>, le: (AppContact, AppContact) -> bool, k: string)
    ensures HasKey(SortBy(s, le), AppContactIdOf, k) <==> HasKey(s, AppContactIdOf, k)
  {
    var r := SortBy(s, le);
    if HasKey(s, AppContactIdOf, k) {
      var i :| 0 <= i < |s| && AppContactIdOf(s[i]) == k;
      assert s[i] in multiset(r);
      var j :| 0 <= j < |r| && r[j] == s[i];
    }
    if HasKey(r, AppContactIdOf, k) {
      var j :| 0 <= j < |r| && AppContactIdOf(r[j]) == k;
      assert r[j] in multiset(s);
      var i :| 0 <= i < |s| && s[i] == r[j];
    }
  }

  /** On a later start the published contacts and the app's table hold the
    * same ids once the contact job is done. */
  lemma ShownMatchesStored(table: seq<AppContact>, delta: seq<AppContact>, census: set<string>, now: int,
                           collate: (Option<string>, Option<string>) -> bool, k: string)
    requires DistinctKeys(table, AppContactIdOf) && DistinctKeys(delta, AppContactIdOf)
    ensures HasKey(SortBy(SubsequentList(table, delta, census), AppNameOrder(collate)), AppContactIdOf, k)
      <==> HasKey(SubsequentTable(table, delta, census, now), AppContactIdOf, k)
  {
    SortKeepsKeys(SubsequentList(table, delta, census), AppNameOrder(collate), k);
    SubsequentOutcome(table, delta, census, now, k);
  }

  // ---- the view model's steps, on values

  /** Everything the view model reads and writes: its state, its two vars,
    * the app's two Room tables, the two DataStore keys (None when unset),
    * and what the screen has reported so far. */
  datatype Books = Books(
    state: MainState,
    lastUpdateTime: int,
    isFirstEnterApp: bool,
    contactTable: seq<AppContact>,
    callLogTable: Table<AppCallLog>,
    firstEnterApp: Option<bool>,
    lastReadTime: Option<int>,
    events: seq<Event>)

  /** The contacts the contact job ends with: every system contact on a first
    * run, else the subsequent-run list. */
  function ContactDetails(b: Books, device: Device): seq<AppContact>
  {
    if b.isFirstEnterApp then device.contacts
    else SubsequentList(b.contactTable, device.updatedAfter(b.lastUpdateTime), device.contactIds)
  }

  function ContactTableAfter(b: Books, device: Device, now: int): seq<AppContact>
  {
    if b.isFirstEnterApp then UpsertRows(b.contactTable, StampAll(device.contacts, now), AppContactIdOf)
    else SubsequentTable(b.contactTable, device.updatedAfter(b.lastUpdateTime), device.contactIds, now)
  }

  /** `nameSort` in the contact job throws on the job's list. */
  predicate ContactJobThrows(b: Books, device: Device)
  {
    NameSortThrows(ContactDetails(b, device))
  }

  /** `launchContactJob`: the table written by the handler, then the sorted
    * list published; a `nameSort` that throws ends the job after the table
    * was written, with nothing published. */
  function ContactJob(b: Books, device: Device, now: int, collate: (Option<string>, Option<string>) -> bool): Books
  {
    if ContactJobThrows(b, device) then b.(contactTable := ContactTableAfter(b, device, now))
    else
    var list := SortBy(ContactDetails(b, device), AppNameOrder(collate));
    b.(state := b.state.(isContactPersonLoading := false, contactPersonEntityList := list),
       contactTable := ContactTableAfter(b, device, now),
       events := b.events + [ContactsShown])
  }

  /** The call rows the call-log job decodes: none without a cursor, all of
    * them on a first run, else those after `lastUpdateTime`. */
  function CallRows(isFirstEnterApp: bool, lastUpdateTime: int, device: Device): seq<CU.CallRow>
  {
    if device.callLog.None? then []
    else if isFirstEnterApp then device.callLog.value
    else CU.After(device.callLog.value, lastUpdateTime)
  }

  /** The call-log query throws: there is a cursor and one of the first
    * `MAX_RECORDS` rows it would decode has a number that does not parse. */
  predicate CallLogThrows(isFirstEnterApp: bool, lastUpdateTime: int, device: Device)
  {
    device.callLog.Some? && !CU.AllParse(Take(CallRows(isFirstEnterApp, lastUpdateTime, device), CU.MAX_RECORDS), device.lookups)
  }

  /** The records the call-log job publishes. */
  function CallList(isFirstEnterApp: bool, lastUpdateTime: int, device: Device): seq<AppCallLog>
  {
    Take(CU.DecodeAll(CallRows(isFirstEnterApp, lastUpdateTime, device), device.lookups), CU.MAX_RECORDS)
  }

  /** The per-number map `queryData` builds for a list. */
  function ByNumber(list: seq<AppCallLog>): Linked<string, seq<AppCallLog>>
  {
    var ks := Distinct(Keys(list, CU.NumberOf));
    Linked(ks, map n | n in ks :: CU.WithNumber(list, n))
  }

  /** The grouping `queryData` promises determines the map. */
  lemma GroupsByNumberUnique(m: Linked<string, seq<AppCallLog>>, list: seq<AppCallLog>)
    requires CU.GroupsByNumber(m, list)
    ensures m == ByNumber(list)
  {
    var r := ByNumber(list);
    assert m.entries.Keys == r.entries.Keys;
    assert forall n :: n in m.entries ==> m.entries[n] == r.entries[n];
  }

  /** Without a cursor the job publishes an empty list and an empty map. */
  lemma NoCallsPublished(isFirstEnterApp: bool, lastUpdateTime: int, device: Device)
    requires device.callLog.None?
    ensures CallList(isFirstEnterApp, lastUpdateTime, device) == []
    ensures ByNumber([]) == Linked([], map[])
  {
    var ks := Distinct(Keys([], CU.NumberOf));
    assert ks == [];
  }

  /** `launchCallLogJob`: the list and map published, and on a first run the
    * list upserted; a query that throws ends the job with nothing written. */
  function CallLogJob(b: Books, device: Device): Books
  {
    if CallLogThrows(b.isFirstEnterApp, b.lastUpdateTime, device) then b
    else
    var list := CallList(b.isFirstEnterApp, b.lastUpdateTime, device);
    b.(state := b.state.(isCallLogLoading := false, callLogEntityList := list, callLogEntityMap := ByNumber(list)),
       callLogTable := if b.isFirstEnterApp
         then UpsertChildren(b.callLogTable, list, AppCallLogIdOf, WithAppCallLogId)
         else b.callLogTable,
       events := b.events + [CallLogsShown])
  }

  /** `loadContactList`: the flags set, the two keys read (an unset first-run
    * key reads as true, an unset time as 0), both jobs run, and on a first
    * run only the stored first-run key cleared. */
  function Loaded(b: Books, device: Device, now: int, collate: (Option<string>, Option<string>) -> bool)
    : Books
  {
    Cleared(CallLogJob(ContactJob(Started(b), device, now, collate), device))
  }

  /** What `loadContactList` does before launching the jobs. */
  function Started(b: Books): Books
  {
    b.(state := b.state.(isContactPersonLoading := true, isCallLogLoading := true, hasPermissions := Some(true)),
       isFirstEnterApp := if b.firstEnterApp.Some? then b.firstEnterApp.value else true,
       lastUpdateTime := if b.lastReadTime.Some? then b.lastReadTime.value else 0)
  }

  /** What it does after both jobs joined. */
  function Cleared(b: Books): Books
  {
    if b.isFirstEnterApp then b.(firstEnterApp := Some(false), events := b.events + [FirstEnterAppCleared])
    else b
  }

  /** `noPermissions`. */
  function Denied(b: Books): Books
  {
    b.(state := b.state.(hasPermissions := Some(false)))
  }

  /** The collector throws on an emission: a non-empty one whose merge
    * `nameSort` throws on. */
  predicate ObserverThrows(list: seq<AppContact>, emitted: seq<AppContact>)
  {
    emitted != [] && AddOrUpdateThrows(list, emitted)
  }

  /** One collected emission of `observeContactsChanges`: the list on screen
    * updated unless the collector throws, and the observer's `updateTime`
    * callback, which does not wait for the collector, storing the clock
    * reading `now` under the DataStore's last read time. */
  function Collected(b: Books, emitted: seq<AppContact>, census: set<string>, now: int,
                     collate: (Option<string>, Option<string>) -> bool): Books
  {
    var list := b.state.contactPersonEntityList;
    b.(state := b.state.(contactPersonEntityList :=
         if ObserverThrows(list, emitted) then list else Observed(list, emitted, census, collate)),
       lastReadTime := Some(now))
  }

  /** A load ends with the permission granted; the contacts stay loading
    * exactly when `nameSort` threw, and the call log exactly when its query
    * threw. */
  lemma LoadFlags(b: Books, device: Device, now: int, collate: (Option<string>, Option<string>) -> bool)
    ensures var r := Loaded(b, device, now, collate);
      var s := Started(b);
      && r.state.hasPermissions == Some(true)
      && (r.state.isContactPersonLoading <==> ContactJobThrows(s, device))
      && (r.state.isCallLogLoading <==> CallLogThrows(s.isFirstEnterApp, s.lastUpdateTime, device))
      && r.lastReadTime == b.lastReadTime
  {
  }

  /** The stored first-run key ends false whatever it was; it is cleared only
    * after both jobs reported, and only when the run was a first one. */
  lemma LoadClearsFirstRun(b: Books, device: Device, now: int, collate: (Option<string>, Option<string>) -> bool)
    ensures var r := Loaded(b, device, now, collate);
      && r.firstEnterApp == Some(false)
      && r.isFirstEnterApp == (b.firstEnterApp != Some(false))
      && r.events == b.events
                     + (if ContactJobThrows(Started(b), device) then [] else [ContactsShown])
                     + (if CallLogThrows(Started(b).isFirstEnterApp, Started(b).lastUpdateTime, device) then [] else [CallLogsShown])
                     + (if b.firstEnterApp != Some(false) then [FirstEnterAppCleared] else [])
  {
    var b1 := Started(b);
    JobsKeepKeys(b1, device, now, collate);
    assert b1.isFirstEnterApp == (b.firstEnterApp != Some(false));
  }

  /** The two jobs leave the DataStore keys and the run's flag alone, and each
    * reports once unless it threw. */
  lemma JobsKeepKeys(b: Books, device: Device, now: int, collate: (Option<string>, Option<string>) -> bool)
    ensures var r := CallLogJob(ContactJob(b, device, now, collate), device);
      && r.firstEnterApp == b.firstEnterApp && r.isFirstEnterApp == b.isFirstEnterApp
      && r.events == b.events
                     + (if ContactJobThrows(b, device) then [] else [ContactsShown])
                     + (if CallLogThrows(b.isFirstEnterApp, b.lastUpdateTime, device) then [] else [CallLogsShown])
  {
  }

  /** On a later start the app's table ends up holding the ids of the table
    * or of the contacts updated since the last read time that the system
    * still has. Unless `nameSort` throws, the contacts shown are name-sorted
    * and hold exactly those ids; when it throws, the list shown is the one
    * from before the load and the contacts stay loading. */
  lemma LaterStartShowsStored(b: Books, device: Device, now: int,
                              collate: (Option<string>, Option<string>) -> bool, k: string)
    requires b.firstEnterApp == Some(false)
    requires DistinctKeys(b.contactTable, AppContactIdOf)
    requires DistinctKeys(device.updatedAfter(if b.lastReadTime.Some? then b.lastReadTime.value else 0), AppContactIdOf)
    ensures var r := Loaded(b, device, now, collate);
      var delta := device.updatedAfter(r.lastUpdateTime);
      var threw := ContactJobThrows(Started(b), device);
      && (HasKey(r.contactTable, AppContactIdOf, k) <==>
            (HasKey(b.contactTable, AppContactIdOf, k) || HasKey(delta, AppContactIdOf, k)) && k in device.contactIds)
      && (threw ==> r.state.isContactPersonLoading && r.state.contactPersonEntityList == b.state.contactPersonEntityList)
      && (!threw ==>
            (HasKey(r.state.contactPersonEntityList, AppContactIdOf, k) <==> HasKey(r.contactTable, AppContactIdOf, k)))
      && (!threw && TotalPreorder(AppNameOrder(collate)) ==>
            Sorted(r.state.contactPersonEntityList, AppNameOrder(collate)))
  {
    var t := if b.lastReadTime.Some? then b.lastReadTime.value else 0;
    var delta := device.updatedAfter(t);
    var b2 := ContactJob(Started(b), device, now, collate);
    CallLogJobKeepsContacts(b2, device);
    ShownMatchesStored(b.contactTable, delta, device.contactIds, now, collate, k);
    SubsequentOutcome(b.contactTable, delta, device.contactIds, now, k);
    if TotalPreorder(AppNameOrder(collate)) {
      SortBySorted(SubsequentList(b.contactTable, delta, device.contactIds), AppNameOrder(collate));
    }
  }

  /** The call-log job leaves the contacts, their table, the run's flag and
    * time and the DataStore keys alone. */
  lemma CallLogJobKeepsContacts(b: Books, device: Device)
    ensures var r := CallLogJob(b, device);
      && r.state.contactPersonEntityList == b.state.contactPersonEntityList
      && r.state.hasPermissions == b.state.hasPermissions
      && r.state.isContactPersonLoading == b.state.isContactPersonLoading
      && r.contactTable == b.contactTable && r.lastUpdateTime == b.lastUpdateTime
      && r.isFirstEnterApp == b.isFirstEnterApp
      && r.firstEnterApp == b.firstEnterApp && r.lastReadTime == b.lastReadTime
  {
  }

  /** An emission moves the stored last read time to `now` and touches
    * neither the app's tables nor the run's `lastUpdateTime`; its list is
    * the one `Observed` describes, or the old one when the collector throws. */
  lemma CollectedStamps(b: Books, emitted: seq<AppContact>, census: set<string>, now: int,
                        collate: (Option<string>, Option<string>) -> bool, k: string)
    ensures var r := Collected(b, emitted, census, now, collate);
      && r.lastReadTime == Some(now) && r.lastUpdateTime == b.lastUpdateTime
      && r.contactTable == b.contactTable && r.callLogTable == b.callLogTable
      && r.firstEnterApp == b.firstEnterApp && r.events == b.events
      && (emitted == [] ==>
            (HasKey(r.state.contactPersonEntityList, AppContactIdOf, k) <==>
               HasKey(b.state.contactPersonEntityList, AppContactIdOf, k) && k in census))
      && (ObserverThrows(b.state.contactPersonEntityList, emitted) ==>
            r.state.contactPersonEntityList == b.state.contactPersonEntityList)
      && (emitted != [] && !ObserverThrows(b.state.contactPersonEntityList, emitted) ==>
            (HasKey(r.state.contactPersonEntityList, AppContactIdOf, k) <==>
               HasKey(b.state.contactPersonEntityList, AppContactIdOf, k) || HasKey(emitted, AppContactIdOf, k)))
  {
    ObservedOutcome(b.state.contactPersonEntityList, emitted, census, collate, k);
  }

  /** After an emission at `now`, the next later start reads only the contacts
    * updated after `now`: a contact the observer showed but the app's table
    * never held ends up stored only if it changed again after `now`. */
  lemma CollectedThenRestart(b: Books, emitted: seq<AppContact>, census: set<string>, now: int,
                             device: Device, later: int,
                             collate: (Option<string>, Option<string>) -> bool, k: string)
    requires b.firstEnterApp == Some(false)
    requires DistinctKeys(b.contactTable, AppContactIdOf)
    requires DistinctKeys(device.updatedAfter(now), AppContactIdOf)
    ensures var r := Loaded(Collected(b, emitted, census, now, collate), device, later, collate);
      && r.lastUpdateTime == now
      && (HasKey(r.contactTable, AppContactIdOf, k) <==>
            (HasKey(b.contactTable, AppContactIdOf, k) || HasKey(device.updatedAfter(now), AppContactIdOf, k))
            && k in device.contactIds)
  {
    LaterStartShowsStored(Collected(b, emitted, census, now, collate), device, later, collate, k);
  }

  /** Unless its query throws, the call-log page shows at most `MAX_RECORDS`
    * records, filed by number with every record under its own number exactly
    * once; a throwing query changes nothing. */
  lemma CallLogJobShape(b: Books, device: Device)
    ensures CallLogThrows(b.isFirstEnterApp, b.lastUpdateTime, device) ==> CallLogJob(b, device) == b
    ensures !CallLogThrows(b.isFirstEnterApp, b.lastUpdateTime, device) ==>
      var r := CallLogJob(b, device);
      && |r.state.callLogEntityList| <= CU.MAX_RECORDS
      && CU.GroupsByNumber(r.state.callLogEntityMap, r.state.callLogEntityList)
      && CU.SumSizes(r.state.callLogEntityList, r.state.callLogEntityMap.keys) == |r.state.callLogEntityList|
  {
    if CallLogThrows(b.isFirstEnterApp, b.lastUpdateTime, device) {
      return;
    }
    var list := CallList(b.isFirstEnterApp, b.lastUpdateTime, device);
    var m := ByNumber(list);
    assert CU.GroupsByNumber(m, list);
    CU.GroupedOnce(m, list);
  }

  /** A first run stores every published record as a new row. */
  lemma {:induction false} FirstRunAddsCallRows(t: Table<AppCallLog>, list: seq<AppCallLog>)
    requires forall i :: 0 <= i < |list| ==> list[i].id == 0
    ensures |UpsertChildren(t, list, AppCallLogIdOf, WithAppCallLogId).rows| == |t.rows| + |list|
  {
    if list != [] {
      FirstRunAddsCallRows(t, list[..|list| - 1]);
    }
  }

  // ---- the view model

  class MainViewModel {
    /** `_state.value`. */
    var state: MainState
    /** `lastUpdateTime.value`. */
    var lastUpdateTime: int
    /** The `isFirstEnterApp` var. */
    var isFirstEnterApp: bool
    /** The Room `contact_person` table, keyed by contactId. */
    var contactTable: seq<AppContact>
    /** The Room `call_log` table, whose id Room generates. */
    var callLogTable: Table<AppCallLog>
    /** The DataStore keys `firstEnterApp` and `lastReadTime`; None when unset. */
    var firstEnterApp: Option<bool>
    var lastReadTime: Option<int>
    /** What the screen has reported so far. */
    var events: seq<Event>

    ghost predicate Valid()
      reads this
    {
      DistinctKeys(contactTable, AppContactIdOf)
    }

    function State(): Books
      reads this
    {
      Books(state, lastUpdateTime, isFirstEnterApp, contactTable, callLogTable, firstEnterApp, lastReadTime, events)
    }

    constructor(table0: seq<AppContact>, calls0: Table<AppCallLog>, first0: Option<bool>, read0: Option<int>)
      requires DistinctKeys(table0, AppContactIdOf)
      ensures Valid()
      ensures State() == Books(InitialState, 0, true, table0, calls0, first0, read0, [])
    {
      state := InitialState;
      lastUpdateTime := 0;
      isFirstEnterApp := true;
      contactTable := table0;
      callLogTable := calls0;
      firstEnterApp := first0;
      lastReadTime := read0;
      events := [];
    }

    /** `handleContactSubsequentEnterApp`: the table's contacts, with the
      * contacts updated since `lastUpdateTime` merged in and upserted when
      * there are any, then every id the system lacks deleted from the table
      * and the list, one id at a time. */
    method HandleContactSubsequentEnterApp(device: Device, now: int) returns (details: seq<AppContact>)
      requires Valid()
      modifies this
      ensures Valid()
      ensures details == SubsequentList(old(contactTable), device.updatedAfter(lastUpdateTime), device.contactIds)
      ensures State() == old(State()).(contactTable :=
        SubsequentTable(old(contactTable), device.updatedAfter(lastUpdateTime), device.contactIds, now))
    {
      var queryUpdatedContacts := device.updatedAfter(lastUpdateTime);
      details := MergeUpdated(contactTable, queryUpdatedContacts);
      if queryUpdatedContacts != [] {
        UpsertRowsDistinct(contactTable, StampAll(queryUpdatedContacts, now), AppContactIdOf);
        contactTable := UpsertRows(contactTable, StampAll(queryUpdatedContacts, now), AppContactIdOf);
      }
      var queryAllContactIds := device.contactIds;
      var idsToDelete := StaleIds(details, AppContactIdOf, queryAllContactIds);
      details, contactTable := DeleteEach(details, contactTable, idsToDelete);
      RemoveStaleIds(MergedWithTable(old(contactTable), queryUpdatedContacts), AppContactIdOf, queryAllContactIds);
    }

    /** `handleContactFirstEnterApp`: every system contact, upserted. */
    method HandleContactFirstEnterApp(device: Device, now: int) returns (details: seq<AppContact>)
      requires Valid()
      modifies this
      ensures Valid()
      ensures details == device.contacts
      ensures State() == old(State()).(contactTable :=
        UpsertRows(old(contactTable), StampAll(device.contacts, now), AppContactIdOf))
    {
      details := device.contacts;
      UpsertRowsDistinct(contactTable, StampAll(details, now), AppContactIdOf);
      contactTable := UpsertRows(contactTable, StampAll(details, now), AppContactIdOf);
    }

    /** `launchContactJob`. */
    method LaunchContactJob(device: Device, now: int, collate: (Option<string>, Option<string>) -> bool)
      requires Valid()
      modifies this
      ensures Valid()
      ensures State() == ContactJob(old(State()), device, now, collate)
    {
      ghost var b := State();
      var details: seq<AppContact>;
      if isFirstEnterApp {
        details := HandleContactFirstEnterApp(device, now);
      } else {
        details := HandleContactSubsequentEnterApp(device, now);
      }
      assert details == ContactDetails(b, device) && contactTable == ContactTableAfter(b, device, now);
      var threw;
      threw, details := SortedCopy(details, collate);
      if threw {
        return;
      }
      state := state.(isContactPersonLoading := false, contactPersonEntityList := details);
      events := events + [ContactsShown];
    }

    /** `launchCallLogJob`. */
    method LaunchCallLogJob(device: Device)
      requires Valid()
      modifies this
      ensures Valid()
      ensures State() == CallLogJob(old(State()), device)
    {
      var threw, callLogList, callLogMap := QueryCallLogs(device, isFirstEnterApp, lastUpdateTime);
      if threw {
        return;
      }
      if isFirstEnterApp {
        callLogTable := UpsertChildren(callLogTable, callLogList, AppCallLogIdOf, WithAppCallLogId);
      }
      state := state.(isCallLogLoading := false, callLogEntityMap := callLogMap, callLogEntityList := callLogList);
      events := events + [CallLogsShown];
    }

    /** `loadContactList`. */
    method LoadContactList(device: Device, now: int, collate: (Option<string>, Option<string>) -> bool)
      requires Valid()
      modifies this
      ensures Valid()
      ensures State() == Loaded(old(State()), device, now, collate)
    {
      state := state.(isContactPersonLoading := true, isCallLogLoading := true, hasPermissions := Some(true));
      isFirstEnterApp := if firstEnterApp.Some? then firstEnterApp.value else true;
      lastUpdateTime := if lastReadTime.Some? then lastReadTime.value else 0;
      assert State() == Started(old(State()));
      LaunchContactJob(device, now, collate);
      LaunchCallLogJob(device);
      ClearFirstEnterApp();
    }

    /** After the join, `updateFirstEnterApp(false)` on a first run. */
    method ClearFirstEnterApp()
      requires Valid()
      modifies this
      ensures Valid()
      ensures State() == Cleared(old(State()))
    {
      if isFirstEnterApp {
        firstEnterApp := Some(false);
        events := events + [FirstEnterAppCleared];
      }
    }

    /** `noPermissions`. */
    method NoPermissions()
      modifies this
      ensures State() == Denied(old(State()))
    {
      state := state.(hasPermissions := Some(false));
    }

    /** The collector of `observeContactsChanges`, for one emission: the
      * contacts updated since the last read, or none. */
    method OnContactsChanged(emitted: seq<AppContact>, census: set<string>, now: int,
                             collate: (Option<string>, Option<string>) -> bool)
      modifies this
      ensures State() == Collected(old(State()), emitted, census, now, collate)
    {
      lastReadTime := Some(now);
      var contactPersonEntityList: seq<AppContact>;
      if emitted == [] {
        var queryAllContactId := census;
        contactPersonEntityList := InCensus(state.contactPersonEntityList, AppContactIdOf, queryAllContactId);
      } else {
        var threw;
        threw, contactPersonEntityList := AppContactPersonEntityAddOrUpdate(state.contactPersonEntityList, emitted, collate);
        if threw {
          return;
        }
      }
      state := state.(contactPersonEntityList := contactPersonEntityList);
    }
  }

  /** Steps 1 to 3 of `handleContactSubsequentEnterApp`: the table's rows,
    * then the `forEach` over the updated contacts, which looks each id up in
    * the table as read before the loop. */
  method MergeUpdated(table: seq<AppContact>, queryUpdatedContacts: seq<AppContact>)
    returns (details: seq<AppContact>)
    ensures details == MergedWithTable(table, queryUpdatedContacts)
  {
    details := table;
    CoversSelf(table);
    if queryUpdatedContacts != [] {
      var i := 0;
      while i < |queryUpdatedContacts|
        invariant 0 <= i <= |queryUpdatedContacts|
        invariant details == Merged(table, queryUpdatedContacts[..i], table)
      {
        var contactPersonEntity := queryUpdatedContacts[i];
        ghost var before := details;
        if Lookup(table, AppContactIdOf, contactPersonEntity.contactId).None? {
          details := details + [contactPersonEntity];
        } else {
          var index := IndexOfKey(details, AppContactIdOf, contactPersonEntity.contactId);
          details := details[index := contactPersonEntity];
        }
        assert details == MergeStep(before, contactPersonEntity, table);
        assert queryUpdatedContacts[..i + 1][..i] == queryUpdatedContacts[..i];
        i := i + 1;
      }
      assert queryUpdatedContacts[..i] == queryUpdatedContacts;
    }
  }

  /** Step 5: for each id, `deleteByContactId` on the table, then `removeIf`
    * on the list. */
  method DeleteEach(details0: seq<AppContact>, table0: seq<AppContact>, idsToDelete: seq<string>)
    returns (details: seq<AppContact>, table: seq<AppContact>)
    requires DistinctKeys(table0, AppContactIdOf)
    ensures details == RemoveIds(details0, AppContactIdOf, idsToDelete)
    ensures table == DeleteIn(table0, AppContactIdOf, idsToDelete)
    ensures DistinctKeys(table, AppContactIdOf)
  {
    details, table := details0, table0;
    RemoveNoIds(details0, AppContactIdOf);
    RemoveNoIds(table0, AppContactIdOf);
    var j := 0;
    while j < |idsToDelete|
      invariant 0 <= j <= |idsToDelete|
      invariant details == RemoveIds(details0, AppContactIdOf, idsToDelete[..j])
      invariant table == RemoveIds(table0, AppContactIdOf, idsToDelete[..j])
      invariant DistinctKeys(table, AppContactIdOf)
    {
      var contactId := idsToDelete[j];
      DeleteInDistinct(table, AppContactIdOf, [contactId]);
      DeleteInIsRemoveIds(table, AppContactIdOf, [contactId]);
      table := DeleteIn(table, AppContactIdOf, [contactId]);
      details := RemoveIds(details, AppContactIdOf, [contactId]);
      RemoveIdsSnoc(details0, AppContactIdOf, idsToDelete[..j], contactId);
      RemoveIdsSnoc(table0, AppContactIdOf, idsToDelete[..j], contactId);
      assert idsToDelete[..j + 1] == idsToDelete[..j] + [contactId];
      j := j + 1;
    }
    assert idsToDelete[..j] == idsToDelete;
    DeleteInIsRemoveIds(table0, AppContactIdOf, idsToDelete);
  }

  /** The query half of `launchCallLogJob`: whether the query threw, else
    * the callback's list, and its map `putAll` into an empty one; both stay
    * empty without a callback. */
  method QueryCallLogs(device: Device, isFirstEnterApp: bool, lastUpdateTime: int)
    returns (threw: bool, callLogList: seq<AppCallLog>, callLogMap: Linked<string, seq<AppCallLog>>)
    ensures threw <==> CallLogThrows(isFirstEnterApp, lastUpdateTime, device)
    ensures !threw ==> callLogList == CallList(isFirstEnterApp, lastUpdateTime, device)
    ensures !threw ==> callLogMap == ByNumber(callLogList)
  {
    threw := false;
    callLogMap := Linked([], map[]);
    callLogList := [];
    var outcome: CU.Outcome;
    if isFirstEnterApp {
      outcome := CU.QueryCallLog(device.callLog, device.lookups);
    } else {
      outcome := CU.QueryCallLogAfterTimestamp(device.callLog, lastUpdateTime, device.lookups);
    }
    match outcome
    case Thrown =>
      threw := true;
    case Callback(delivery) =>
      callLogList := callLogList + delivery.list;
      callLogMap := delivery.byNumber;
      assert callLogList == delivery.list;
      GroupsByNumberUnique(callLogMap, callLogList);
    case NoCallback =>
      NoCallsPublished(isFirstEnterApp, lastUpdateTime, device);
  }
}
