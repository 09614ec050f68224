# DullNexusLink contact and call-log sync, in Dafny

This project models the core of DullNexusLink, an Android dialer and contacts
app written in Kotlin. It has two parts. The `communication` module keeps a contact
snapshot and a call-log snapshot in step with the system contacts provider and
call log, through a Room database and a persisted "last update" cursor. The
`app` module lays those records out on the contact and recent-calls pages.

The model has these parts; each Dafny module follows one of the program's files
or classes:

- **Records.** The records are Dafny datatypes, because Kotlin data classes
  compare structurally (`Entities`). So are the cursor rows and their
  defaulting getters (`Rows`). The label tables and processors that turn one
  row of the contacts data table into contact fields are in `ContactData`.
- **Queries.** `ContactQuery` and `ContactLookup` are the contact queries. Their
  cursor loops group rows into contacts under the `maxCount` cap, and they hold
  the id census and the phone lookups. `CallLogQueries` holds the call-log query
  descriptors with their hand-written `equals` and `hashCode` in 32-bit `Int`
  arithmetic (`Int32`). `CallLogProcessing` holds the five call-log row
  processors, and `AppCallLogUtil` the app's twenty-row call-log reader.
- **Room tables.** `Store` models the Room tables as ordered sequences of rows.
  A table keyed by a plain primary key is upserted by key. A table whose key
  Room generates hands out a fresh id to a row whose id is 0. `ContactStore`
  holds the contact tables and the join that rebuilds a contact from its base
  row and child rows.
- **Reconciliation.** `Reconcile` states the generic reconciliation pass:
  partition a delta against the snapshot, add the new ids (at the end for
  contacts, at the front for the call log), replace the known ids where they
  stand, and drop every id the full census lacks. `SyncSteps` holds the
  imperative versions of those steps, proved equal to it. `LinkedMap` and
  `EntityProcessing` hold the insertion-ordered map upserts and the sorts,
  including an in-place insertion sort over an array (`ListSort`).
- **Sync classes.** `ContactSync`, `CallLogSync`, `ContactServiceSync` and
  `CallLogServiceSync` are classes. Their fields are the published
  snapshot, the tables and the cursor, and their methods are the
  managers' and services' operations. Each method states its new state
  through a function of the old state, and lemmas state what those
  functions guarantee.
- **The app screen.** `MainScreen` models `MainViewModel`: the screen state,
  the app's own tables and preferences, the contact and call-log jobs, and the
  observer's fold.
- **Display.** `CallLogDisplay` holds the three display modes of the
  recent-calls page. `TimeBuckets` holds the choice among `formatTimestamp`'s
  four formats, `CallText` the duration texts and carrier labels, `SimInfo`
  the SIM label, and `ContactIndex` the index arithmetic of the contact page's
  letter rail.

What the system answers is given as values; nothing queries a device:

- A content-resolver query is the sequence of rows its cursor would deliver, or
  none for a null cursor.
- The id census is the list the `ALL_IDS` or contact-id query returns.
- Photos, subscriptions, the clock, the locale collator, the phone-number
  library and the date formatter are parameters.

Behaviour of the code worth noting:

- The contact manager publishes a first page before persisting it.
- `deleteCallLog` ignores the result of the system delete.
- A census read from a null cursor is empty, so the pass then drops every
  record.
- CONTINUOUS_MERGE joins neighbours by `isSameContact`, not by the MERGED
  grouping key.
- `CallLogService.initializeCallLogs` replaces the snapshot with each batch
  rather than extending it.
- The date shown for a call is one of `formatTimestamp`'s four formats; the
  code has no today/yesterday labelling scan.
- Every change notification the contact observer of `MainViewModel` handles
  stores the current time as the last read time, while the contacts it
  emits reach only the list on screen, not the app's contact table. The
  next later start queries only contacts updated after that time.
- The app's contact record has a nullable display name, and the locale
  collator's `compare` throws on a null one. So the app's `nameSort` throws
  on any list of two or more contacts that holds a nameless contact. The
  contact job then ends after the table was written but before anything is
  published, and the observer's collector keeps its list.

## Model

| member | source | states |
|---|---|---|
| EntityProcessing.MergedMap | communication/src/main/java/com/example/communication/utils/EntityDataProcessing.kt:18-22 | The map built by `associateBy` on the old list and one `put` per new item is well formed; its keys are the distinct ids of old-then-new in order of first occurrence, and each id holds the last item with that id, new items over old. |
| EntityProcessing.AddOrUpdateElements | communication/src/main/java/com/example/communication/utils/EntityDataProcessing.kt:14-29 | An item is in the merged list exactly when it is one of the map's values. |
| EntityProcessing.AddOrUpdateOnlyIds | communication/src/main/java/com/example/communication/utils/EntityDataProcessing.kt:14-29 | Every id in the merged list comes from the old list or the new list. |
| EntityProcessing.AddOrUpdateKeepsIds | communication/src/main/java/com/example/communication/utils/EntityDataProcessing.kt:14-29 | No id of the old list or the new list is dropped. |
| EntityProcessing.AddOrUpdateIds | communication/src/main/java/com/example/communication/utils/EntityDataProcessing.kt:14-29 | The merged list has an id exactly when the old list or the new list has it. |
| EntityProcessing.AddOrUpdateDistinct | communication/src/main/java/com/example/communication/utils/EntityDataProcessing.kt:14-29 | Each id appears only once in the merged list. |
| EntityProcessing.AddOrUpdateValues | communication/src/main/java/com/example/communication/utils/EntityDataProcessing.kt:18-24 | An id the new list has carries the last new item with it, and any other id carries the last old item with it. |
| EntityProcessing.AddOrUpdateSorted | communication/src/main/java/com/example/communication/utils/EntityDataProcessing.kt:24-28 | Under a total preorder the merged list comes out sorted. |
| EntityProcessing.PutEach | communication/src/main/java/com/example/communication/utils/EntityDataProcessing.kt:20-22 | The `forEach` of `put`s leaves the map that the list-order specification of `put` describes. |
| EntityProcessing.ValuesList | communication/src/main/java/com/example/communication/utils/EntityDataProcessing.kt:24 | `values.toMutableList()` lists the entries in key order. |
| EntityProcessing.AddOrUpdateBy | communication/src/main/java/com/example/communication/utils/EntityDataProcessing.kt:14-29 | The step-by-step merge (map, puts, values, in-place sort) returns the specified merged list. |
| EntityProcessing.NameOrderPreorder | communication/src/main/java/com/example/communication/utils/EntityDataProcessing.kt:31-35 | The display-name comparator is a total preorder wherever the collator is one. |
| EntityProcessing.ContactPersonEntityAddOrUpdate | communication/src/main/java/com/example/communication/utils/EntityDataProcessing.kt:14-29 | The communication module's merge, keyed by the Long contact id and ordered by display name, returns the specified merged list. |
| EntityProcessing.NameSort | communication/src/main/java/com/example/communication/utils/EntityDataProcessing.kt:31-35 | After the call the array holds the stable sort of its old contents by display name. |
| EntityProcessing.RecentFirstPreorder | communication/src/main/java/com/example/communication/utils/EntityDataProcessing.kt:37-47 | Date descending, then time descending, is a total preorder. |
| EntityProcessing.RecentSort | communication/src/main/java/com/example/communication/utils/EntityDataProcessing.kt:37-47 | After the call the array holds the stable sort of its old contents, newest first. |
| EntityProcessing.RecentSortOrders | communication/src/main/java/com/example/communication/utils/EntityDataProcessing.kt:37-47 | The sorted list is a permutation of its input; of two positions, the later one has an earlier or equal date, and on the same date an earlier or equal time. |
| EntityProcessing.AppContactPersonEntityAddOrUpdate | app/src/main/java/com/dullfan/nexuslink/utils/core/EntityDataProcessing.kt:9-24 | The app module's merge, keyed by the String contact id, throws exactly when `nameSort` throws on the map's values; otherwise it returns the specified merged list ordered by the nullable display name. |
| EntityProcessing.AppNameSort | app/src/main/java/com/dullfan/nexuslink/utils/core/EntityDataProcessing.kt:26-30 | `nameSort` throws exactly when the list has two or more contacts and one has a null display name, and the list is then left as it was; otherwise the array holds the stable sort of its old contents by display name. |
| EntityProcessing.SortedCopy | app/src/main/java/com/dullfan/nexuslink/utils/core/EntityDataProcessing.kt:26-30 | `nameSort` of a mutable copy of a list throws exactly when `NameSortThrows` holds, and otherwise leaves the stable sort by display name. |
| EntityProcessing.NameSortThrowsPermutation | app/src/main/java/com/dullfan/nexuslink/utils/core/EntityDataProcessing.kt:26-30 | Whether `nameSort` throws depends only on the multiset of contacts, not their order. |
| EntityProcessing.AddOrUpdateNamed | app/src/main/java/com/dullfan/nexuslink/utils/core/EntityDataProcessing.kt:9-30 | A merge in which every old and new contact has a display name never throws. |
| EntityProcessing.AddOrUpdateNamelessLast | app/src/main/java/com/dullfan/nexuslink/utils/core/EntityDataProcessing.kt:9-30 | A merge holding two or more ids throws when the last new contact has no display name, because its `put` is the value its id keeps. |
| LinkedMap.Put | communication/src/main/java/com/example/communication/utils/EntityDataProcessing.kt:21 | `map[k] = v` overwrites the entry; a present key keeps its position and a new key goes last. |
| LinkedMap.PutAllFromEmpty | communication/src/main/java/com/example/communication/utils/EntityDataProcessing.kt:18 | `associateBy` from an empty map: the keys are the distinct ids in order of first occurrence, and each holds the last item with that id. |
| LinkedMap.Values | communication/src/main/java/com/example/communication/utils/EntityDataProcessing.kt:24 | `values` has one element per key, the key's entry, in key order. |
| Store.Lookup | communication/src/main/java/com/example/communication/room/dao/ContactPersonDao.kt:23-24 | A lookup by primary key finds a row exactly when the table has one with that key, and what it finds is a row of the table with that key. |
| Store.UpsertRow | communication/src/main/java/com/example/communication/room/dao/ContactPersonDao.kt:11-12 | `@Upsert` of one row keeps the table's length when the key is present and appends the row when it is not. |
| Store.UpsertRowLookup | communication/src/main/java/com/example/communication/room/dao/ContactPersonDao.kt:11-12 | After an upsert the row's key finds the new row and every other key finds what it found before. |
| Store.UpsertRowDistinct | communication/src/main/java/com/example/communication/room/dao/ContactPersonDao.kt:11-12 | An upsert keeps a table's primary keys unique. |
| Store.UpsertRowsLookup | communication/src/main/java/com/example/communication/room/dao/CallLogDao.kt:11-12 | After a `vararg` upsert a key finds the last row given with it, or what it found before when no row had it. |
| Store.UpsertRowsDistinct | communication/src/main/java/com/example/communication/room/dao/CallLogDao.kt:11-12 | A `vararg` upsert keeps a table's primary keys unique. |
| Store.DeleteIn | communication/src/main/java/com/example/communication/room/dao/ContactPersonDao.kt:29-30 | `DELETE … WHERE key IN (:ids)` leaves no row whose key is listed. |
| Store.DeleteInLookup | communication/src/main/java/com/example/communication/room/dao/ContactPersonDao.kt:29-30 | After the delete a listed key finds nothing and any other key finds what it found before. |
| Store.DeleteInDistinct | communication/src/main/java/com/example/communication/room/dao/ContactPersonDao.kt:29-30 | The delete keeps a table's primary keys unique. |
| Store.UpsertChild | communication/src/main/java/com/example/communication/room/entity/ContactPersonEntity.kt:20-26 | On a table with `autoGenerate = true`, a row whose id is 0 is appended under a fresh id, and the last id handed out never goes down. |
| Store.OwnedMembers | communication/src/main/java/com/example/communication/room/dao/PhoneDao.kt:24-25 | The rows kept for one contact id are exactly the table's rows of that contact. |
| Store.DeleteOwnedBy | communication/src/main/java/com/example/communication/room/dao/PhoneDao.kt:33-34 | `DELETE … WHERE contactId IN (:ids)` on a child table leaves the id counter as it was. |
| Store.DeleteOthersKeeps | communication/src/main/java/com/example/communication/room/dao/PhoneDao.kt:33-34 | Deleting by other contact ids leaves one contact's child rows as they are. |
| Store.DeleteOwnEmpties | communication/src/main/java/com/example/communication/room/dao/PhoneDao.kt:33-34 | Deleting by a contact's id leaves none of its child rows. |
| Store.UpsertUnsetChildrenAdds | communication/src/main/java/com/example/communication/room/entity/ContactPersonEntity.kt:20-26 | Child rows with id 0 never replace anything: a contact's stored rows grow by the number of its rows upserted. |
| Store.UpsertUnsetOthers | communication/src/main/java/com/example/communication/room/entity/ContactPersonEntity.kt:20-26 | Upserting rows with id 0 of other contacts leaves one contact's rows as they are. |
| Store.UpsertUnsetChildrenStored | communication/src/main/java/com/example/communication/room/entity/ContactPersonEntity.kt:20-26 | Into a table holding none of a contact's rows, its rows with id 0 are stored in order, each under a fresh id. |
| Store.ReplaceOwnRows | communication/src/main/java/com/example/communication/room/dao/PhoneDao.kt:12-13 | Deleting a contact's child rows and then upserting its fresh rows leaves exactly those rows for it, in order. |
| Store.ReplaceOtherRows | communication/src/main/java/com/example/communication/room/dao/PhoneDao.kt:12-13 | The same delete-then-upsert leaves every other contact's child rows as they were. |
| Store.SaveOwnRowsAdds | communication/src/main/java/com/example/communication/room/dao/PhoneDao.kt:12-13 | Upserting a contact's rows with id 0, without deleting first, grows its stored rows by all of them. |
| Store.DescendingPreorder | communication/src/main/java/com/example/communication/room/dao/PhoneDao.kt:21-22 | `ORDER BY contactId DESC` is a total preorder. |
| Store.FirstPage | communication/src/main/java/com/example/communication/room/dao/PhoneDao.kt:21-22 | `ORDER BY … DESC LIMIT n` returns `n` rows, or all of them when the table is shorter. |
| Store.Below | communication/src/main/java/com/example/communication/room/dao/PhoneDao.kt:24-25 | `WHERE contactId < ?` returns only rows below the bound. |
| Store.AtLeast | communication/src/main/java/com/example/communication/room/dao/PhoneDao.kt:24-25 | The complement of the `<` query holds only rows at or above the bound. |
| Store.BelowOwned | communication/src/main/java/com/example/communication/room/dao/PhoneDao.kt:24-25 | A contact whose id is below the bound keeps all of its rows in the `<` query. |
| Store.AtLeastOwned | communication/src/main/java/com/example/communication/room/dao/PhoneDao.kt:24-25 | A contact whose id is at or above the bound has all of its rows outside the `<` query. |
| Store.SortedBelow | communication/src/main/java/com/example/communication/room/dao/PhoneDao.kt:21-25 | In a list sorted by descending unique keys, the rows below the key at position `m - 1` are exactly the rows after that position. |
| Store.SortedDescending | communication/src/main/java/com/example/communication/room/dao/PhoneDao.kt:21-22 | The descending sort of a table with unique keys is sorted and keeps the keys unique. |
| Store.PageThenBelow | communication/src/main/java/com/example/communication/room/dao/PhoneDao.kt:21-25 | With unique keys, the descending first page together with the rows below its last key are all the table's rows, each once. |
| Store.FirstPageAbove | communication/src/main/java/com/example/communication/room/dao/PhoneDao.kt:21-22 | Every row of the descending first page has a key at least that of the page's last row. |
| Rows.GetStringValue | communication/src/main/java/com/example/communication/utils/ExtendUtils.kt:7-14 | A missing, null or unreadable column yields the default; a text cell yields its text; a numeric cell yields text that reads back as the number. |
| Rows.GetLongValue | communication/src/main/java/com/example/communication/utils/ExtendUtils.kt:25-32 | A missing, null or unreadable column yields 0; a numeric cell yields its number. |
| Rows.GetIntValue | communication/src/main/java/com/example/communication/utils/ExtendUtils.kt:16-23 | The result is a 32-bit `Int`; a missing, null or unreadable column yields 0; a value that fits in an `Int` is read unchanged. |
| Rows.LongAgreesWithString | communication/src/main/java/com/example/communication/utils/ExtendUtils.kt:7-32 | The number read from a cell is the number its text denotes. |
| Text.TextToIntOfDecimal | communication/src/main/java/com/example/communication/calllog/CallLogQuery.kt:55-60 | The decimal text `timestamp.toString()` passed as a selection argument is read back by SQLite as the same number. |
| Text.DecimalInjective | communication/src/main/java/com/example/communication/calllog/CallLogQuery.kt:55-60 | Different timestamps give different selection arguments. |
| Int32.MulAdd31 | communication/src/main/java/com/example/communication/calllog/CallLogQueryParams.kt:28-34 | `31 * h + x` in Kotlin `Int` arithmetic is a 32-bit value congruent to the unbounded result modulo 2^32. |
| Int32.Wrap | communication/src/main/java/com/example/communication/calllog/CallLogQueryParams.kt:28-34 | Wrap-around yields a 32-bit value congruent to its input, and leaves a 32-bit value as it is. |
| CallLogQueries.Create | communication/src/main/java/com/example/communication/calllog/CallLogQueryFactory.kt:4-18 | `DEFAULT` and `INIT` build the default query and `ALL_IDS` the id census; `BY_PHONE` needs a `String` and `AFTER_TIME` a `Long`, and each otherwise fails with the `require` message. |
| CallLogQueries.CreateFails | communication/src/main/java/com/example/communication/calllog/CallLogQueryFactory.kt:4-18 | `create` fails exactly for a phone query without a `String` or a time query without a `Long`. |
| CallLogQueries.QueryParamsShape | communication/src/main/java/com/example/communication/calllog/CallLogQuery.kt:23-60 | Every query sorts by `date DESC`; only the id census projects `_id` alone and the others read the seven base columns; only the phone and time queries select, each with one argument, and the time argument reads back as the timestamp. |
| CallLogQueries.Equals | communication/src/main/java/com/example/communication/calllog/CallLogQueryParams.kt:11-26 | `equals` with its early returns is true exactly when the other object is a parameter value equal field by field, arrays by content. |
| CallLogQueries.StringHash | communication/src/main/java/com/example/communication/calllog/CallLogQueryParams.kt:28-34 | `String.hashCode` is a 32-bit `Int`. |
| CallLogQueries.ContentHash | communication/src/main/java/com/example/communication/calllog/CallLogQueryParams.kt:28-34 | `contentHashCode` is a 32-bit `Int`. |
| CallLogQueries.Hash | communication/src/main/java/com/example/communication/calllog/CallLogQueryParams.kt:28-34 | The combined hash is a 32-bit `Int`. |
| CallLogQueries.HashCode | communication/src/main/java/com/example/communication/calllog/CallLogQueryParams.kt:28-34 | `hashCode` accumulates the four field hashes into the combined hash, a 32-bit `Int`. |
| CallLogQueries.NullArgsNotEmptyArgs | communication/src/main/java/com/example/communication/calllog/CallLogQueryParams.kt:14-17 | A null argument array and an empty one make different parameters. |
| Reconcile.AssociateBy | communication/src/main/java/com/example/communication/contact/ContactManager.kt:160 | `associateBy` maps each id to an element of the list carrying that id. |
| Reconcile.AssociateByKeys | communication/src/main/java/com/example/communication/contact/ContactManager.kt:160 | The map has an id exactly when the list does. |
| Reconcile.AssociateByLast | communication/src/main/java/com/example/communication/calllog/CallLogManager.kt:140 | The element kept for an id is the last one carrying it. |
| Reconcile.AssociateByDistinct | communication/src/main/java/com/example/communication/contact/ContactManager.kt:160 | With distinct ids, each id maps to the one element carrying it. |
| Reconcile.AssociateByConcat | communication/src/main/java/com/example/communication/contact/ContactManager.kt:160 | `associateBy` of a concatenation is the union of the two maps, the later list winning. |
| Reconcile.Replace | communication/src/main/java/com/example/communication/contact/ContactManager.kt:173-176 | `indexOf` followed by `list[index] = new` keeps the list's length. |
| Reconcile.UpdateOne | communication/src/main/java/com/example/communication/contact/ContactManager.kt:171-178 | One update through the snapshot's map keeps the list's length. |
| Reconcile.ApplyUpdates | communication/src/main/java/com/example/communication/contact/ContactManager.kt:171-178 | The loop of updates keeps the list's length. |
| Reconcile.StaleIds | communication/src/main/java/com/example/communication/contact/ContactManager.kt:183-185 | Every id marked for deletion is absent from the census. |
| Reconcile.StaleIdsMembers | communication/src/main/java/com/example/communication/contact/ContactManager.kt:183-185 | An id is marked for deletion exactly when some element has it and the census lacks it. |
| Reconcile.StaleIdsPermutation | communication/src/main/java/com/example/communication/calllog/CallLogManager.kt:163-169 | The ids marked for deletion depend only on which elements the list holds, not on their order. |
| Reconcile.RemoveNoIds | communication/src/main/java/com/example/communication/contact/ContactManager.kt:187-190 | With no stale ids nothing is removed, as when the `if` is skipped. |
| Reconcile.RemoveStaleIds | communication/src/main/java/com/example/communication/contact/ContactManager.kt:183-190 | Removing the stale ids keeps exactly the elements whose id the census holds, in order (tombstone by absence). |
| Reconcile.Refreshed | communication/src/main/java/com/example/communication/contact/ContactManager.kt:171-178 | The reference for updates keeps the snapshot's length and, position by position, its ids. |
| Reconcile.RefreshedByUpdates | communication/src/main/java/com/example/communication/contact/ContactManager.kt:163-165 | The `partition`'s update half carries the same replacement for every snapshot id as the whole delta does. |
| Reconcile.RefreshedSnoc | communication/src/main/java/com/example/communication/contact/ContactManager.kt:171-178 | One more update with an id not updated before changes the reference at exactly that id's position. |
| Reconcile.UpdateStep | communication/src/main/java/com/example/communication/contact/ContactManager.kt:172-176 | An update of an id the snapshot holds replaces, where it stands, the element with that id in a list that holds the snapshot between new-id elements. |
| Reconcile.ApplyUpdatesRefreshes | communication/src/main/java/com/example/communication/contact/ContactManager.kt:171-178 | Applying the updates one by one to the snapshot placed between new-id lists replaces each snapshot element by its update in place and changes nothing else. |
| Reconcile.UpdatesAround | communication/src/main/java/com/example/communication/calllog/CallLogManager.kt:152-159 | The updates applied around new-id lists on either side yield the refreshed snapshot between them. |
| Reconcile.MergeAppendRefreshes | communication/src/main/java/com/example/communication/contact/ContactManager.kt:159-181 | The contact merge equals the snapshot refreshed in place followed by the delta's new ids in delta order. |
| Reconcile.MergePrependRefreshes | communication/src/main/java/com/example/communication/calllog/CallLogManager.kt:139-160 | The call-log merge equals the delta's new ids in delta order followed by the snapshot refreshed in place. |
| Reconcile.DistinctKeysPermutation | communication/src/main/java/com/example/communication/contact/ContactManager.kt:343-346 | Distinct ids survive any rearrangement, the publishing sort in particular. |
| Reconcile.DistinctKeysConcat | communication/src/main/java/com/example/communication/contact/ContactManager.kt:296 | Two lists with distinct ids and no id in common concatenate to a list with distinct ids. |
| Reconcile.RefreshedAddsDistinct | communication/src/main/java/com/example/communication/contact/ContactManager.kt:163-169 | The merge reference has distinct ids: the snapshot's, then the new ones. |
| Reconcile.InReference | communication/src/main/java/com/example/communication/contact/ContactManager.kt:343-346 | An arrangement of the reference holds exactly the refreshed snapshot elements and the new ones. |
| Reconcile.PassValue | communication/src/main/java/com/example/communication/contact/ContactManager.kt:171-178 | A merged element carries the delta's value when the delta has its id, and is a snapshot element otherwise. |
| Reconcile.PassIds | communication/src/main/java/com/example/communication/contact/ContactManager.kt:163-169 | The merge reference holds exactly the snapshot's ids and the delta's ids. |
| Reconcile.PassOutcome | communication/src/main/java/com/example/communication/contact/ContactManager.kt:155-194 | After any arrangement of the merge and the census deletion, an id survives exactly when the snapshot or the delta has it and the census does; a survivor carries the delta's value when the delta has its id and is a snapshot element otherwise; ids stay distinct. |
| Reconcile.PermutationKeys | communication/src/main/java/com/example/communication/contact/ContactManager.kt:343-346 | A rearranged list has the same elements and the same ids. |
| Reconcile.AppendPassOutcome | communication/src/main/java/com/example/communication/contact/ContactManager.kt:155-194 | The contact pass: the surviving ids are exactly the snapshot's and the delta's ids that the census holds, each with the delta's value when the delta has it, distinct. |
| Reconcile.PrependPassOutcome | communication/src/main/java/com/example/communication/calllog/CallLogManager.kt:135-179 | The call-log pass: the same outcome with the new ids in front. |
| Reconcile.SplitKeys | communication/src/main/java/com/example/communication/contact/ContactManager.kt:163-178 | A list made of the refreshed snapshot and the new-id elements, in either order, holds exactly the snapshot's and the delta's ids. |
| Reconcile.MergeKeys | communication/src/main/java/com/example/communication/calllog/CallLogManager.kt:144-159 | Either merge holds exactly the ids of the snapshot and of the delta. |
| Reconcile.TombstoneWins | communication/src/main/java/com/example/communication/calllog/CallLogManager.kt:162-174 | An id the census lacks is marked for deletion even when the same pass updated or added it, whichever merge runs. |
| ContactData.Lookup | communication/src/main/java/com/example/communication/contact/processor/PhoneDataProcessor.kt:19-44 | A `when` over constant codes yields nothing exactly when no entry has the code, and otherwise an entry's label for it. |
| ContactData.LabelDecodes | communication/src/main/java/com/example/communication/contact/processor/PhoneDataProcessor.kt:19-44 | In a well-formed table the fallback word marks exactly the codes with no entry, and every other label names its code back. |
| ContactData.PhoneTableWellFormed | communication/src/main/java/com/example/communication/contact/processor/PhoneDataProcessor.kt:19-44 | The nineteen phone labels are well formed (no code or label twice, "未知" not a label), and none is for `TYPE_CUSTOM`. |
| ContactData.PhoneLabelsDistinct | communication/src/main/java/com/example/communication/contact/processor/PhoneDataProcessor.kt:20-38 | Any two phone entries have different labels. |
| ContactData.EmailTableWellFormed | communication/src/main/java/com/example/communication/contact/processor/EmailDataProcessor.kt:19-26 | The email labels are well formed with fallback "未知". |
| ContactData.PostalTableWellFormed | communication/src/main/java/com/example/communication/contact/processor/AddressDataProcessor.kt:25-37 | The postal labels are well formed with fallback "未知". |
| ContactData.ImTableWellFormed | communication/src/main/java/com/example/communication/contact/processor/IMDataProcessor.kt:19-34 | The IM labels are well formed with fallback "Unknown", and none is for `PROTOCOL_CUSTOM`. |
| ContactData.WebsiteTableWellFormed | communication/src/main/java/com/example/communication/contact/processor/WebsiteDataProcessor.kt:19-28 | The website labels are well formed with fallback "未知". |
| ContactData.PhoneLabelMeaning | communication/src/main/java/com/example/communication/contact/processor/PhoneDataProcessor.kt:19-44 | The custom code reads `LABEL` (default "自定义"); any other code depends only on the code, gives "未知" exactly when unmapped, and otherwise a label that names the code back. |
| ContactData.EmailLabelMeaning | communication/src/main/java/com/example/communication/contact/processor/EmailDataProcessor.kt:19-26 | The custom code reads `LABEL` (default "自定义"); any other code gives "未知" exactly when unmapped, and otherwise a label that names the code back. |
| ContactData.ImLabelMeaning | communication/src/main/java/com/example/communication/contact/processor/IMDataProcessor.kt:19-34 | The custom protocol reads `CUSTOM_PROTOCOL` (default "Custom"); any other protocol gives "Unknown" exactly when unmapped, else a label naming it back; a row with no protocol value reads as 0 and shows "AIM". |
| ContactData.PostalLabelMeaning | communication/src/main/java/com/example/communication/contact/processor/AddressDataProcessor.kt:25-37 | The custom code reads `LABEL` (default "自定义"); any other code gives "未知" exactly when unmapped, and otherwise a label that names the code back. |
| ContactData.WebsiteLabelMeaning | communication/src/main/java/com/example/communication/contact/processor/WebsiteDataProcessor.kt:19-28 | A website type gives "未知" exactly when it is outside 1 to 7 (`TYPE_CUSTOM` included), and otherwise a label naming it back. |
| ContactData.EventLabelMeaning | communication/src/main/java/com/example/communication/contact/processor/EventDataProcessor.kt:19-23 | A birthday shows "生日" and an anniversary "纪念日"; any other type shows `DATA3`, or "其他" when that is unreadable. |
| ContactData.FirstWithMimeTypeMeaning | communication/src/main/java/com/example/communication/contact/ContactDataProcessorFactory.kt:18-29 | The `when` branch taken is the first kind whose mimetype matches, and no branch is taken only when none matches. |
| ContactData.CreateProcessorMeaning | communication/src/main/java/com/example/communication/contact/ContactDataProcessorFactory.kt:18-29 | The factory picks a processor exactly for the nine mimetypes, and the one it picks handles that mimetype. |
| ContactData.MimeTypesDistinct | communication/src/main/java/com/example/communication/contact/ContactDataProcessorFactory.kt:19-27 | The nine mimetypes are pairwise different. |
| ContactData.CreateProcessorRoundTrip | communication/src/main/java/com/example/communication/contact/ContactDataProcessorFactory.kt:18-29 | Each processor's mimetype selects that processor again. |
| ContactData.ProcessCounts | communication/src/main/java/com/example/communication/contact/processor/PhoneDataProcessor.kt:15-47 | A list processor appends exactly one record and leaves the base row alone; the note and nickname processors rewrite one base field and add no record. |
| ContactData.ProcessKeepsLists | communication/src/main/java/com/example/communication/contact/processor/EmailDataProcessor.kt:15-29 | No processor removes or reorders an element of any child list. |
| ContactData.ProcessOwnsChildren | communication/src/main/java/com/example/communication/contact/processor/AddressDataProcessor.kt:15-40 | The record a processor adds carries the row's contact id, so a contact whose children all carry its id keeps that property. |
| ContactData.UnknownMimeTypeIgnored | communication/src/main/java/com/example/communication/contact/ContactPersonBuilder.kt:28-31 | A row whose mimetype the factory does not know leaves the contact as it was. |
| ContactData.ProcessPhone | communication/src/main/java/com/example/communication/contact/processor/PhoneDataProcessor.kt:15-47 | `process` appends the row's phone record to the builder's contact and changes nothing else. |
| ContactData.ProcessEmail | communication/src/main/java/com/example/communication/contact/processor/EmailDataProcessor.kt:15-29 | `process` appends the row's email record and changes nothing else. |
| ContactData.ProcessIm | communication/src/main/java/com/example/communication/contact/processor/IMDataProcessor.kt:15-37 | `process` appends the row's IM record and changes nothing else. |
| ContactData.ProcessAddress | communication/src/main/java/com/example/communication/contact/processor/AddressDataProcessor.kt:15-40 | `process` appends the row's postal record and changes nothing else. |
| ContactData.ProcessOrganization | communication/src/main/java/com/example/communication/contact/processor/OrganizationDataProcessor.kt:14-21 | `process` appends the row's organization record and changes nothing else. |
| ContactData.ProcessNote | communication/src/main/java/com/example/communication/contact/processor/NoteDataProcessor.kt:13-16 | `process` sets the note to the row's `NOTE` text and changes nothing else. |
| ContactData.ProcessNickname | communication/src/main/java/com/example/communication/contact/processor/NicknameDataProcessor.kt:13-16 | `process` sets the nickname to the row's `NAME` text and changes nothing else. |
| ContactData.ProcessEvent | communication/src/main/java/com/example/communication/contact/processor/EventDataProcessor.kt:15-26 | `process` appends the row's event record and changes nothing else. |
| ContactData.ProcessWebsite | communication/src/main/java/com/example/communication/contact/processor/WebsiteDataProcessor.kt:15-31 | `process` appends the row's website record and changes nothing else. |
| ContactData.WithAvatar | communication/src/main/java/com/example/communication/contact/ContactPersonBuilder.kt:33-41 | Setting the avatar keeps the contact id and every other field; the avatar becomes the photo when there is one and is unchanged otherwise. |
| ContactData.ContactPersonBuilder.constructor | communication/src/main/java/com/example/communication/contact/ContactPersonBuilder.kt:16-17 | A new builder holds a `ContactPersonEntity()` with default fields. |
| ContactData.ContactPersonBuilder.SetBaseInfo | communication/src/main/java/com/example/communication/contact/ContactPersonBuilder.kt:19-26 | The base row is replaced by one read from the cursor (id, name, update time), and the builder itself is returned. |
| ContactData.ContactPersonBuilder.ProcessData | communication/src/main/java/com/example/communication/contact/ContactPersonBuilder.kt:28-31 | The contact becomes what the factory's processor for the row's mimetype makes of it, or stays as it was. |
| ContactData.ContactPersonBuilder.SetAvatar | communication/src/main/java/com/example/communication/contact/ContactPersonBuilder.kt:33-41 | The avatar is set from the photo stored under the contact's own id, when there is one. |
| ContactData.ContactPersonBuilder.Build | communication/src/main/java/com/example/communication/contact/ContactPersonBuilder.kt:43 | `build` returns the accumulated contact. |
| ContactQuery.Step | communication/src/main/java/com/example/communication/contact/ContactQueryManager.kt:69-72 | One turn of the loop body (`getOrPut` then `processData`) keeps the gathered contacts well formed: one distinct id per listed contact, each with an entry. |
| ContactQuery.Cut | communication/src/main/java/com/example/communication/contact/ContactQueryManager.kt:59-67 | The row at which the loop stops lies between the start and the end, and a row before the end is one at which the `break` fires. |
| ContactQuery.CutSkips | communication/src/main/java/com/example/communication/contact/ContactQueryManager.kt:62-67 | The `break` does not fire at any row before the cut. |
| ContactQuery.Contacts | communication/src/main/java/com/example/communication/contact/ContactQueryManager.kt:80 | `contactsMap.values` lists one contact per gathered id, in insertion order. |
| ContactQuery.WithAvatars | communication/src/main/java/com/example/communication/contact/ContactQueryManager.kt:76-78 | The avatar pass keeps the list's length and gives each contact the photo stored under its own id. |
| ContactQuery.GatherAllSnoc | communication/src/main/java/com/example/communication/contact/ContactQueryManager.kt:59-73 | Folding one more row into the gathered contacts is one more turn of the loop body. |
| ContactQuery.ProcessRowKeeps | communication/src/main/java/com/example/communication/contact/ContactPersonBuilder.kt:28-31 | Processing a row never changes a contact's id, name, update time or avatar, and keeps its child records its own. |
| ContactQuery.GatherAllOrder | communication/src/main/java/com/example/communication/contact/ContactQueryManager.kt:54-73 | The grouping lists the distinct row ids in order of first occurrence. |
| ContactQuery.StepFromFirstRow | communication/src/main/java/com/example/communication/contact/ContactQueryManager.kt:69-72 | One more row keeps every contact's base fields taken from the first row of its id, and its child records its own. |
| ContactQuery.KnownEntryFromFirstRow | communication/src/main/java/com/example/communication/contact/ContactQueryManager.kt:69-72 | A later row of an id already gathered leaves its contact's base fields those of its first row. |
| ContactQuery.NewEntryFromFirstRow | communication/src/main/java/com/example/communication/contact/ContactQueryManager.kt:69-71 | The first row of a new id creates its contact from that row. |
| ContactQuery.OldEntryFromFirstRow | communication/src/main/java/com/example/communication/contact/ContactQueryManager.kt:69-72 | A contact that a later row leaves alone keeps its first row. |
| ContactQuery.GatherAllFromFirstRow | communication/src/main/java/com/example/communication/contact/ContactQueryManager.kt:54-73 | Every gathered contact takes its base fields from the first row of its id and owns its child records, and the ids gathered are exactly those some row carries. |
| ContactQuery.StepIds | communication/src/main/java/com/example/communication/contact/ContactQueryManager.kt:69-71 | After one more row the ids gathered are exactly those some row so far carries. |
| ContactQuery.CutBound | communication/src/main/java/com/example/communication/contact/ContactQueryManager.kt:62-67 | With `maxCount = m`, no more than `max(m, 0)` contacts are gathered before the cut. |
| ContactQuery.StepBound | communication/src/main/java/com/example/communication/contact/ContactQueryManager.kt:62-72 | A row at which the `break` does not fire keeps the count within the cap. |
| ContactQuery.QueryCapped | communication/src/main/java/com/example/communication/contact/ContactQueryManager.kt:48-81 | With `maxCount = m`, `queryContacts` returns no more than `max(m, 0)` contacts. |
| ContactQuery.QueryIdsGathered | communication/src/main/java/com/example/communication/contact/ContactQueryManager.kt:76-80 | The ids of the contacts returned are the ids gathered, in insertion order. |
| ContactQuery.QueryIdsUncapped | communication/src/main/java/com/example/communication/contact/ContactQueryManager.kt:48-81 | Without a cap, one contact per distinct row id is returned, in order of first occurrence. |
| ContactQuery.QueryDistinct | communication/src/main/java/com/example/communication/contact/ContactQueryManager.kt:48-81 | No contact id is returned twice. |
| ContactQuery.QueryIdsCapped | communication/src/main/java/com/example/communication/contact/ContactQueryManager.kt:48-81 | With `maxCount = m`, the contacts returned are those of the first `max(m, 0)` distinct row ids, in order. |
| ContactQuery.CappedOrder | communication/src/main/java/com/example/communication/contact/ContactQueryManager.kt:59-73 | The ids gathered before the cut are the first `max(m, 0)` distinct row ids. |
| ContactQuery.DistinctIdsOfPrefix | communication/src/main/java/com/example/communication/contact/ContactQueryManager.kt:59-73 | The distinct ids of the rows read before the cut begin the distinct ids of all rows. |
| ContactQuery.QueryFirstRows | communication/src/main/java/com/example/communication/contact/ContactQueryManager.kt:48-81 | Each contact returned takes its name and update time from the first row of its id and owns all of its child records. |
| ContactQuery.QueryEntry | communication/src/main/java/com/example/communication/contact/ContactQueryManager.kt:76-80 | Entry `k` of the result is the `k`-th contact gathered, with its avatar set. |
| ContactQuery.GatheredEntry | communication/src/main/java/com/example/communication/contact/ContactQueryManager.kt:69-72 | A gathered contact has the base fields of the first row of its id and owns its child records. |
| ContactQuery.QueryContactsWithBuilders | communication/src/main/java/com/example/communication/contact/ContactQueryManager.kt:48-81 | `queryContacts` over builders returns the specified result for the rows the cursor delivers. |
| ContactQuery.GatherBuilders | communication/src/main/java/com/example/communication/contact/ContactQueryManager.kt:54-74 | The cursor loop leaves one fresh, distinct builder per id gathered from the rows before the cut, each holding that id's contact. |
| ContactQuery.LoopBreaks | communication/src/main/java/com/example/communication/contact/ContactQueryManager.kt:62-67 | When the `break` fires the loop stands at the cut. |
| ContactQuery.LoopGoesOn | communication/src/main/java/com/example/communication/contact/ContactQueryManager.kt:62-72 | When it does not fire the row lies before the cut and is folded in by one turn of the loop body. |
| ContactQuery.CutStep | communication/src/main/java/com/example/communication/contact/ContactQueryManager.kt:62-67 | A row at which the `break` does not fire lies before the cut. |
| ContactQuery.CutAt | communication/src/main/java/com/example/communication/contact/ContactQueryManager.kt:62-67 | The first row at which the `break` fires is the cut. |
| ContactQuery.BuildAll | communication/src/main/java/com/example/communication/contact/ContactQueryManager.kt:76-80 | The avatar pass over the builders followed by `build()` returns the gathered contacts with their avatars, in insertion order. |
| ContactQuery.BuildEach | communication/src/main/java/com/example/communication/contact/ContactQueryManager.kt:80 | `values.map { it.build() }` returns each builder's contact in insertion order. |
| ContactQuery.GatherAllSize | communication/src/main/java/com/example/communication/contact/ContactQueryManager.kt:62 | `contactsMap.size` is the number of ids gathered. |
| ContactQuery.QueryContactsInline | communication/src/main/java/com/example/communication/contact/ContactUtil.kt:116-371 | `ContactUtil.queryContacts`, with the processors inlined, returns the same result as `ContactQueryManager.queryContacts` for the same rows, with its `ContactUtilHelper` getters taken to be the `ExtendUtils` ones, an assumption listed below. |
| ContactQuery.ValuesInOrder | communication/src/main/java/com/example/communication/contact/ContactUtil.kt:369 | `addAll(contactsMap.values)` lists the contacts in insertion order. |
| ContactQuery.GatherValues | communication/src/main/java/com/example/communication/contact/ContactUtil.kt:166-355 | The cursor loop over plain contact values gathers exactly the contacts of the rows before the cut. |
| ContactQuery.AvatarPass | communication/src/main/java/com/example/communication/contact/ContactUtil.kt:358-366 | The avatar pass over the map sets each contact's avatar from the photo stored under its id. |
| ContactQuery.SetAvatars | communication/src/main/java/com/example/communication/contact/ContactQueryManager.kt:76-78 | `setAvatar` on each builder gives each contact the photo stored under its own id. |
| ContactQuery.GetOrPutAndProcess | communication/src/main/java/com/example/communication/contact/ContactQueryManager.kt:69-72 | `getOrPut` then `processData` leaves the builders holding one more step of the gathering; an id seen before keeps its builder and a new id gets a fresh one. |
| ContactQuery.Turn | communication/src/main/java/com/example/communication/contact/ContactQueryManager.kt:59-73 | One pass of the cursor loop at a row before the cut extends the builders to the gathering of one more row. |
| ContactLookup.QueryAllContactIds | communication/src/main/java/com/example/communication/contact/ContactQueryManager.kt:83-97 | The id census has one entry per cursor row: the row's `_ID`, in order. |
| ContactLookup.RowsWithNumber | communication/src/main/java/com/example/communication/contact/ContactQueryManager.kt:99-105 | The rows selected by `number = ?` all carry that number. |
| ContactLookup.ContactIdByPhoneFirst | communication/src/main/java/com/example/communication/contact/ContactQueryManager.kt:99-109 | The first phone row with the number gives the contact id. |
| ContactLookup.ContactIdByPhoneAbsent | communication/src/main/java/com/example/communication/contact/ContactQueryManager.kt:99-109 | With no row carrying the number, or no cursor, the id is 0. |
| ContactLookup.ContactIdsWithPhoneNumbers | communication/src/main/java/com/example/communication/contact/ContactQueryManager.kt:115-142 | The map filled row by row is the number-to-id map the rows describe. |
| ContactLookup.PhoneIdsKeys | communication/src/main/java/com/example/communication/contact/ContactQueryManager.kt:133-139 | The map's keys are exactly the non-empty numbers of the rows. |
| ContactLookup.PhoneIdsLastWins | communication/src/main/java/com/example/communication/contact/ContactQueryManager.kt:133-139 | A number maps to the contact id of the last row carrying it. |
| ContactLookup.UpdatedContactsQuery | communication/src/main/java/com/example/communication/contact/ContactUtil.kt:99-110 | The updated-contacts query has one selection argument, which reads back as `lastUpdateTime`, and no cap. |
| ContactLookup.UpdatedRowsSelect | communication/src/main/java/com/example/communication/contact/ContactUtil.kt:99-110 | `LAST_UPDATED > ?` keeps exactly the rows updated strictly after the time. |
| ContactLookup.UpdatedContactsNewer | communication/src/main/java/com/example/communication/contact/ContactUtil.kt:99-110 | Every contact `queryUpdatedContacts` returns was updated strictly after `lastUpdateTime`. |
| ContactStore.BuildContactPersonList | communication/src/main/java/com/example/communication/contact/ContactManager.kt:307-330 | `buildContactPersonList` returns one contact per base row, in base-row order, each with that base row. |
| ContactStore.BuildAttachesOwnRows | communication/src/main/java/com/example/communication/contact/ContactManager.kt:317-329 | Each contact gets exactly the child rows whose contactId is its own, in table order, for each of the seven child kinds. |
| ContactStore.FindAllContactsStored | communication/src/main/java/com/example/communication/contact/ContactManager.kt:307-330 | The join of every table's `findAll` gives each base row its stored contact, in table order. |
| ContactStore.SavePersonAddsRows | communication/src/main/java/com/example/communication/contact/ContactManager.kt:200-214 | As written, upserting a freshly queried contact adds all of its child rows beside those already stored for it; none is replaced. |
| ContactStore.SavePersonDuplicatesPhone | communication/src/main/java/com/example/communication/contact/ContactManager.kt:200-214 | A store holding contact 5 with phone "100", upserted again with the same contact, holds two phone rows for it, and the join shows both. |
| ContactStore.ReplacePersonStored | communication/src/main/java/com/example/communication/contact/ContactManager.kt:200-214 | The corrected upsert stores the contact's base row, and exactly its child rows in order, up to the ids the store hands out. |
| ContactStore.ReplacePersonKeepsOthers | communication/src/main/java/com/example/communication/contact/ContactManager.kt:200-214 | The corrected upsert of one contact leaves every other contact as stored. |
| ContactStore.ReplacePersonsSnoc | communication/src/main/java/com/example/communication/contact/ContactManager.kt:204-213 | Upserting a list is upserting its front and then its last contact. |
| ContactStore.ReplacePersonsStored | communication/src/main/java/com/example/communication/contact/ContactManager.kt:200-214 | After the corrected upsert of a list of fresh contacts, each id of the list is stored as the last contact with that id, and every other contact is as it was. |
| ContactStore.SavePersonValid | communication/src/main/java/com/example/communication/contact/ContactManager.kt:200-214 | The upsert as written keeps `base_info` keyed by contactId. |
| ContactStore.ReplacePersonsValid | communication/src/main/java/com/example/communication/contact/ContactManager.kt:200-214 | The corrected upsert keeps `base_info` keyed by contactId. |
| ContactStore.DeleteContactsEffect | communication/src/main/java/com/example/communication/contact/ContactManager.kt:216-228 | After `deleteContactPersonByContactIds` a listed contact has no base row and no child rows; any other contact is as it was. |
| ContactStore.DeleteContactsValid | communication/src/main/java/com/example/communication/contact/ContactManager.kt:216-228 | The delete keeps `base_info` keyed by contactId. |
| ContactStore.LoadAllAsWrittenLosesPhone | communication/src/main/java/com/example/communication/contact/ContactManager.kt:246-301 | As written, with a page of one, contact 5 with two stored phones is published with one: the first child page holds one phone row and the rest holds nothing of contact 5. |
| ContactStore.BuildBases | communication/src/main/java/com/example/communication/contact/ContactManager.kt:317-329 | The base rows of a join are the base rows it was given, in order. |
| ContactStore.RestStored | communication/src/main/java/com/example/communication/contact/ContactManager.kt:268-294 | A contact below the page's last id, read by the `<` queries, gets all of its stored child rows. |
| ContactStore.PageStored | communication/src/main/java/com/example/communication/contact/ContactManager.kt:249-263 | Once the page's child reads are bounded by contactId, a contact of the first page gets all of its stored child rows. |
| ContactStore.LoadAllKeys | communication/src/main/java/com/example/communication/contact/ContactManager.kt:246-297 | The rest followed by the first page holds every stored base row once. |
| ContactStore.EachStored | communication/src/main/java/com/example/communication/contact/ContactManager.kt:246-297 | Every contact of the rest and of the corrected first page is joined with all of its stored rows. |
| ContactStore.StoredConcat | communication/src/main/java/com/example/communication/contact/ContactManager.kt:296 | Concatenating two lists of stored contacts gives a list of stored contacts. |
| ContactStore.LoadAllComplete | communication/src/main/java/com/example/communication/contact/ContactManager.kt:246-301 | The corrected load fails exactly when the page is empty (`contacts.last()` throws); otherwise the rest followed by the page holds every stored contact once, each with all of its child rows. |
| ContactSync.ByDisplayNamePreorder | communication/src/main/java/com/example/communication/contact/ContactManager.kt:335-337 | The display-name order `nameSort` sorts by is total and transitive, so sorting by it is well defined. |
| ContactSync.MaxContactId | communication/src/main/java/com/example/communication/contact/ContactManager.kt:114 | `maxOf { contactId }` of a non-empty snapshot is the id of one of its contacts and at least every other. |
| ContactSync.RowsAfterId | communication/src/main/java/com/example/communication/contact/ContactManager.kt:115-118 | The selection `CONTACT_ID > ?` delivers only rows whose contact id is above the bound. |
| ContactSync.RemainingAreNew | communication/src/main/java/com/example/communication/contact/ContactManager.kt:107-125 | Every contact `loadRemainingContacts` appends has an id above every id of the snapshot, so none duplicates a snapshot contact. |
| ContactSync.PassRemovesStale | communication/src/main/java/com/example/communication/contact/ContactManager.kt:186-192 | Removing the ids the census lacks from the merged list leaves exactly the merged contacts whose ids the census holds. |
| ContactSync.ContactTombstoneWins | communication/src/main/java/com/example/communication/contact/ContactManager.kt:155-197 | A contact whose id the census lacks is among the ids a pass deletes, even when the delta brings it. |
| ContactSync.PublishSorted | communication/src/main/java/com/example/communication/contact/ContactManager.kt:343-346 | `updateData` publishes a display-name-sorted permutation of the list it was given, and logs that publication. |
| ContactSync.AfterMergeStore | communication/src/main/java/com/example/communication/contact/ContactManager.kt:155-197 | After a merge pass a deleted id has no base row, a surviving delta contact is stored as the delta has it, every other contact is stored as before, and the cursor holds the clock reading. |
| ContactSync.PassSnapshot | communication/src/main/java/com/example/communication/contact/ContactManager.kt:155-197 | After sorting, the merged list holds id k exactly when the snapshot or the delta holds k and the census holds k; a delta contact replaces the old one, and every other contact comes from the snapshot. |
| ContactSync.TimestampPassSnapshot | communication/src/main/java/com/example/communication/contact/ContactManager.kt:91-102 | A timestamp pass publishes the sorted merge of the contacts updated after the cursor, whose ids are distinct, and advances the cursor. |
| ContactSync.LoadAllPublishesAll | communication/src/main/java/com/example/communication/contact/ContactManager.kt:246-301 | Loading from the store publishes a display-name-sorted permutation of the contacts below the page followed by the page, each one as stored. |
| ContactSync.ContactManager.constructor | communication/src/main/java/com/example/communication/contact/ContactManager.kt:37-43 | A new manager publishes nothing, holds the given tables and cursor, and keeps the initial load size. |
| ContactSync.ContactManager.UpdateData | communication/src/main/java/com/example/communication/contact/ContactManager.kt:343-346 | `updateData` leaves the state `Publish` describes: the sorted list published and logged, everything else unchanged. |
| ContactSync.ContactManager.GetData | communication/src/main/java/com/example/communication/contact/ContactManager.kt:348 | `getData` returns the published snapshot. |
| ContactSync.ContactManager.UpsertContactPersonRoom | communication/src/main/java/com/example/communication/contact/ContactManager.kt:200-214 | `upsertContactPersonRoom` writes every contact of the list into the tables (`Upsert`), and nothing else changes. |
| ContactSync.ContactManager.DeleteContactPersonByContactIds | communication/src/main/java/com/example/communication/contact/ContactManager.kt:216-228 | `deleteContactPersonByContactIds` deletes the ids from every table (`DeleteIds`), and nothing else changes. |
| ContactSync.ContactManager.DeleteContactPersonByContactId | communication/src/main/java/com/example/communication/contact/ContactManager.kt:230-240 | Deleting one id is the list delete of that one id. |
| ContactSync.ContactManager.UpdateContactTime | communication/src/main/java/com/example/communication/contact/ContactManager.kt:81 | `updateContactTime` stores the clock reading as the cursor, and nothing else changes. |
| ContactSync.ContactManager.MergeAndUpdateContacts | communication/src/main/java/com/example/communication/contact/ContactManager.kt:155-197 | `mergeAndUpdateContacts` returns the merge pass of the snapshot, the delta and the census, and leaves the tables and cursor as `AfterMerge` says. |
| ContactSync.ContactManager.UpdateContactPersonListByTimestamp | communication/src/main/java/com/example/communication/contact/ContactManager.kt:91-102 | `updateContactPersonListByTimestamp` leaves the state `TimestampPass` describes. |
| ContactSync.ContactManager.LoadRemainingContacts | communication/src/main/java/com/example/communication/contact/ContactManager.kt:107-125 | `loadRemainingContacts` republishes an empty snapshot as it is; otherwise it upserts and appends any contacts above the largest id and publishes them with the snapshot (`AfterRemaining`). |
| ContactSync.ContactManager.StoreInitialContacts | communication/src/main/java/com/example/communication/contact/ContactManager.kt:76-85 | `storeInitialContacts` publishes and upserts the first `INITIAL_LOAD_SIZE` contacts, advances the cursor, then loads the remaining ones (`AfterStoreInitial`). |
| ContactSync.ContactManager.LoadAllContactPersonFromRoom | communication/src/main/java/com/example/communication/contact/ContactManager.kt:246-301 | Loading from the store fails exactly when the first page is empty; otherwise it leaves the state `AfterLoadAll` describes. |
| ContactServiceSync.FilterSorted | communication/src/main/java/com/example/communication/service/ContactService.kt:117-125 | Removing contacts from a sorted list keeps it sorted. |
| ContactServiceSync.InCensusPermutation | communication/src/main/java/com/example/communication/service/ContactService.kt:117-125 | Keeping the census's contacts from two arrangements of the same contacts gives two arrangements of the same contacts. |
| ContactServiceSync.ServiceMergedPermutes | communication/src/main/java/com/example/communication/service/ContactService.kt:80-134 | The service's merge holds the same contacts as the manager's, only in another order. |
| ContactServiceSync.ServiceMergeOutcome | communication/src/main/java/com/example/communication/service/ContactService.kt:80-134 | An id survives the service's merge exactly when the snapshot or the delta has it and the census does; a delta contact replaces the old one, and every other survivor comes from the snapshot. |
| ContactServiceSync.InCensusSorted | communication/src/main/java/com/example/communication/service/ContactService.kt:117-125 | Keeping the census's contacts of a sorted list leaves them sorted. |
| ContactServiceSync.ServiceMergeSorted | communication/src/main/java/com/example/communication/service/ContactService.kt:88-113 | After a non-empty delta the published list is sorted by the collator. |
| ContactServiceSync.ServiceEmptyDeltaKeepsOrder | communication/src/main/java/com/example/communication/service/ContactService.kt:88-125 | After an empty delta nothing is re-sorted: only the stale ids are removed, and a census holding every id leaves the snapshot as it was. |
| ContactServiceSync.InCensusAll | communication/src/main/java/com/example/communication/service/ContactService.kt:117-125 | When the census holds every id, no contact is dropped. |
| ContactServiceSync.ServiceTombstoneWins | communication/src/main/java/com/example/communication/service/ContactService.kt:80-125 | A contact whose id the census lacks is deleted in the same pass, even when the delta brings it. |
| ContactServiceSync.ServicePassStore | communication/src/main/java/com/example/communication/service/ContactService.kt:80-134 | After a service pass a deleted id has no base row, a surviving delta contact is stored as the delta has it, every other contact is stored as before, and the cursor holds the clock reading. |
| ContactServiceSync.StoreInitialShown | communication/src/main/java/com/example/communication/service/ContactService.kt:29-37 | `storeInitialContacts` publishes at most `FIRST_COUNT` contacts, sorted by the collator: exactly those it queried and upserted. It advances the cursor. |
| ContactServiceSync.RemainingShown | communication/src/main/java/com/example/communication/service/ContactService.kt:42-64 | `loadRemainingContacts` leaves an empty snapshot alone; otherwise it publishes the snapshot's contacts and the contacts above its largest id. |
| ContactServiceSync.LoadAllShown | communication/src/main/java/com/example/communication/service/ContactService.kt:186-214 | `loadAllContactPersonFromRoom` publishes every stored contact once, each with exactly its own child rows. |
| ContactServiceSync.ContactService.constructor | communication/src/main/java/com/example/communication/service/ContactService.kt:21-24 | The service starts with nothing published, the given tables and cursor, and `FIRST_COUNT`. |
| ContactServiceSync.ContactService.Publish | communication/src/main/java/com/example/communication/service/ContactService.kt:34 | Assigning `_currentContacts.value` publishes the list as it stands, without sorting it. |
| ContactServiceSync.ContactService.UpsertContactPersonRoom | communication/src/main/java/com/example/communication/service/ContactService.kt:145-158 | `upsertContactPersonRoom` writes every contact of the list into the tables, and nothing else changes. |
| ContactServiceSync.ContactService.DeleteContactPersonByContactIds | communication/src/main/java/com/example/communication/service/ContactService.kt:160-171 | `deleteContactPersonByContactIds` deletes the ids from every table, and nothing else changes. |
| ContactServiceSync.ContactService.DeleteContactPersonByContactId | communication/src/main/java/com/example/communication/service/ContactService.kt:173-184 | Deleting one id is the list delete of that one id. |
| ContactServiceSync.ContactService.UpdateContactTime | communication/src/main/java/com/example/communication/service/ContactService.kt:33 | `updateContactTime` stores the clock reading as the cursor, and nothing else changes. |
| ContactServiceSync.ContactService.StoreInitialContacts | communication/src/main/java/com/example/communication/service/ContactService.kt:29-37 | `storeInitialContacts` returns the published list and leaves the state `ServiceStoreInitial` describes. |
| ContactServiceSync.ContactService.LoadRemainingContacts | communication/src/main/java/com/example/communication/service/ContactService.kt:42-64 | `loadRemainingContacts` returns the published list and leaves the state `ServiceRemaining` describes. |
| ContactServiceSync.ContactService.MergeAndUpdateContacts | communication/src/main/java/com/example/communication/service/ContactService.kt:80-134 | `mergeAndUpdateContacts` returns the published list and leaves the state `ServicePass` describes. |
| ContactServiceSync.ContactService.UpdateContactPersonListByTimestamp | communication/src/main/java/com/example/communication/service/ContactService.kt:137-143 | `updateContactPersonListByTimestamp` returns the published list after the pass over the contacts updated after the cursor. |
| ContactServiceSync.ContactService.LoadAllContactPersonFromRoom | communication/src/main/java/com/example/communication/service/ContactService.kt:186-214 | `loadAllContactPersonFromRoom` returns the published list: the full join of the tables, sorted by name. |
| AppCallLogUtil.Decode | app/src/main/java/com/dullfan/nexuslink/utils/core/CallUtil.kt:136-164 | A row whose number parses becomes a record with no id, its number, name, date, duration and type, the date's day and clock texts, the carrier's short name or "" and the region or "未知归属地". |
| AppCallLogUtil.DecodeAll | app/src/main/java/com/dullfan/nexuslink/utils/core/CallUtil.kt:135-166 | Decoding a cursor gives one record per row, in cursor order. |
| AppCallLogUtil.WithNumber | app/src/main/java/com/dullfan/nexuslink/utils/core/CallUtil.kt:168-174 | The records filed under a number all carry that number. |
| AppCallLogUtil.FileGroups | app/src/main/java/com/dullfan/nexuslink/utils/core/CallUtil.kt:166-174 | Filing one more record under its number keeps the map a grouping of the longer list: keys in first-occurrence order, each key's records in list order. |
| AppCallLogUtil.FileKeys | app/src/main/java/com/dullfan/nexuslink/utils/core/CallUtil.kt:168-174 | Filing a record keeps the linked map well formed, with the distinct numbers of the longer list as its keys, in first-occurrence order. |
| AppCallLogUtil.FileEntries | app/src/main/java/com/dullfan/nexuslink/utils/core/CallUtil.kt:168-174 | After filing, each key maps to exactly the records of the longer list with that number, in list order. |
| AppCallLogUtil.NoneWithNumber | app/src/main/java/com/dullfan/nexuslink/utils/core/CallUtil.kt:171-173 | A number no record carries has no records, so a new key starts a new list. |
| AppCallLogUtil.QueryData | app/src/main/java/com/dullfan/nexuslink/utils/core/CallUtil.kt:123-178 | `queryData` throws exactly when one of the first twenty rows has a number `PhoneNumberUtil.parse` rejects; otherwise it delivers the first twenty decoded rows, in cursor order, and a linked map grouping exactly those records by number. |
| AppCallLogUtil.Turn | app/src/main/java/com/dullfan/nexuslink/utils/core/CallUtil.kt:136-174 | One turn decodes the row, throwing exactly when its number does not parse (`getCarrier` parses it first), and otherwise extends the list by the row's record and keeps the map a grouping of it. |
| AppCallLogUtil.StopsAt | app/src/main/java/com/dullfan/nexuslink/utils/core/CallUtil.kt:135-160 | A row among the first twenty whose number does not parse makes the read throw. |
| AppCallLogUtil.RanOut | app/src/main/java/com/dullfan/nexuslink/utils/core/CallUtil.kt:135 | When the loop stops at the end of the cursor or at twenty rows, it has decoded exactly the first twenty rows. |
| AppCallLogUtil.DecodeAllSnoc | app/src/main/java/com/dullfan/nexuslink/utils/core/CallUtil.kt:166 | Decoding one more row appends its record to the records decoded so far. |
| AppCallLogUtil.After | app/src/main/java/com/dullfan/nexuslink/utils/core/CallUtil.kt:89-92 | The selection `date > ?` keeps exactly the rows dated strictly after the timestamp. |
| AppCallLogUtil.QueryCallLog | app/src/main/java/com/dullfan/nexuslink/utils/core/CallUtil.kt:58-74 | Without a cursor `queryCallLog` returns and never calls back; with one it throws exactly when `queryData` throws, and otherwise calls back with `queryData`'s list and map of that cursor. |
| AppCallLogUtil.QueryCallLogAfterTimestamp | app/src/main/java/com/dullfan/nexuslink/utils/core/CallUtil.kt:80-100 | Without a cursor it returns and never calls back; with one it throws exactly when one of the first twenty rows dated after the timestamp has a number that does not parse, and otherwise calls back with `queryData`'s list and map of those rows. |
| AppCallLogUtil.AfterTimestampBounds | app/src/main/java/com/dullfan/nexuslink/utils/core/CallUtil.kt:89-99 | Every delivered record is dated strictly after the timestamp, and at most twenty are delivered. |
| AppCallLogUtil.FewRowsAllRead | app/src/main/java/com/dullfan/nexuslink/utils/core/CallUtil.kt:134-135 | With at most twenty rows, every row is delivered, in order. |
| AppCallLogUtil.SumSizesEmpty | app/src/main/java/com/dullfan/nexuslink/utils/core/CallUtil.kt:63 | An empty list files no records under any key. |
| AppCallLogUtil.SumSizesSnoc | app/src/main/java/com/dullfan/nexuslink/utils/core/CallUtil.kt:166-174 | One more record adds one to the count for each time its number is listed among the keys. |
| AppCallLogUtil.OccurrencesOfDistinct | app/src/main/java/com/dullfan/nexuslink/utils/core/CallUtil.kt:168-173 | In a list of distinct keys, a key occurs once if it is listed and otherwise not at all. |
| AppCallLogUtil.GroupSizes | app/src/main/java/com/dullfan/nexuslink/utils/core/CallUtil.kt:166-174 | With distinct keys covering every number, the sizes of the keys' lists add up to the number of records. |
| AppCallLogUtil.GroupedOnce | app/src/main/java/com/dullfan/nexuslink/utils/core/CallUtil.kt:166-174 | Each delivered record lies in the map exactly once: the sizes of the map's lists add up to the list's length. |
| CallText.Quot | app/src/main/java/com/dullfan/nexuslink/utils/core/CallUtil.kt:184-185 | Kotlin's `/` on `Long` for a positive divisor: Dafny's quotient for a non-negative dividend, truncated toward zero for a negative one. |
| CallText.Rem | app/src/main/java/com/dullfan/nexuslink/utils/core/CallUtil.kt:183 | Kotlin's `%` on `Long` for a positive divisor: `a == b * (a / b) + r`, with `r` in `[0, b)` for a non-negative `a` and in `(-b, 0]` for a negative one. |
| CallText.FormatDuration | app/src/main/java/com/dullfan/nexuslink/utils/core/CallUtil.kt:182-195 | The buffer `formatDuration` builds is the rendering of its segments (`DurationText`). The copies at communication/src/main/java/com/example/communication/calllog/CallLogHelper.kt:22-35 and communication/src/main/java/com/example/communication/calllog/CallLogUtil.kt:43-56 are the same code. |
| CallText.RenderSnoc | app/src/main/java/com/dullfan/nexuslink/utils/core/CallUtil.kt:186-194 | Appending one more segment appends its number and its unit to the text. |
| CallText.PiecesDenote | app/src/main/java/com/dullfan/nexuslink/utils/core/CallUtil.kt:182-195 | For zero or more seconds, the segments give the duration back, in order: hours when at least an hour, minutes when at least a minute, then the seconds below a minute. |
| CallText.UnderAMinute | app/src/main/java/com/dullfan/nexuslink/utils/core/CallUtil.kt:187-193 | Below a minute only the seconds are written: "n秒". |
| CallText.HourMinuteSecond | app/src/main/java/com/dullfan/nexuslink/utils/core/CallUtil.kt:184-191 | The minutes are not reduced modulo 60: 3661 seconds read "1小时61分1秒". |
| CallText.NegativeDuration | app/src/main/java/com/dullfan/nexuslink/utils/core/CallUtil.kt:183-193 | A negative duration writes only its negative remainder of seconds. |
| CallText.IsBlank | app/src/main/java/com/dullfan/nexuslink/utils/core/CallUtil.kt:207 | A text is blank when every character is whitespace in Kotlin's sense: the controls U+0009 to U+000D and U+001C to U+001F, and every space, line and paragraph separator. |
| CallText.CarrierLabel | app/src/main/java/com/dullfan/nexuslink/utils/core/CallUtil.kt:20-24 | The carrier map turns "China Mobile", "China Unicom" and "China Telecom" into "移动", "联通" and "电信"; any other name gives the fallback. |
| CallText.RegionLabel | app/src/main/java/com/dullfan/nexuslink/utils/core/CallUtil.kt:203-208 | A blank region description gives the fallback; any other is kept. |
| SimInfo.SubId | communication/src/main/java/com/example/communication/calllog/CallLogUtil.kt:22 | The digits of the account id, of any script Kotlin's `isDigit` accepts, read as one number give a sub id in `[0, Int.MAX_VALUE]`; no digits, or a number too large for an `Int`, give none. |
| SimInfo.AsciiDigitsValue | communication/src/main/java/com/example/communication/calllog/CallLogUtil.kt:22 | The ASCII digits are digits for `isDigit`, and `toIntOrNull` reads them with their usual values. |
| SimInfo.ArabicIndicSubId | communication/src/main/java/com/example/communication/calllog/CallLogUtil.kt:22 | Digits of other scripts count: an account id ending in the Arabic-Indic digits one and two names sub id 12. |
| SimInfo.GetSimInfo | communication/src/main/java/com/example/communication/calllog/CallLogUtil.kt:13-40 | The `for` loop with its early returns gives the label `SimLabel` chooses. |
| SimInfo.SimLabelChoice | communication/src/main/java/com/example/communication/calllog/CallLogUtil.kt:13-40 | The label is that of the first active subscription whose id is the account's sub id, exactly when there is one; otherwise, and when the account id is null, the service throws or has no list, it is "未知SIM卡". |
| SimInfo.SubIdOfDecimal | communication/src/main/java/com/example/communication/calllog/CallLogUtil.kt:22 | An account id that is the decimal text of an `Int` names that sub id. |
| SimInfo.SubIdSkipsOthers | communication/src/main/java/com/example/communication/calllog/CallLogUtil.kt:22 | Non-digit characters before the digits are skipped: the sub id is still the number the digits spell. |
| SimInfo.FilterNoneOf | communication/src/main/java/com/example/communication/calllog/CallLogUtil.kt:22 | Filtering a text with no digits leaves nothing, so it names no sub id. |
| SimInfo.FirstSlotLabel | communication/src/main/java/com/example/communication/calllog/CallLogUtil.kt:26-32 | A matching subscription without a display or carrier name, in slot 0, is labelled "SIM1". |
| CallLogProcessing.ProcessorPerType | communication/src/main/java/com/example/communication/calllog/CallLogProcessor.kt:23-33 | The factory gives each query type its own processor, every processor serves some type, and only INIT gets the batching processor. |
| CallLogProcessing.CreateCallLogEntity | communication/src/main/java/com/example/communication/calllog/CallLogProcessor.kt:36-61 | A row becomes a record with the given contact, the row's id, number, name, duration and type, the DATE column as timestamp with its day and clock texts, empty carrier and region, and the SIM label `getSimInfo` chooses for the account id. |
| CallLogProcessing.NoAccountUnknownSim | communication/src/main/java/com/example/communication/calllog/CallLogProcessor.kt:57 | A row whose account id cannot be read gets "未知SIM卡". |
| CallLogProcessing.MappedEntities | communication/src/main/java/com/example/communication/calllog/CallLogProcessor.kt:79-87 | The DEFAULT and INIT records are one per row, in cursor order, each with the contact the number map gives its number, or 0. |
| CallLogProcessing.ProcessDefault | communication/src/main/java/com/example/communication/calllog/CallLogProcessor.kt:67-92 | `DefaultCallLogProcessor.process` returns nothing for a null cursor, else the mapped records of every row. |
| CallLogProcessing.UnmappedNumber | communication/src/main/java/com/example/communication/calllog/CallLogProcessor.kt:82-84 | A number no phone row carries, or the empty number, gets contact 0. |
| CallLogProcessing.MappedNumber | communication/src/main/java/com/example/communication/calllog/CallLogProcessor.kt:82-84 | Otherwise a number gets the contact of the last phone row carrying it, as `associate` keeps the last value. |
| CallLogProcessing.ProcessInit | communication/src/main/java/com/example/communication/calllog/CallLogProcessor.kt:94-124 | `InitCallLogProcessor.process` calls back with batches of exactly `INITIAL_LOAD_SIZE` records and then with the shorter remainder, possibly empty; together, in order, they are the mapped records of every row, and the remainder is returned. |
| CallLogProcessing.BatchCount | communication/src/main/java/com/example/communication/calllog/CallLogProcessor.kt:107-121 | The batches hold `INITIAL_LOAD_SIZE` records each but the last, which holds the rest. |
| CallLogProcessing.FullBatchesLength | communication/src/main/java/com/example/communication/calllog/CallLogProcessor.kt:115-118 | Full batches hold their count times the batch size records. |
| CallLogProcessing.LookedUpEntities | communication/src/main/java/com/example/communication/calllog/CallLogProcessor.kt:137-141 | The BY_PHONE records are one per row, in cursor order, each with the contact its own number looks up. |
| CallLogProcessing.ProcessSingle | communication/src/main/java/com/example/communication/calllog/CallLogProcessor.kt:129-146 | `SingleCallLogProcessor.process` returns nothing for a null cursor, else the looked-up records of every row. |
| CallLogProcessing.ProcessIdOnly | communication/src/main/java/com/example/communication/calllog/CallLogProcessor.kt:151-178 | `IdOnlyCallLogProcessor.process` returns one record per row, carrying only the row's id, in cursor order; a null cursor gives none. |
| CallLogProcessing.UnlinkedEntities | communication/src/main/java/com/example/communication/calllog/CallLogProcessor.kt:191-193 | The AFTER_TIME records as first read: one per row, in cursor order, with contact 0. |
| CallLogProcessing.SetContactIds | communication/src/main/java/com/example/communication/calllog/CallLogProcessor.kt:205-207 | Each record's contact is set from the map, or 0, and nothing else about it changes. |
| CallLogProcessing.ProcessTimeBased | communication/src/main/java/com/example/communication/calllog/CallLogProcessor.kt:183-212 | `TimeBasedCallLogProcessor.process` returns nothing for a null cursor, else one record per row with the contact of its number: from the full map when more than `INITIAL_LOAD_SIZE` rows were read, else by looking that number up. |
| CallLogProcessing.TimeBasedBranchesAgree | communication/src/main/java/com/example/communication/calllog/CallLogProcessor.kt:196-202 | When exactly one phone row carries a non-empty number, both ways of finding its contact give that row's contact. |
| CallLogProcessing.Process | communication/src/main/java/com/example/communication/calllog/CallLogProcessor.kt:23-33 | `process` on the factory's processor for a type: only INIT calls back, a null cursor gives nothing, and each type gives its processor's records. |
| CallLogSync.PageOfTwo | communication/src/main/java/com/example/communication/calllog/CallLogManager.kt:81-82 | The page of two records lists the larger call-log id first. |
| CallLogSync.RecentOfTwo | communication/src/main/java/com/example/communication/calllog/CallLogManager.kt:197-199 | Two records sorted newest first put the later call first. |
| CallLogSync.LoadedAsWrittenRepeats | communication/src/main/java/com/example/communication/calllog/CallLogManager.kt:80-93 | As written, when the newer call has the smaller id, the rest read below the sorted page's last record repeats a record of the page: two records `a, c` load as `[a, c, a]`. |
| CallLogSync.LoadedComplete | communication/src/main/java/com/example/communication/calllog/CallLogManager.kt:80-93 | With the bound taken before the page is sorted, the load is empty exactly when the page is, and otherwise holds every stored record exactly once. |
| CallLogSync.PublishSorted | communication/src/main/java/com/example/communication/calllog/CallLogManager.kt:197-204 | `updateData` publishes a newest-first permutation of the list it was given, and logs that publication. |
| CallLogSync.CallMergedOutcome | communication/src/main/java/com/example/communication/calllog/CallLogManager.kt:135-179 | An id survives a pass exactly when the snapshot or the delta has it and the census does; a delta record replaces the old one, other survivors come from the snapshot, and ids stay distinct. |
| CallLogSync.CallMergeOrder | communication/src/main/java/com/example/communication/calllog/CallLogManager.kt:144-159 | The merge puts the new ids in front, in delta order, ahead of the snapshot with its known records refreshed in place. |
| CallLogSync.CallTombstoneWins | communication/src/main/java/com/example/communication/calllog/CallLogManager.kt:163-174 | A record whose id the census lacks is deleted in the same pass, even when the delta brings it. |
| CallLogSync.CallPassTable | communication/src/main/java/com/example/communication/calllog/CallLogManager.kt:135-179 | After a pass a deleted id finds nothing in the table, a surviving delta id finds the delta's record, and any other id finds what it found before; the cursor holds the clock reading. |
| CallLogSync.BatchesCollected | communication/src/main/java/com/example/communication/calllog/CallLogManager.kt:67-72 | `initialize`'s callback collects every batch: the snapshot holds the old records and every batch record. |
| CallLogSync.CallLogManager.constructor | communication/src/main/java/com/example/communication/calllog/CallLogManager.kt:34-38 | A new manager publishes nothing, holds the given table and cursor, and keeps the initial load size. |
| CallLogSync.CallLogManager.UpdateData | communication/src/main/java/com/example/communication/calllog/CallLogManager.kt:201-204 | `updateData` leaves the state `Publish` describes: the list sorted newest first, published and logged. |
| CallLogSync.CallLogManager.GetData | communication/src/main/java/com/example/communication/calllog/CallLogManager.kt:206 | `getData` returns the published snapshot. |
| CallLogSync.CallLogManager.UpsertCallLogs | communication/src/main/java/com/example/communication/room/dao/CallLogDao.kt:11-12 | `callLogDao().upsert` replaces the records with known ids and appends the rest, and nothing else changes. |
| CallLogSync.CallLogManager.DeleteByCallLogs | communication/src/main/java/com/example/communication/room/dao/CallLogDao.kt:26-27 | `deleteByCallLogs` removes the listed ids from the table, and nothing else changes. |
| CallLogSync.CallLogManager.UpdateCallLogTime | communication/src/main/java/com/example/communication/calllog/CallLogManager.kt:176 | `updateCallLogTime` stores the clock reading as the cursor, and nothing else changes. |
| CallLogSync.CallLogManager.UpdateCallLogsWithNewRecords | communication/src/main/java/com/example/communication/calllog/CallLogManager.kt:135-179 | `updateCallLogsWithNewRecords` returns the merged list (new ids in front, known ids replaced, ids the census lacks removed) and leaves the table and cursor as `CallPass` says. |
| CallLogSync.CallLogManager.OnCallLogsChanged | communication/src/main/java/com/example/communication/calllog/CallLogManager.kt:43-47 | The observer runs a pass over what AFTER_TIME returns for the cursor, and the collector publishes it (`ObservedPass`). |
| CallLogSync.CallLogManager.Initialize | communication/src/main/java/com/example/communication/calllog/CallLogManager.kt:67-75 | `initialize` appends and publishes each INIT batch as it arrives, then upserts the whole snapshot and advances the cursor (`AfterInitialize`). |
| CallLogSync.CallLogManager.LoadFromRoom | communication/src/main/java/com/example/communication/calllog/CallLogManager.kt:80-105 | `loadFromRoom` fails exactly when the page is empty; otherwise it publishes the page, then the page and the rest, then the incremental pass (`AfterLoadFromRoom`). |
| CallLogSync.CallLogManager.DeleteCallLog | communication/src/main/java/com/example/communication/calllog/CallLogManager.kt:184-195 | `deleteCallLog` deletes the system record and the row by primary key, removes the first equal record from the snapshot and republishes the rest. |
| CallLogServiceSync.ServicePassOutcome | communication/src/main/java/com/example/communication/service/CallLogService.kt:88-134 | A service pass publishes the merge sorted newest day and time first, then advances the cursor: an id survives exactly when the snapshot or the delta has it and the census does, a delta record replaces the old one, and every other record comes from the snapshot. |
| CallLogServiceSync.ServicePassTable | communication/src/main/java/com/example/communication/service/CallLogService.kt:95-124 | After a service pass a deleted id finds nothing in the table, a surviving delta id finds the delta's record, and any other id finds what it found before. |
| CallLogServiceSync.InitEndsWithLast | communication/src/main/java/com/example/communication/service/CallLogService.kt:26-41 | The last INIT step sorts the last batch, publishes it and upserts it. |
| CallLogServiceSync.InitLastBatchWins | communication/src/main/java/com/example/communication/service/CallLogService.kt:26-41 | Each INIT batch replaces the snapshot instead of extending it: afterwards the snapshot is the last batch, sorted, and each of its records is stored as delivered. |
| CallLogServiceSync.LoadSortedShown | communication/src/main/java/com/example/communication/service/CallLogService.kt:56-64 | `loadSortedCallLogsFromRoom` publishes every stored record once, sorted newest first. |
| CallLogServiceSync.CallLogService.constructor | communication/src/main/java/com/example/communication/service/CallLogService.kt:21-23 | The service starts with nothing published and the given table and cursor. |
| CallLogServiceSync.CallLogService.Publish | communication/src/main/java/com/example/communication/service/CallLogService.kt:129 | Assigning `_currentCallLog.value` publishes the list as it stands. |
| CallLogServiceSync.CallLogService.Upsert | communication/src/main/java/com/example/communication/service/CallLogService.kt:96 | `callLogDao().upsert` replaces the records with known ids and appends the rest, and nothing else changes. |
| CallLogServiceSync.CallLogService.DeleteByCallLogs | communication/src/main/java/com/example/communication/service/CallLogService.kt:122 | `deleteByCallLogs` removes the listed ids from the table, and nothing else changes. |
| CallLogServiceSync.CallLogService.UpdateCallLogTime | communication/src/main/java/com/example/communication/service/CallLogService.kt:131 | `updateCallLogTime` stores the clock reading as the cursor, and nothing else changes. |
| CallLogServiceSync.CallLogService.UpdateCallLogsWithNewRecords | communication/src/main/java/com/example/communication/service/CallLogService.kt:88-134 | `updateCallLogsWithNewRecords` returns the published list and leaves the state `ServicePass` describes. |
| CallLogServiceSync.CallLogService.InitializeCallLogs | communication/src/main/java/com/example/communication/service/CallLogService.kt:26-41 | `initializeCallLogs` sorts, publishes and upserts each INIT batch as it arrives (`AfterInitBatches`). |
| CallLogServiceSync.CallLogService.LoadSortedCallLogsFromRoom | communication/src/main/java/com/example/communication/service/CallLogService.kt:56-64 | `loadSortedCallLogsFromRoom` returns and publishes every stored record, sorted (`AfterLoadSorted`). |
| CallLogServiceSync.CallLogService.LoadCallLogsFromRoom | communication/src/main/java/com/example/communication/service/CallLogService.kt:43-54 | `loadCallLogsFromRoom` hands over the sorted stored records, then the result of a pass over what AFTER_TIME returns for the cursor. |
| CallLogServiceSync.CallLogService.OnCallLogsChanged | communication/src/main/java/com/example/communication/service/CallLogService.kt:77-86 | The observer runs a pass over the delivered records and hands the new snapshot to the callback. |
| CallLogDisplay.NewerFirstPreorder | app/src/main/java/com/dullfan/nexuslink/ui/page/recent_calls/CallLogDisplayMode.kt:114-119 | The newest-first orders on records and on items are total and transitive, so sorting by them is well defined. |
| CallLogDisplay.ByTimestampDesc | app/src/main/java/com/dullfan/nexuslink/ui/page/recent_calls/CallLogDisplayMode.kt:79 | `sortedByDescending { it.timestamp }` returns a permutation of the records, of the same length. |
| CallLogDisplay.ByTimestampDescSorted | app/src/main/java/com/dullfan/nexuslink/ui/page/recent_calls/CallLogDisplayMode.kt:79 | The descending sort lists the records newest first, as a permutation of the input. |
| CallLogDisplay.NewestIndex | app/src/main/java/com/dullfan/nexuslink/ui/page/recent_calls/CallLogDisplayMode.kt:102 | `maxBy { it.timestamp }` picks the first record with the largest timestamp. |
| CallLogDisplay.GroupItem | app/src/main/java/com/dullfan/nexuslink/ui/page/recent_calls/CallLogDisplayMode.kt:96-113 | The item of a MERGED group stands for exactly the group's records. |
| CallLogDisplay.RunItem | app/src/main/java/com/dullfan/nexuslink/ui/page/recent_calls/CallLogDisplayMode.kt:139-161 | The item `addGroupToResult` makes of a run stands for exactly the run's records. |
| CallLogDisplay.TimelineKeepsOrder | app/src/main/java/com/dullfan/nexuslink/ui/page/recent_calls/CallLogDisplayMode.kt:69-72 | TIMELINE keeps every record once, in input order, each as its own `Single` item; it does not sort. |
| CallLogDisplay.KeysOf | app/src/main/java/com/dullfan/nexuslink/ui/page/recent_calls/CallLogDisplayMode.kt:85-93 | Each record's key is "phone_" and its number when its contact id is 0, and "contact_" and its contact id otherwise. |
| CallLogDisplay.WithKey | app/src/main/java/com/dullfan/nexuslink/ui/page/recent_calls/CallLogDisplayMode.kt:85-93 | A group holds only input records with its key, in input order, and is non-empty for a key that occurs. |
| CallLogDisplay.GroupBy | app/src/main/java/com/dullfan/nexuslink/ui/page/recent_calls/CallLogDisplayMode.kt:85-93 | `groupBy` makes one non-empty group per distinct key, in first-occurrence order, each holding that key's records in input order. |
| CallLogDisplay.MergeCallLogs | app/src/main/java/com/dullfan/nexuslink/ui/page/recent_calls/CallLogDisplayMode.kt:83-120 | `mergeCallLogs` makes one item per distinct key. |
| CallLogDisplay.GroupsCover | app/src/main/java/com/dullfan/nexuslink/ui/page/recent_calls/CallLogDisplayMode.kt:85-96 | With distinct keys covering every record, the groups together hold every record once. |
| CallLogDisplay.MergedConservesRecords | app/src/main/java/com/dullfan/nexuslink/ui/page/recent_calls/CallLogDisplayMode.kt:83-120 | MERGED keeps every record exactly once: the items' records are a permutation of the input, so their count is the input's length. |
| CallLogDisplay.MergedOnePerKeySorted | app/src/main/java/com/dullfan/nexuslink/ui/page/recent_calls/CallLogDisplayMode.kt:83-120 | MERGED has one item per distinct key, ordered newest first by the item's time. |
| CallLogDisplay.MergedItemIsGroup | app/src/main/java/com/dullfan/nexuslink/ui/page/recent_calls/CallLogDisplayMode.kt:96-113 | Every MERGED item is the item of the group of one key that occurs in the input. |
| CallLogDisplay.GroupItemSummary | app/src/main/java/com/dullfan/nexuslink/ui/page/recent_calls/CallLogDisplayMode.kt:96-113 | A group of one stays `Single`; a larger one is `Merged` with its own records, its size as call count, its durations summed in `Int` arithmetic, and the fields and time of its first record with the largest timestamp. |
| CallLogDisplay.Runs | app/src/main/java/com/dullfan/nexuslink/ui/page/recent_calls/CallLogDisplayMode.kt:163-183 | The scan makes no runs of no records, never an empty run, and ends with a run holding the last record. |
| CallLogDisplay.RunsFlatten | app/src/main/java/com/dullfan/nexuslink/ui/page/recent_calls/CallLogDisplayMode.kt:163-183 | The scan's runs together are the sorted records, in order. |
| CallLogDisplay.RunsMaximal | app/src/main/java/com/dullfan/nexuslink/ui/page/recent_calls/CallLogDisplayMode.kt:128-137 | Inside each run neighbours are the same contact (`isSameContact`), and at every boundary between runs they are not. |
| CallLogDisplay.MaximalRunsUnique | app/src/main/java/com/dullfan/nexuslink/ui/page/recent_calls/CallLogDisplayMode.kt:163-183 | Any split of the records into maximal runs is the one the scan makes. |
| CallLogDisplay.ContinuousPartition | app/src/main/java/com/dullfan/nexuslink/ui/page/recent_calls/CallLogDisplayMode.kt:121-186 | CONTINUOUS_MERGE splits the newest-first list into maximal runs in order, one item per run; a run of one is `Single`, a longer one is `Merged` with its first record's time and its size; no input gives no items. |
| CallLogDisplay.AddGroupToResult | app/src/main/java/com/dullfan/nexuslink/ui/page/recent_calls/CallLogDisplayMode.kt:139-161 | `addGroupToResult` adds nothing for an empty run, else the run's item; either way the run is emptied. |
| CallLogDisplay.ScanStart | app/src/main/java/com/dullfan/nexuslink/ui/page/recent_calls/CallLogDisplayMode.kt:166-169 | The first record opens the first run. |
| CallLogDisplay.ScanJoin | app/src/main/java/com/dullfan/nexuslink/ui/page/recent_calls/CallLogDisplayMode.kt:171-173 | A record that is the same contact as the open run's last record joins that run. |
| CallLogDisplay.ScanSplit | app/src/main/java/com/dullfan/nexuslink/ui/page/recent_calls/CallLogDisplayMode.kt:174-177 | Any other record closes the open run and opens a new one. |
| CallLogDisplay.MergeContinuousCallLogs | app/src/main/java/com/dullfan/nexuslink/ui/page/recent_calls/CallLogDisplayMode.kt:121-186 | `mergeContinuousCallLogs` sorts newest first, then returns one item per maximal run. |
| CallLogDisplay.ScanRuns | app/src/main/java/com/dullfan/nexuslink/ui/page/recent_calls/CallLogDisplayMode.kt:163-185 | The `for` loop with its open run returns the items of the scan's runs, in order. |
| CallLogDisplay.ProcessCallLogs | app/src/main/java/com/dullfan/nexuslink/ui/page/recent_calls/CallLogDisplayMode.kt:66-81 | `processCallLogs` gives TIMELINE's items, MERGED's items, or the continuous items of the newest-first list, by mode. |
| CallLogDisplay.UnknownAndKnownContactDiffer | app/src/main/java/com/dullfan/nexuslink/ui/page/recent_calls/CallLogDisplayMode.kt:85-93 | A record without a contact and one with contact 7, of the same number, are one run in CONTINUOUS_MERGE but two groups in MERGED. |
| TimeBuckets.DayOfWeek | app/src/main/java/com/dullfan/nexuslink/utils/Tool.kt:20 | The ISO day of the week of a day number is between 1 (Monday) and 7 (Sunday). |
| TimeBuckets.StartOfWeek | app/src/main/java/com/dullfan/nexuslink/utils/Tool.kt:20 | `today.with(DayOfWeek.MONDAY)` is a Monday within the six days up to today. |
| TimeBuckets.TodayShowsTime | app/src/main/java/com/dullfan/nexuslink/utils/Tool.kt:23-27 | A call dated today shows its time of day. |
| TimeBuckets.PastWeekday | app/src/main/java/com/dullfan/nexuslink/utils/Tool.kt:29-35 | An earlier date shows its weekday exactly when it lies after this week's Monday: Monday itself does not. |
| TimeBuckets.MondayNotWeekday | app/src/main/java/com/dullfan/nexuslink/utils/Tool.kt:29 | This week's Monday, when it is not today, falls through to the year formats (`isAfter` is strict). |
| TimeBuckets.FutureWeekday | app/src/main/java/com/dullfan/nexuslink/utils/Tool.kt:29-35 | A date after today takes the weekday format. |
| TimeBuckets.BeforeThisWeek | app/src/main/java/com/dullfan/nexuslink/utils/Tool.kt:37-50 | Up to this week's Monday, a date that is not today shows this year's format exactly when it comes after 1 January; 1 January itself shows the full date. |
| MainScreen.MergeStep | app/src/main/java/com/dullfan/nexuslink/ui/page/main/MainViewModel.kt:83-93 | One turn of the `forEach` keeps every contact the table holds findable in `details`, so `indexOfFirst` never gives -1 for a known id. |
| MainScreen.CoversSnoc | app/src/main/java/com/dullfan/nexuslink/ui/page/main/MainViewModel.kt:87 | Appending a contact keeps every table id findable in `details`. |
| MainScreen.CoversUpdate | app/src/main/java/com/dullfan/nexuslink/ui/page/main/MainViewModel.kt:89-91 | Replacing the element with the same id keeps every table id findable in `details`. |
| MainScreen.Merged | app/src/main/java/com/dullfan/nexuslink/ui/page/main/MainViewModel.kt:82-93 | The whole `forEach` keeps every table id findable in `details`. |
| MainScreen.CoversSelf | app/src/main/java/com/dullfan/nexuslink/ui/page/main/MainViewModel.kt:77 | `findAllContactPersonRoom` lists every row of the table, so every table id is findable in it. |
| MainScreen.MergedRefreshes | app/src/main/java/com/dullfan/nexuslink/ui/page/main/MainViewModel.kt:76-93 | With distinct ids in the table and in the delta, the merge is each table row refreshed in place by the delta contact with its id, followed by the delta contacts the table lacks, in delta order. |
| MainScreen.MergedIsMergeAppend | app/src/main/java/com/dullfan/nexuslink/ui/page/main/MainViewModel.kt:76-93 | So the view model's merge is the same as the managers' append-merge. |
| MainScreen.SplitLast | app/src/main/java/com/dullfan/nexuslink/ui/page/main/MainViewModel.kt:83 | A delta with distinct ids is its front, also distinct, and a last contact whose id the front lacks. |
| MainScreen.MergeStepRefreshes | app/src/main/java/com/dullfan/nexuslink/ui/page/main/MainViewModel.kt:83-93 | One turn of the loop takes the reference merge of a delta's front to that of the front and one more contact. |
| MainScreen.StepFresh | app/src/main/java/com/dullfan/nexuslink/ui/page/main/MainViewModel.kt:84-87 | A contact the table lacks is appended after the contacts added so far. |
| MainScreen.StepKnown | app/src/main/java/com/dullfan/nexuslink/ui/page/main/MainViewModel.kt:88-91 | A contact the table has replaces that id's refreshed row in place. |
| MainScreen.RemoveIdsSnoc | app/src/main/java/com/dullfan/nexuslink/ui/page/main/MainViewModel.kt:109-112 | `removeIf` for one more id, after the earlier ones, is removing them all. |
| MainScreen.DeleteInIsRemoveIds | app/src/main/java/com/dullfan/nexuslink/ui/page/main/MainViewModel.kt:109-112 | Deleting the ids from the table one by one removes exactly the rows with those ids. |
| MainScreen.StampAllKeys | app/src/main/java/com/dullfan/nexuslink/room/RoomUtil.kt:9-29 | The rows written for a delta have exactly the delta's ids. |
| MainScreen.StampAllLast | app/src/main/java/com/dullfan/nexuslink/room/RoomUtil.kt:20-27 | The row written for an id is the delta's last contact with it, with the update time of the moment of writing. |
| MainScreen.SubsequentOutcome | app/src/main/java/com/dullfan/nexuslink/ui/page/main/MainViewModel.kt:74-118 | After a later run the list holds id k exactly when the table or the delta holds k and the system does; the table holds the same ids; a delta contact is stored stamped and listed as delivered. |
| MainScreen.SubsequentEmptyDelta | app/src/main/java/com/dullfan/nexuslink/ui/page/main/MainViewModel.kt:82-112 | An empty delta writes nothing: the table only loses the ids the system no longer has, and the list is the table's rows the system still has. |
| MainScreen.InCensusKeys | app/src/main/java/com/dullfan/nexuslink/ui/page/main/MainViewModel.kt:224-229 | Keeping the contacts the system still has keeps id k exactly when the list has k and the system does. |
| MainScreen.ObservedOutcome | app/src/main/java/com/dullfan/nexuslink/ui/page/main/MainViewModel.kt:221-235 | An empty emission drops exactly the ids the system no longer has; any other emission drops no id, adds the emitted ids once each, and leaves the list name-sorted under a total preorder. |
| MainScreen.SortKeepsKeys | app/src/main/java/com/dullfan/nexuslink/ui/page/main/MainViewModel.kt:68 | Sorting before publishing neither adds nor drops a contact id. |
| MainScreen.ShownMatchesStored | app/src/main/java/com/dullfan/nexuslink/ui/page/main/MainViewModel.kt:62-72 | On a later start the published contacts and the app's table hold the same ids once the contact job is done. |
| MainScreen.GroupsByNumberUnique | app/src/main/java/com/dullfan/nexuslink/ui/page/main/MainViewModel.kt:155-158 | Only one map groups a list by number as `queryData` promises, so the published map is determined by the list. |
| MainScreen.NoCallsPublished | app/src/main/java/com/dullfan/nexuslink/ui/page/main/MainViewModel.kt:131-146 | Without a cursor the call-log job publishes an empty list and an empty map. |
| MainScreen.LoadFlags | app/src/main/java/com/dullfan/nexuslink/ui/page/main/MainViewModel.kt:180-205 | A load ends with the permission granted and leaves the read time alone. The contacts stay loading exactly when `nameSort` threw on the job's list, and the call log exactly when its query threw. |
| MainScreen.LoadClearsFirstRun | app/src/main/java/com/dullfan/nexuslink/ui/page/main/MainViewModel.kt:187-204 | The stored first-run key ends false whatever it was; it is cleared only after both jobs ended, and only on a first run. The contacts report unless `nameSort` threw, and the call log reports unless its query threw. |
| MainScreen.JobsKeepKeys | app/src/main/java/com/dullfan/nexuslink/ui/page/main/MainViewModel.kt:62-147 | The two jobs leave the first-run key and the run's flag alone; the contact job reports once unless `nameSort` threw, then the call-log job reports once unless its query threw. |
| MainScreen.LaterStartShowsStored | app/src/main/java/com/dullfan/nexuslink/ui/page/main/MainViewModel.kt:180-205 | On a later start the table ends up holding the ids of the table or of the updated contacts that the system still has, whether or not `nameSort` throws. Unless it throws, the contacts shown are name-sorted and hold exactly those ids. If it throws, the contacts stay loading and the list shown is the one from before the load. |
| MainScreen.CallLogJobShape | app/src/main/java/com/dullfan/nexuslink/ui/page/main/MainViewModel.kt:131-147 | A call-log query that throws ends the job with nothing changed; otherwise the page shows at most twenty records, filed by number with every record under its own number exactly once. |
| MainScreen.FirstRunAddsCallRows | app/src/main/java/com/dullfan/nexuslink/ui/page/main/MainViewModel.kt:173-174 | A first run stores every published record as a new row: the records carry id 0 and Room generates one for each. |
| MainScreen.MainViewModel.constructor | app/src/main/java/com/dullfan/nexuslink/ui/page/main/MainViewModel.kt:30-46 | A new view model has the initial screen state, a zero last update time and the first-run flag set, beside the given tables and stored keys. |
| MainScreen.MainViewModel.HandleContactSubsequentEnterApp | app/src/main/java/com/dullfan/nexuslink/ui/page/main/MainViewModel.kt:74-118 | `handleContactSubsequentEnterApp` returns the merge of the table with the contacts updated since `lastUpdateTime`, less the ids the system lacks, and leaves the table as `SubsequentTable` says. |
| MainScreen.MainViewModel.HandleContactFirstEnterApp | app/src/main/java/com/dullfan/nexuslink/ui/page/main/MainViewModel.kt:120-129 | `handleContactFirstEnterApp` returns every system contact and upserts them all, stamped. |
| MainScreen.MainViewModel.LaunchContactJob | app/src/main/java/com/dullfan/nexuslink/ui/page/main/MainViewModel.kt:62-72 | `launchContactJob` leaves the state `ContactJob` describes. The handler always writes the table. Then either `nameSort` throws on the list and nothing is published, or the list is name-sorted and published and the contact page is loaded. |
| MainScreen.MainViewModel.LaunchCallLogJob | app/src/main/java/com/dullfan/nexuslink/ui/page/main/MainViewModel.kt:131-147 | `launchCallLogJob` leaves the state `CallLogJob` describes: the list and map published, and on a first run the list upserted; a query that throws ends the job with nothing written. |
| MainScreen.MainViewModel.LoadContactList | app/src/main/java/com/dullfan/nexuslink/ui/page/main/MainViewModel.kt:180-205 | `loadContactList` leaves the state `Loaded` describes: flags set, keys read, both jobs run (each ending with nothing published when it throws), then the first-run key cleared on a first run. |
| MainScreen.MainViewModel.ClearFirstEnterApp | app/src/main/java/com/dullfan/nexuslink/ui/page/main/MainViewModel.kt:201-203 | After the join a first run writes false to the first-run key; a later run writes nothing. |
| MainScreen.MainViewModel.NoPermissions | app/src/main/java/com/dullfan/nexuslink/ui/page/main/MainViewModel.kt:207-209 | `noPermissions` clears `hasPermissions`, and nothing else changes. |
| MainScreen.MainViewModel.OnContactsChanged | app/src/main/java/com/dullfan/nexuslink/ui/page/main/MainViewModel.kt:214-238 | One collected emission leaves the state `Collected` describes. The clock reading is stored as the last read time. The list is updated, or kept when the merge's `nameSort` throws. |
| MainScreen.CollectedStamps | app/src/main/java/com/dullfan/nexuslink/ui/page/main/MainViewModel.kt:214-238 | An emission stores `now` as the last read time, leaves the tables, the first-run key and `lastUpdateTime` alone, and changes the list's ids as the empty or non-empty branch says. It keeps the list when the merge's `nameSort` throws. |
| MainScreen.CollectedThenRestart | app/src/main/java/com/dullfan/nexuslink/ui/page/main/MainViewModel.kt:187-205 | After an emission at `now`, the next later start queries from `now`, and its table holds an id exactly when the old table or a contact updated after `now` has it and the system still does. |
| MainScreen.MergeUpdated | app/src/main/java/com/dullfan/nexuslink/ui/page/main/MainViewModel.kt:76-93 | Steps 1 to 3 return the table's rows merged with the updated contacts, as `MergedWithTable` gives them. |
| MainScreen.DeleteEach | app/src/main/java/com/dullfan/nexuslink/ui/page/main/MainViewModel.kt:109-112 | The delete loop removes exactly the listed ids from the list and from the table, which stays keyed by id. |
| MainScreen.QueryCallLogs | app/src/main/java/com/dullfan/nexuslink/ui/page/main/MainViewModel.kt:149-172 | The query half of the call-log job reports exactly when the query threw; otherwise it returns the callback's list and the map grouping it by number, both empty without a callback. |
| SyncSteps.ReplaceEach | communication/src/main/java/com/example/communication/contact/ContactManager.kt:172-180 | The `forEach` over the known ids replaces each one's old element where `indexOf` finds it, as `ApplyUpdates` specifies. |
| SyncSteps.AppendAndReplace | communication/src/main/java/com/example/communication/contact/ContactManager.kt:164-181 | The contact merge of a delta is the reference append-merge: new ids appended in delta order, then known ids replaced in place. |
| SyncSteps.PrependAndReplace | communication/src/main/java/com/example/communication/calllog/CallLogManager.kt:141-160 | The call-log merge of a delta is the reference prepend-merge: new ids put in front (`addAll(0, …)`), then known ids replaced in place. |
| SyncSteps.RemoveFirst | communication/src/main/java/com/example/communication/calllog/CallLogManager.kt:193 | `list.remove(x)` drops one copy of `x` when the list has one, and otherwise changes nothing. |
| SyncSteps.RemoveFirstKeepsOrder | communication/src/main/java/com/example/communication/calllog/CallLogManager.kt:193 | Removing the first copy keeps every other element, in order. |
| Sorting.Insert | communication/src/main/java/com/example/communication/contact/ContactManager.kt:336 | Inserting one element lengthens the list by one. |
| Sorting.InsertSorted | communication/src/main/java/com/example/communication/contact/ContactManager.kt:336 | Under a total preorder, inserting into a sorted list keeps it sorted. |
| Sorting.InsertMultiset | communication/src/main/java/com/example/communication/contact/ContactManager.kt:336 | Inserting adds exactly the one element to the multiset of the list. |
| Sorting.SortBy | communication/src/main/java/com/example/communication/contact/ContactManager.kt:336 | The stable sort of a list is a permutation of it, of the same length. |
| Sorting.SortBySorted | communication/src/main/java/com/example/communication/contact/ContactManager.kt:336 | Under a total preorder, the stable sort yields a sorted permutation. |
| Sorting.SortBySortedIdentity | communication/src/main/java/com/example/communication/calllog/CallLogManager.kt:198 | A stable sort leaves an already sorted list as it is. |
| Sorting.SortByIdempotent | app/src/main/java/com/dullfan/nexuslink/ui/page/recent_calls/CallLogDisplayMode.kt:79 | Sorting twice is sorting once, so the second sort in `mergeContinuousCallLogs` changes nothing. |
| Sorting.StrLeTotal | communication/src/main/java/com/example/communication/contact/ContactManager.kt:336 | Kotlin's natural string order is total. |
| Sorting.StrLeTransitive | communication/src/main/java/com/example/communication/contact/ContactManager.kt:336 | Kotlin's natural string order is transitive. |
| Sorting.StrLeAntisymmetric | communication/src/main/java/com/example/communication/contact/ContactManager.kt:336 | Kotlin's natural string order is antisymmetric. |
| ListSort.InsertAt | communication/src/main/java/com/example/communication/utils/EntityDataProcessing.kt:31-35 | The stable insertion places an element after the prefix it may not precede. |
| ListSort.InsertInto | communication/src/main/java/com/example/communication/utils/EntityDataProcessing.kt:31-35 | Moving `a[i]` into the sorted suffix leaves there the stable insertion of it into that suffix. |
| ListSort.SortInPlace | communication/src/main/java/com/example/communication/utils/EntityDataProcessing.kt:31-35 | `sortWith` in place leaves the array holding the stable sort of its old contents. |
| ListSort.SortSeq | communication/src/main/java/com/example/communication/utils/EntityDataProcessing.kt:31-35 | A list sorted through an array is the stable sort of that list. |
| ContactIndex.CurrentInitial | app/src/main/java/com/dullfan/nexuslink/ui/page/contact/ContactPage.kt:76-89 | The first visible position shows the initial of the entry whose header-and-contacts range holds it, or '#' past the last entry. |
| ContactIndex.ScrollTarget | app/src/main/java/com/dullfan/nexuslink/ui/page/contact/ContactPage.kt:144-150 | A letter that is not a key of the initials map scrolls nowhere; a key scrolls to the position of its entry's header. |
| ContactIndex.FirstWith | app/src/main/java/com/dullfan/nexuslink/ui/page/contact/ContactPage.kt:145 | The entry `takeWhile { it.key != letter }` stops at: the first with that initial, or none at all. |
| ContactIndex.InitialInRange | app/src/main/java/com/dullfan/nexuslink/ui/page/contact/ContactPage.kt:79-85 | Every position from an entry's header to its last contact shows that entry's initial. |
| ContactIndex.StartMonotone | app/src/main/java/com/dullfan/nexuslink/ui/page/contact/ContactPage.kt:79-85 | Headers stand in increasing order of position. |
| ContactIndex.StepsTo | app/src/main/java/com/dullfan/nexuslink/ui/page/contact/ContactPage.kt:80-85 | The scan passes over every entry before the one whose range holds the position. |
| ContactIndex.ScrollShowsLetter | app/src/main/java/com/dullfan/nexuslink/ui/page/contact/ContactPage.kt:76-89 | Round trip: after scrolling to a letter's header the rail shows that same letter. |
| ContactIndex.PastTheEnd | app/src/main/java/com/dullfan/nexuslink/ui/page/contact/ContactPage.kt:87 | A position past every entry shows '#'. |
| ContactIndex.PastFrom | app/src/main/java/com/dullfan/nexuslink/ui/page/contact/ContactPage.kt:80-87 | From any entry on, a position past every entry shows '#'. |
| ContactIndex.DragIndex | app/src/main/java/com/dullfan/nexuslink/ui/page/contact/ContactPage.kt:136-140 | The drag row is clamped into the rail: always a valid index, and a row already inside is kept. |
| ContactIndex.CharListLetters | app/src/main/java/com/dullfan/nexuslink/ui/page/contact/ContactPage.kt:70 | The rail has 27 letters, '#' then A to Z in order. |

## Left out

- Concurrency: coroutines, dispatchers, `withContext`, `SupervisorJob` and the jobs of `MainViewModel` are not modelled. Jobs that Kotlin runs concurrently and joins run one after the other here, so interleavings are not covered.
- Flows and observers: `callbackFlow`, `ContentObserver`, `conflate()` and the observer registrations are not modelled. Each change notification is modelled as one call of the pass it triggers, so conflation and single-flight scheduling are not covered.
- `MainViewModel`: only the `updateLastReadTime` call after the two load jobs is commented out. The observer's `updateTime` callback is modelled as part of each collected emission, with the clock reading as a parameter. The order between that asynchronous write and the collector is not covered.
- Content-resolver I/O (`query`, `delete`, `openContactPhotoInputStream`) is not modelled. A query is the row sequence its cursor would deliver (none for a null cursor), and a delete's result is ignored, as the code ignores it.
- Bitmap decoding and PNG compression are not modelled. The avatar is whatever the `photoOf` parameter returns for a contact id.
- Room and DataStore are not modelled as databases. The DAOs are functions on sequences of rows, and the preference keys are fields of the classes. Durability and transactions are not covered.
- `ContactPersonDao`, `CallLogDao`: the first-page and below-key queries the managers call are not declared in the DAO files. They are taken as `ORDER BY key DESC LIMIT n` and `WHERE key < ?`, like the `PhoneDao` queries.
- `AppContact` does not carry the avatar or the seven child lists (phones, IMs, emails, addresses, organizations, events, websites) of the app's `ContactPersonEntity`. So `RoomUtil.upsertContactPersonRoom`'s seven child upserts and `findAllContactPersonRoom`'s seven child reads are not modelled, and neither is the duplication of child rows that re-upserting a contact causes, since the app's child entities have auto-generated ids that the queries leave at 0. Only the base row is modelled, and `System.currentTimeMillis()` is a parameter.
- The locale `Collator` behind the display-name sorts is a parameter. Its ordering is assumed to be a total preorder wherever sortedness is stated.
- The app's `nameSort` throws a NullPointerException when a list of two or more contacts holds one with a null display name. That throw is modelled: the contact job ends after the table was written, with nothing published, and the collector keeps its list. The crash that the uncaught exception then causes on Android is not modelled, and neither is the end of the observer's collection.
- AppNameSort (`EntityProcessing.AppNameSort`) leaves the array as it was when it throws. `sortWith` may already have moved some elements before the comparison that throws, and this is not modelled, because every caller drops the list on a throw.
- QueryContactsInline (`ContactQuery.QueryContactsInline`) reads every column through `ContactUtilHelper`'s getters. That helper is not part of this model, and it is taken to behave like the `ExtendUtils` getters (`Rows.GetIntValue`, `Rows.GetLongValue`, `Rows.GetStringValue`). The equality with `ContactQueryManager.queryContacts` holds only under that assumption.
- `INITIAL_LOAD_SIZE` and `FIRST_COUNT` are constants of an SDK file that is not part of this model. They are positive parameters of the classes.
- A call-log query that throws because a number does not parse ends the call-log job of `MainViewModel` with nothing written, and the model goes on with the rest of `loadContactList`. The uncaught exception in `viewModelScope` then crashes the app on Android, and that crash is not modelled.
- The libphonenumber carrier and geocoder lookups (`getCarrier`, `getGen`) and the `SimpleDateFormat` date and time strings are uninterpreted functions passed in as parameters. So is whether `PhoneNumberUtil.parse` accepts a number for region "CN".
- `SubscriptionManager` is a `Subscriptions` value: it throws, has no list, or lists the active subscriptions.
- The calendar, the clock and the format patterns behind `formatTimestamp` are not modelled. Dates are day numbers, and only the choice among its four formats is modelled.
- Kotlin's `isDigit` is modelled by the decimal-digit runs of Unicode 15.0 in the Basic Multilingual Plane. The Unicode version of a given Android release may list fewer runs.
- `String.hashCode` is modelled over characters as single code units, so supplementary characters (two UTF-16 units) are not covered.
- The UI state of `isSelected`, Compose layout and pixel arithmetic are not modelled. Only the index arithmetic of the contact page's letter rail is.
- Timing and logging (`logTime`, `Log.d`) are not modelled.
- `CallUtil.getCallLogByNumber` is not modelled, because it only builds a cursor query.
- `CallUtil.queryCallLogs` is modelled as the composition of `CallLogQueries.Create` and `CallLogProcessing.Process` over a cursor given as a parameter.
- The `getInstance` double-checked singletons and `release` are not modelled. Each manager or service is one object.
- `ContactPersonUtil` (the app's per-field contact queries) is not modelled. What those queries answer is a field of the `Device` value.
- AfterMerge (`ContactSync.AfterMerge`) is stated over the corrected upsert `ContactStore.ReplacePersons`, which replaces a contact's child rows. The code's upsert inserts every child row again, as the second row of "## Findings" shows (`ContactStore.SavePersonDuplicatesPhone`), so the duplicated child rows are not modelled.
- AfterMergeStore (`ContactSync.AfterMergeStore`) is stated over the corrected upsert `ContactStore.ReplacePersons`, which replaces a contact's child rows. The code's upsert inserts every child row again, as the second row of "## Findings" shows (`ContactStore.SavePersonDuplicatesPhone`), so the duplicated child rows are not modelled.
- Upsert (`ContactSync.Upsert`) is stated over the corrected upsert `ContactStore.ReplacePersons`, which replaces a contact's child rows. The code's upsert inserts every child row again, as the second row of "## Findings" shows (`ContactStore.SavePersonDuplicatesPhone`), so the duplicated child rows are not modelled.
- UpsertContactPersonRoom (`ContactSync.ContactManager.UpsertContactPersonRoom`) is stated over the corrected upsert `ContactStore.ReplacePersons`, which replaces a contact's child rows. The code's upsert inserts every child row again, as the second row of "## Findings" shows (`ContactStore.SavePersonDuplicatesPhone`), so the duplicated child rows are not modelled.
- StoreInitialContacts (`ContactSync.ContactManager.StoreInitialContacts`) is stated over the corrected upsert `ContactStore.ReplacePersons`, which replaces a contact's child rows. The code's upsert inserts every child row again, as the second row of "## Findings" shows (`ContactStore.SavePersonDuplicatesPhone`), so the duplicated child rows are not modelled.
- LoadRemainingContacts (`ContactSync.ContactManager.LoadRemainingContacts`) is stated over the corrected upsert `ContactStore.ReplacePersons`, which replaces a contact's child rows. The code's upsert inserts every child row again, as the second row of "## Findings" shows (`ContactStore.SavePersonDuplicatesPhone`), so the duplicated child rows are not modelled.
- MergeAndUpdateContacts (`ContactSync.ContactManager.MergeAndUpdateContacts`) is stated over the corrected upsert `ContactStore.ReplacePersons`, which replaces a contact's child rows. The code's upsert inserts every child row again, as the second row of "## Findings" shows (`ContactStore.SavePersonDuplicatesPhone`), so the duplicated child rows are not modelled.
- UpdateContactPersonListByTimestamp (`ContactSync.ContactManager.UpdateContactPersonListByTimestamp`) is stated over the corrected upsert `ContactStore.ReplacePersons`, which replaces a contact's child rows. The code's upsert inserts every child row again, as the second row of "## Findings" shows (`ContactStore.SavePersonDuplicatesPhone`), so the duplicated child rows are not modelled.
- ServicePass (`ContactServiceSync.ServicePass`) is stated over the corrected upsert `ContactStore.ReplacePersons`, which replaces a contact's child rows. The code's upsert inserts every child row again, as the second row of "## Findings" shows (`ContactStore.SavePersonDuplicatesPhone`), so the duplicated child rows are not modelled.
- ServicePassStore (`ContactServiceSync.ServicePassStore`) is stated over the corrected upsert `ContactStore.ReplacePersons`, which replaces a contact's child rows. The code's upsert inserts every child row again, as the second row of "## Findings" shows (`ContactStore.SavePersonDuplicatesPhone`), so the duplicated child rows are not modelled.
- UpsertContactPersonRoom (`ContactServiceSync.ContactService.UpsertContactPersonRoom`) is stated over the corrected upsert `ContactStore.ReplacePersons`, which replaces a contact's child rows. The code's upsert inserts every child row again, as the second row of "## Findings" shows (`ContactStore.SavePersonDuplicatesPhone`), so the duplicated child rows are not modelled.
- StoreInitialContacts (`ContactServiceSync.ContactService.StoreInitialContacts`) is stated over the corrected upsert `ContactStore.ReplacePersons`, which replaces a contact's child rows. The code's upsert inserts every child row again, as the second row of "## Findings" shows (`ContactStore.SavePersonDuplicatesPhone`), so the duplicated child rows are not modelled.
- LoadRemainingContacts (`ContactServiceSync.ContactService.LoadRemainingContacts`) is stated over the corrected upsert `ContactStore.ReplacePersons`, which replaces a contact's child rows. The code's upsert inserts every child row again, as the second row of "## Findings" shows (`ContactStore.SavePersonDuplicatesPhone`), so the duplicated child rows are not modelled.
- MergeAndUpdateContacts (`ContactServiceSync.ContactService.MergeAndUpdateContacts`) is stated over the corrected upsert `ContactStore.ReplacePersons`, which replaces a contact's child rows. The code's upsert inserts every child row again, as the second row of "## Findings" shows (`ContactStore.SavePersonDuplicatesPhone`), so the duplicated child rows are not modelled.
- UpdateContactPersonListByTimestamp (`ContactServiceSync.ContactService.UpdateContactPersonListByTimestamp`) is stated over the corrected upsert `ContactStore.ReplacePersons`, which replaces a contact's child rows. The code's upsert inserts every child row again, as the second row of "## Findings" shows (`ContactStore.SavePersonDuplicatesPhone`), so the duplicated child rows are not modelled.
- AfterLoadAll (`ContactSync.AfterLoadAll`) is stated over the corrected load `ContactStore.LoadAll`, which reads the page contacts' child rows by contact id. The code takes the first `n` rows of each child table by descending contact id, as the first row of "## Findings" shows (`ContactStore.LoadAllAsWrittenLosesPhone`), so the child rows a page contact loses are not modelled.
- LoadAllPublishesAll (`ContactSync.LoadAllPublishesAll`) is stated over the corrected load `ContactStore.LoadAll`, which reads the page contacts' child rows by contact id. The code takes the first `n` rows of each child table by descending contact id, as the first row of "## Findings" shows (`ContactStore.LoadAllAsWrittenLosesPhone`), so the child rows a page contact loses are not modelled.
- LoadAllContactPersonFromRoom (`ContactSync.ContactManager.LoadAllContactPersonFromRoom`) is stated over the corrected load `ContactStore.LoadAll`, which reads the page contacts' child rows by contact id. The code takes the first `n` rows of each child table by descending contact id, as the first row of "## Findings" shows (`ContactStore.LoadAllAsWrittenLosesPhone`), so the child rows a page contact loses are not modelled.
- Loaded (`CallLogSync.Loaded`) takes the bound of the rest from the page before `updateData` sorts it (`CallLogSync.RestBound`). The code reads `roomData.last()` after the in-place sort, as the third row of "## Findings" shows (`CallLogSync.LoadedAsWrittenRepeats`), so the records the code loads twice are not modelled.
- AfterLoadFromRoom (`CallLogSync.AfterLoadFromRoom`) takes the bound of the rest from the page before `updateData` sorts it (`CallLogSync.RestBound`). The code reads `roomData.last()` after the in-place sort, as the third row of "## Findings" shows (`CallLogSync.LoadedAsWrittenRepeats`), so the records the code loads twice are not modelled.
- LoadFromRoom (`CallLogSync.CallLogManager.LoadFromRoom`) takes the bound of the rest from the page before `updateData` sorts it (`CallLogSync.RestBound`). The code reads `roomData.last()` after the in-place sort, as the third row of "## Findings" shows (`CallLogSync.LoadedAsWrittenRepeats`), so the records the code loads twice are not modelled.

## Findings

| source | as written | input that shows it | evidently intended | confidence | as-written member | corrected member |
|---|---|---|---|---|---|---|
| communication/src/main/java/com/example/communication/contact/ContactManager.kt:246-301 | The first page of each child table is its first `n` child rows by descending contactId, and the rest is read below the page's last contact id. A page contact with more than `n` child rows loses the rows past the limit. | page size 1, base row of contact 5, phone rows (1, 5, "100") and (2, 5, "200") | The page contacts' child rows are read by their contact ids, so every stored child row is loaded once | not executed | ContactStore.LoadAllAsWrittenLosesPhone | ContactStore.LoadAllComplete |
| communication/src/main/java/com/example/communication/contact/ContactManager.kt:200-214 | Child rows are upserted with id 0, which Room auto-generates, so every upsert of a contact inserts its child rows again | the store holds contact 5 with phone "100" and the same contact is upserted again; contact 5 then has two phone rows | Upserting a contact replaces its child rows | not executed | ContactStore.SavePersonDuplicatesPhone | ContactStore.ReplacePersonsStored |
| communication/src/main/java/com/example/communication/calllog/CallLogManager.kt:80-93 | `roomData.last()` is read after `updateData` has sorted the page in place by timestamp, so the bound of the rest is not the page's smallest id | two records a, c with a.callLogId < c.callLogId and a.timestamp > c.timestamp, page size 2: the list loads as [a, c, a] | The page's smallest id bounds the rest, so every stored record loads once | not executed | CallLogSync.LoadedAsWrittenRepeats | CallLogSync.LoadedComplete |
