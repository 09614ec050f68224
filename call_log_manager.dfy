// `CallLogManager`: the published call-log snapshot, the Room `call_log`
// table behind it and the persisted call-log cursor. The system call log is
// known through what its queries return: `afterTime(t)` is the list the
// AFTER_TIME query delivers for cursor `t`, `census` the ids ALL_IDS delivers,
// and the INIT query's batches are given as they arrive. The clock reading
// `updateCallLogTime` stores is a parameter.
module CallLogSync {
  import opened Wrappers
  import opened Seqs
  import opened Sorting
  import opened ListSort
  import opened Entities
  import opened Reconcile
  import opened Store
  import opened SyncSteps

  type CallEffect = Effect<CallLog, int>

  function TimestampOf(c: CallLog): int { c.timestamp }

  /** `sortByDescending { it.timestamp }`, a stable sort. */
  function Recent(): (CallLog, CallLog) -> bool
  {
    Descending(TimestampOf)
  }

  /** The state a call-log manager keeps: the published snapshot, the table,
    * the call-log cursor and the effects so far. */
  datatype CallBooks = CallBooks(calls: seq<CallLog>, table: seq<CallLog>, callLogTime: int, effects: seq<CallEffect>)

  /** `updateData(list)`: published newest first. */
  function Publish(b: CallBooks, list: seq<CallLog>): CallBooks
  {
    var sorted := SortBy(list, Recent());
    b.(calls := sorted, effects := b.effects + [Published(sorted)])
  }

  /** `callLogDao().upsert(*list)`. */
  function Upsert(b: CallBooks, list: seq<CallLog>): CallBooks
  {
    b.(table := UpsertRows(b.table, list, CallLogIdOf), effects := b.effects + [Upserted(list)])
  }

  /** `callLogDao().deleteByCallLogs(ids)`. */
  function DeleteIds(b: CallBooks, ids: seq<int>): CallBooks
  {
    b.(table := DeleteIn(b.table, CallLogIdOf, ids), effects := b.effects + [Deleted(ids)])
  }

  /** `updateCallLogTime()`. */
  function SetCursor(b: CallBooks, now: int): CallBooks
  {
    b.(callLogTime := now, effects := b.effects + [CursorSet(now)])
  }

  /** The list `updateCallLogsWithNewRecords` returns: new ids in front, known
    * ids replaced in place, ids the census lacks removed. */
  function CallMerged(current: seq<CallLog>, delta: seq<CallLog>, census: set<int>): seq<CallLog>
  {
    InCensus(MergePrepend(current, delta, CallLogIdOf), CallLogIdOf, census)
  }

  /** The ids a call-log pass deletes. */
  function CallStale(current: seq<CallLog>, delta: seq<CallLog>, census: set<int>): seq<int>
  {
    StaleIds(MergePrepend(current, delta, CallLogIdOf), CallLogIdOf, census)
  }

  /** The store side of `updateCallLogsWithNewRecords`: a non-empty delta
    * upserted before the merge, the stale ids deleted if there are any, the
    * cursor advanced. The snapshot is not republished here. */
  function CallPass(b: CallBooks, delta: seq<CallLog>, census: set<int>, now: int): CallBooks
  {
    var b1 := if delta == [] then b else Upsert(b, delta);
    var stale := CallStale(b.calls, delta, census);
    SetCursor(if stale == [] then b1 else DeleteIds(b1, stale), now)
  }

  /** One incremental pass and its publication, as `loadFromRoom` and the
    * change observer run it. */
  function ObservedPass(b: CallBooks, afterTime: int -> seq<CallLog>, census: set<int>, now: int): CallBooks
  {
    var delta := afterTime(b.callLogTime);
    Publish(CallPass(b, delta, census, now), CallMerged(b.calls, delta, census))
  }

  /** `initialize`'s callback over the batches still to come: each batch
    * appended to the snapshot and the result published. */
  function AfterBatches(b: CallBooks, batches: seq<seq<CallLog>>): CallBooks
    decreases batches
  {
    if batches == [] then b
    else AfterBatches(Publish(b, b.calls + batches[0]), batches[1..])
  }

  /** `initialize`: every batch appended and published, then the whole
    * snapshot upserted and the cursor advanced. */
  function AfterInitialize(b: CallBooks, batches: seq<seq<CallLog>>, now: int): CallBooks
  {
    var p := AfterBatches(b, batches);
    SetCursor(Upsert(p, p.calls), now)
  }

  /** The id below which `loadFromRoom` reads the rest, as written: the last
    * record of the page after `updateData` has sorted the page in place by
    * timestamp. */
  function RestBoundAsWritten(page: seq<CallLog>): int
    requires page != []
  {
    SortBy(page, Recent())[|page| - 1].callLogId
  }

  /** `loadFromRoom` as written: the page published, then the sorted page
    * followed by the records below `RestBoundAsWritten`. */
  function LoadedAsWritten(table: seq<CallLog>, n: nat): seq<CallLog>
  {
    var page := FirstPage(table, CallLogIdOf, n);
    if page == [] then []
    else SortBy(page, Recent()) + Below(table, CallLogIdOf, RestBoundAsWritten(page))
  }

  /** The page of two records, newest id first. */
  lemma PageOfTwo(a: CallLog, c: CallLog)
    requires a.callLogId < c.callLogId
    ensures FirstPage([a, c], CallLogIdOf, 2) == [c, a]
  {
    assert [a, c][1..] == [c];
    var byId := Descending(CallLogIdOf);
    assert byId(a, c) == (CallLogIdOf(a) >= CallLogIdOf(c));
  }

  /** Two records sorted newest call first. */
  lemma RecentOfTwo(c: CallLog, a: CallLog)
    requires a.timestamp > c.timestamp
    ensures SortBy([c, a], Recent()) == [a, c]
  {
    assert [c, a][1..] == [a];
    var recent := Recent();
    assert recent(c, a) == (TimestampOf(c) >= TimestampOf(a));
  }

  /** When timestamps do not follow ids, the rest read after the page repeats
    * a record of the page: with two records, the newer call having the
    * smaller id, the older record is loaded twice. */
  lemma LoadedAsWrittenRepeats(a: CallLog, c: CallLog)
    requires a.callLogId < c.callLogId && a.timestamp > c.timestamp
    ensures LoadedAsWritten([a, c], 2) == [a, c, a]
  {
    PageOfTwo(a, c);
    RecentOfTwo(c, a);
    BelowCons(a, [c], CallLogIdOf, c.callLogId);
    BelowCons(c, [], CallLogIdOf, c.callLogId);
    assert [a] + [c] == [a, c] && [c] + [] == [c];
  }

  /** The id below which the rest is read, corrected: the page's last record
    * in the order the page query returns it, its smallest id. */
  function RestBound(page: seq<CallLog>): int
    requires page != []
  {
    page[|page| - 1].callLogId
  }

  /** `loadFromRoom` with the corrected bound; empty when the page is empty
    * (`roomData.last()` throws). */
  function Loaded(table: seq<CallLog>, n: nat): seq<CallLog>
  {
    var page := FirstPage(table, CallLogIdOf, n);
    if page == [] then []
    else SortBy(page, Recent()) + Below(table, CallLogIdOf, RestBound(page))
  }

  /** With the corrected bound every stored record is loaded exactly once. */
  lemma LoadedComplete(table: seq<CallLog>, n: nat)
    requires DistinctKeys(table, CallLogIdOf)
    ensures Loaded(table, n) == [] <==> n == 0 || table == []
    ensures Loaded(table, n) != [] ==> multiset(Loaded(table, n)) == multiset(table)
  {
    var page := FirstPage(table, CallLogIdOf, n);
    if page != [] {
      PageThenBelow(table, CallLogIdOf, n);
      assert multiset(SortBy(page, Recent())) == multiset(page);
    }
  }

  /** `loadFromRoom` with the corrected bound: the page published, then the
    * sorted page followed by the rest, then the incremental pass; nothing
    * after the page when it is empty. */
  function AfterLoadFromRoom(b: CallBooks, afterTime: int -> seq<CallLog>, census: set<int>, n: nat, now: int)
    : CallBooks
  {
    var page := FirstPage(b.table, CallLogIdOf, n);
    var b1 := Publish(b, page);
    if page == [] then b1
    else ObservedPass(Publish(b1, Loaded(b.table, n)), afterTime, census, now)
  }

  /** `deleteCallLog`: the system record deleted, the row deleted by primary
    * key, the first equal record removed from the snapshot and the rest
    * republished. */
  function AfterDelete(b: CallBooks, entity: CallLog): CallBooks
  {
    var b1 := b.(effects := b.effects + [SystemDeleted(entity.callLogId)]);
    Publish(DeleteIds(b1, [entity.callLogId]), RemoveFirst(b.calls, entity))
  }

  /** Every published snapshot is sorted newest first and holds exactly the
    * list handed to `updateData`. */
  lemma PublishSorted(b: CallBooks, list: seq<CallLog>)
    ensures Sorted(Publish(b, list).calls, Recent())
    ensures multiset(Publish(b, list).calls) == multiset(list)
    ensures Publish(b, list).effects[|b.effects|] == Published(Publish(b, list).calls)
  {
    DescendingPreorder(TimestampOf);
    SortBySorted(list, Recent());
  }

  /** The records left after a pass: an id survives exactly when the snapshot
    * or the delta has it and the census does; a delta record replaces the old
    * one; other records are the snapshot's. */
  lemma CallMergedOutcome(current: seq<CallLog>, delta: seq<CallLog>, census: set<int>, k: int)
    requires DistinctKeys(current, CallLogIdOf) && DistinctKeys(delta, CallLogIdOf)
    ensures var r := CallMerged(current, delta, census);
      && (HasKey(r, CallLogIdOf, k) <==> (HasKey(current, CallLogIdOf, k) || HasKey(delta, CallLogIdOf, k)) && k in census)
      && (forall i :: 0 <= i < |r| && CallLogIdOf(r[i]) in AssociateBy(delta, CallLogIdOf) ==>
            r[i] == AssociateBy(delta, CallLogIdOf)[CallLogIdOf(r[i])])
      && (forall i :: 0 <= i < |r| && CallLogIdOf(r[i]) !in AssociateBy(delta, CallLogIdOf) ==> r[i] in current)
      && DistinctKeys(r, CallLogIdOf)
  {
    PrependPassOutcome(current, delta, CallLogIdOf, census, k);
  }

  /** New ids go in front in delta order, ahead of the refreshed snapshot. */
  lemma CallMergeOrder(current: seq<CallLog>, delta: seq<CallLog>)
    requires DistinctKeys(current, CallLogIdOf) && DistinctKeys(delta, CallLogIdOf)
    ensures MergePrepend(current, delta, CallLogIdOf)
      == Adds(delta, current, CallLogIdOf) + Refreshed(current, delta, CallLogIdOf)
  {
    MergePrependRefreshes(current, delta, CallLogIdOf);
  }

  /** A record whose id the census lacks is deleted in the same pass, even when
    * the delta brings it. */
  lemma CallTombstoneWins(current: seq<CallLog>, delta: seq<CallLog>, census: set<int>, k: int)
    requires DistinctKeys(current, CallLogIdOf) && DistinctKeys(delta, CallLogIdOf)
    requires (HasKey(current, CallLogIdOf, k) || HasKey(delta, CallLogIdOf, k)) && k !in census
    ensures k in CallStale(current, delta, census)
  {
    TombstoneWins(current, delta, CallLogIdOf, census, k);
  }

  /** What a pass leaves in the table: a stale id is gone; a delta id finds the
    * delta's last record with it; any other id finds what it found before. */
  lemma CallPassTable(b: CallBooks, delta: seq<CallLog>, census: set<int>, now: int, k: int)
    ensures var t := CallPass(b, delta, census, now).table;
      Lookup(t, CallLogIdOf, k) ==
        if k in CallStale(b.calls, delta, census) then None
        else if k in AssociateBy(delta, CallLogIdOf) then Some(AssociateBy(delta, CallLogIdOf)[k])
        else Lookup(b.table, CallLogIdOf, k)
    ensures CallPass(b, delta, census, now).callLogTime == now
  {
    var t1 := if delta == [] then b.table else UpsertRows(b.table, delta, CallLogIdOf);
    UpsertRowsLookup(b.table, delta, CallLogIdOf, k);
    DeleteInLookup(t1, CallLogIdOf, CallStale(b.calls, delta, census), k);
  }

  /** `initialize` collects every delivered batch: the snapshot holds the old
    * records and all batch records, newest first. */
  lemma {:induction false} BatchesCollected(b: CallBooks, batches: seq<seq<CallLog>>)
    ensures multiset(AfterBatches(b, batches).calls) == multiset(b.calls + Flatten(batches))
    decreases batches
  {
    if batches == [] {
      assert b.calls + Flatten(batches) == b.calls;
    } else {
      var b1 := Publish(b, b.calls + batches[0]);
      assert AfterBatches(b, batches) == AfterBatches(b1, batches[1..]);
      assert multiset(b1.calls) == multiset(b.calls + batches[0]);
      BatchesCollected(b1, batches[1..]);
      assert Flatten(batches) == batches[0] + Flatten(batches[1..]);
      calc {
        multiset(AfterBatches(b1, batches[1..]).calls);
        multiset(b1.calls + Flatten(batches[1..]));
        multiset(b1.calls) + multiset(Flatten(batches[1..]));
        multiset(b.calls) + multiset(batches[0]) + multiset(Flatten(batches[1..]));
        multiset(b.calls + Flatten(batches));
      }
    }
  }

  class CallLogManager {
    /** `_currentCallLog.value`: the published snapshot. */
    var calls: seq<CallLog>
    /** The Room `call_log` table. */
    var table: seq<CallLog>
    /** The DataStore call-log cursor. */
    var callLogTime: int
    /** Everything the manager has done outside its own list, in order. */
    var effects: seq<CallEffect>
    /** `INITIAL_LOAD_SIZE`. */
    const initialLoadSize: nat

    /** The table is keyed by callLogId. */
    ghost predicate Valid()
      reads this
    {
      DistinctKeys(table, CallLogIdOf)
    }

    function State(): CallBooks
      reads this
    {
      CallBooks(calls, table, callLogTime, effects)
    }

    constructor(table0: seq<CallLog>, time0: int, n: nat)
      requires DistinctKeys(table0, CallLogIdOf)
      ensures Valid()
      ensures State() == CallBooks([], table0, time0, []) && initialLoadSize == n
    {
      calls := [];
      table := table0;
      callLogTime := time0;
      effects := [];
      initialLoadSize := n;
    }

    /** `updateData`: `recentSort` in place, then publish. */
    method UpdateData(list: seq<CallLog>)
      requires Valid()
      modifies this
      ensures Valid() && State() == Publish(old(State()), list)
    {
      var sorted := SortSeq(list, Recent());
      calls := sorted;
      effects := effects + [Published(sorted)];
    }

    /** `getData`: a copy of the snapshot. */
    method GetData() returns (list: seq<CallLog>)
      ensures list == calls
    {
      list := calls;
    }

    method UpsertCallLogs(list: seq<CallLog>)
      requires Valid()
      modifies this
      ensures Valid() && State() == Upsert(old(State()), list)
    {
      UpsertRowsDistinct(table, list, CallLogIdOf);
      table := UpsertRows(table, list, CallLogIdOf);
      effects := effects + [Upserted(list)];
    }

    method DeleteByCallLogs(ids: seq<int>)
      requires Valid()
      modifies this
      ensures Valid() && State() == DeleteIds(old(State()), ids)
    {
      DeleteInDistinct(table, CallLogIdOf, ids);
      table := DeleteIn(table, CallLogIdOf, ids);
      effects := effects + [Deleted(ids)];
    }

    method UpdateCallLogTime(now: int)
      requires Valid()
      modifies this
      ensures Valid() && State() == SetCursor(old(State()), now)
    {
      callLogTime := now;
      effects := effects + [CursorSet(now)];
    }

    /** `updateCallLogsWithNewRecords`: a non-empty delta upserted, then
      * merged into a copy of the snapshot with new ids in front; the ids the
      * census lacks deleted from the table and the copy; the cursor advanced. */
    method UpdateCallLogsWithNewRecords(newCallLogs: seq<CallLog>, census: set<int>, now: int)
      returns (merged: seq<CallLog>)
      requires Valid()
      modifies this
      ensures Valid() && State() == CallPass(old(State()), newCallLogs, census, now)
      ensures merged == CallMerged(old(calls), newCallLogs, census)
    {
      var currentCallLogs := GetData();
      if newCallLogs != [] {
        UpsertCallLogs(newCallLogs);
        currentCallLogs := PrependAndReplace(currentCallLogs, newCallLogs, CallLogIdOf);
      }
      assert currentCallLogs == MergePrepend(old(calls), newCallLogs, CallLogIdOf);
      var idsToDelete := StaleIds(currentCallLogs, CallLogIdOf, census);
      if idsToDelete != [] {
        DeleteByCallLogs(idsToDelete);
        currentCallLogs := RemoveIds(currentCallLogs, CallLogIdOf, idsToDelete);
      } else {
        RemoveNoIds(currentCallLogs, CallLogIdOf);
      }
      RemoveStaleIds(MergePrepend(old(calls), newCallLogs, CallLogIdOf), CallLogIdOf, census);
      UpdateCallLogTime(now);
      merged := currentCallLogs;
    }

    /** The change observer: a pass over what AFTER_TIME returns for the
      * cursor, published by the collector. */
    method OnCallLogsChanged(afterTime: int -> seq<CallLog>, census: set<int>, now: int)
      requires Valid()
      modifies this
      ensures Valid() && State() == ObservedPass(old(State()), afterTime, census, now)
    {
      var newLogs := afterTime(callLogTime);
      var updatedLogs := UpdateCallLogsWithNewRecords(newLogs, census, now);
      UpdateData(updatedLogs);
    }

    /** `initialize`: each INIT batch appended to the snapshot and published
      * as it arrives, then the snapshot upserted and the cursor advanced. */
    method Initialize(batches: seq<seq<CallLog>>, now: int)
      requires Valid()
      modifies this
      ensures Valid() && State() == AfterInitialize(old(State()), batches, now)
    {
      var i := 0;
      while i < |batches|
        invariant 0 <= i <= |batches|
        invariant Valid() && AfterBatches(State(), batches[i..]) == AfterBatches(old(State()), batches)
      {
        var data := GetData();
        data := data + batches[i];
        assert batches[i..][1..] == batches[i + 1..];
        UpdateData(data);
        i := i + 1;
      }
      var all := GetData();
      UpsertCallLogs(all);
      UpdateCallLogTime(now);
    }

    /** `loadFromRoom` with the corrected rest bound; `ok` is false where
      * `roomData.last()` throws on an empty page. */
    method LoadFromRoom(afterTime: int -> seq<CallLog>, census: set<int>, now: int) returns (ok: bool)
      requires Valid()
      modifies this
      ensures Valid() && State() == AfterLoadFromRoom(old(State()), afterTime, census, initialLoadSize, now)
      ensures ok <==> FirstPage(old(table), CallLogIdOf, initialLoadSize) != []
    {
      var roomData := FirstPage(table, CallLogIdOf, initialLoadSize);
      UpdateData(roomData);
      if roomData == [] {
        return false;
      }
      var bound := roomData[|roomData| - 1].callLogId;
      var roomDataAll := Below(table, CallLogIdOf, bound);
      var sortedPage := GetData();
      roomDataAll := sortedPage + roomDataAll;
      UpdateData(roomDataAll);
      OnCallLogsChanged(afterTime, census, now);
      ok := true;
    }

    /** `deleteCallLog`. */
    method DeleteCallLog(callLogEntity: CallLog)
      requires Valid()
      modifies this
      ensures Valid() && State() == AfterDelete(old(State()), callLogEntity)
    {
      effects := effects + [SystemDeleted(callLogEntity.callLogId)];
      DeleteByCallLogs([callLogEntity.callLogId]);
      var currentLogs := GetData();
      currentLogs := RemoveFirst(currentLogs, callLogEntity);
      UpdateData(currentLogs);
    }
  }
}
