// `CallLogService`: the service object's copy of the call-log sync. It keeps
// the same table and cursor as `CallLogManager`, but sorts with
// `EntityDataProcessing.recentSort` (date, then time, as strings), sorts every
// merge before publishing it, advances the cursor after publishing, and lets
// each INIT batch replace the snapshot instead of extending it.
module CallLogServiceSync {
  import opened Wrappers
  import opened Seqs
  import opened Sorting
  import opened ListSort
  import opened Entities
  import opened Reconcile
  import opened Store
  import opened SyncSteps
  import opened EntityProcessing
  import CL = CallLogSync

  /** `_currentCallLog.value = list`: published as it stands. */
  function Show(b: CL.CallBooks, list: seq<CallLog>): CL.CallBooks
  {
    b.(calls := list, effects := b.effects + [Published(list)])
  }

  /** `updateCallLogsWithNewRecords`: a non-empty delta upserted and merged
    * with new ids in front, the ids the census lacks deleted if there are
    * any, the result `recentSort`ed and published, then the cursor advanced. */
  function ServicePass(b: CL.CallBooks, delta: seq<CallLog>, census: set<int>, now: int): CL.CallBooks
  {
    var b1 := if delta == [] then b else CL.Upsert(b, delta);
    var stale := CL.CallStale(b.calls, delta, census);
    var b2 := if stale == [] then b1 else CL.DeleteIds(b1, stale);
    CL.SetCursor(Show(b2, SortBy(CL.CallMerged(b.calls, delta, census), RecentFirst)), now)
  }

  /** `initializeCallLogs` over the batches still to come: each batch
    * `recentSort`ed, published in place of the snapshot, and upserted. */
  function AfterInitBatches(b: CL.CallBooks, batches: seq<seq<CallLog>>): CL.CallBooks
    decreases batches
  {
    if batches == [] then b
    else
      var sorted := SortBy(batches[0], RecentFirst);
      AfterInitBatches(CL.Upsert(Show(b, sorted), sorted), batches[1..])
  }

  /** `loadSortedCallLogsFromRoom`: every stored record, `recentSort`ed, as
    * the snapshot. */
  function AfterLoadSorted(b: CL.CallBooks): CL.CallBooks
  {
    Show(b, SortBy(b.table, RecentFirst))
  }

  /** `loadCallLogsFromRoom`: the stored records, then a pass over what the
    * AFTER_TIME query returns for the cursor. */
  function AfterLoadFromRoom(b: CL.CallBooks, afterTime: int -> seq<CallLog>, census: set<int>, now: int)
    : CL.CallBooks
  {
    var b1 := AfterLoadSorted(b);
    ServicePass(b1, afterTime(b1.callLogTime), census, now)
  }

  /** A service pass publishes the merge sorted newest day and time first,
    * then advances the cursor: a call-log id survives exactly when the
    * snapshot or the delta has it and the census does, a delta record
    * replaces the old one, and every other record is the snapshot's. */
  lemma ServicePassOutcome(b: CL.CallBooks, delta: seq<CallLog>, census: set<int>, now: int, k: int)
    requires DistinctKeys(b.calls, CallLogIdOf) && DistinctKeys(delta, CallLogIdOf)
    ensures var after := ServicePass(b, delta, census, now);
      var r := after.calls;
      && Sorted(r, RecentFirst)
      && (HasKey(r, CallLogIdOf, k) <==> (HasKey(b.calls, CallLogIdOf, k) || HasKey(delta, CallLogIdOf, k)) && k in census)
      && (forall i :: 0 <= i < |r| && CallLogIdOf(r[i]) in AssociateBy(delta, CallLogIdOf) ==>
            r[i] == AssociateBy(delta, CallLogIdOf)[CallLogIdOf(r[i])])
      && (forall i :: 0 <= i < |r| && CallLogIdOf(r[i]) !in AssociateBy(delta, CallLogIdOf) ==> r[i] in b.calls)
      && after.callLogTime == now
      && |after.effects| >= 2
      && after.effects[|after.effects| - 2] == Published(r)
      && after.effects[|after.effects| - 1] == CursorSet(now)
  {
    var m := CL.CallMerged(b.calls, delta, census);
    var r := SortBy(m, RecentFirst);
    RecentFirstPreorder();
    SortBySorted(m, RecentFirst);
    CL.CallMergedOutcome(b.calls, delta, census, k);
    PermutationKeys(r, m, CallLogIdOf, k);
    forall i | 0 <= i < |r| ensures
      (CallLogIdOf(r[i]) in AssociateBy(delta, CallLogIdOf) ==> r[i] == AssociateBy(delta, CallLogIdOf)[CallLogIdOf(r[i])])
      && (CallLogIdOf(r[i]) !in AssociateBy(delta, CallLogIdOf) ==> r[i] in b.calls)
    {
      var j :| 0 <= j < |m| && m[j] == r[i];
    }
  }

  /** What a service pass leaves in the table: a stale id is gone; a delta id
    * finds the delta's last record with it; any other id finds what it found
    * before. */
  lemma ServicePassTable(b: CL.CallBooks, delta: seq<CallLog>, census: set<int>, now: int, k: int)
    ensures Lookup(ServicePass(b, delta, census, now).table, CallLogIdOf, k) ==
      if k in CL.CallStale(b.calls, delta, census) then None
      else if k in AssociateBy(delta, CallLogIdOf) then Some(AssociateBy(delta, CallLogIdOf)[k])
      else Lookup(b.table, CallLogIdOf, k)
  {
    var t1 := if delta == [] then b.table else UpsertRows(b.table, delta, CallLogIdOf);
    UpsertRowsLookup(b.table, delta, CallLogIdOf, k);
    DeleteInLookup(t1, CallLogIdOf, CL.CallStale(b.calls, delta, census), k);
  }

  /** The books just before the last INIT batch. */
  function BeforeLastBatch(b: CL.CallBooks, batches: seq<seq<CallLog>>): CL.CallBooks
    requires batches != []
    decreases batches
  {
    if |batches| == 1 then b
    else
      var sorted := SortBy(batches[0], RecentFirst);
      BeforeLastBatch(CL.Upsert(Show(b, sorted), sorted), batches[1..])
  }

  /** The last INIT step: the last batch, sorted, published and upserted. */
  lemma {:induction false} InitEndsWithLast(b: CL.CallBooks, batches: seq<seq<CallLog>>)
    requires batches != []
    ensures var sorted := SortBy(batches[|batches| - 1], RecentFirst);
      var p := BeforeLastBatch(b, batches);
      AfterInitBatches(b, batches) == CL.Upsert(Show(p, sorted), sorted)
    decreases batches
  {
    if |batches| == 1 {
      assert batches[1..] == [];
    } else {
      var sorted := SortBy(batches[0], RecentFirst);
      InitEndsWithLast(CL.Upsert(Show(b, sorted), sorted), batches[1..]);
      assert batches[1..][|batches[1..]| - 1] == batches[|batches| - 1];
    }
  }

  /** Each INIT batch replaces the snapshot rather than extending it: after
    * the last batch the snapshot is that batch, sorted, and every record of
    * it is stored as delivered (the last one with each id). */
  lemma InitLastBatchWins(b: CL.CallBooks, batches: seq<seq<CallLog>>, k: int)
    requires batches != []
    ensures var last := SortBy(batches[|batches| - 1], RecentFirst);
      var after := AfterInitBatches(b, batches);
      && after.calls == last
      && (k in AssociateBy(last, CallLogIdOf) ==> Lookup(after.table, CallLogIdOf, k) == Some(AssociateBy(last, CallLogIdOf)[k]))
  {
    var last := SortBy(batches[|batches| - 1], RecentFirst);
    InitEndsWithLast(b, batches);
    var p := BeforeLastBatch(b, batches);
    UpsertRowsLookup(p.table, last, CallLogIdOf, k);
  }

  /** The store-first delivery holds every stored record once, newest first. */
  lemma LoadSortedShown(b: CL.CallBooks)
    ensures Sorted(AfterLoadSorted(b).calls, RecentFirst)
    ensures multiset(AfterLoadSorted(b).calls) == multiset(b.table)
  {
    RecentFirstPreorder();
    SortBySorted(b.table, RecentFirst);
  }

  class CallLogService {
    /** `_currentCallLog.value`. */
    var calls: seq<CallLog>
    /** The Room `call_log` table. */
    var table: seq<CallLog>
    /** The DataStore call-log cursor. */
    var callLogTime: int
    /** Everything the service has done outside its own lists, in order. */
    var effects: seq<CL.CallEffect>

    ghost predicate Valid()
      reads this
    {
      DistinctKeys(table, CallLogIdOf)
    }

    function State(): CL.CallBooks
      reads this
    {
      CL.CallBooks(calls, table, callLogTime, effects)
    }

    constructor(table0: seq<CallLog>, time0: int)
      requires DistinctKeys(table0, CallLogIdOf)
      ensures Valid()
      ensures State() == CL.CallBooks([], table0, time0, [])
    {
      calls := [];
      table := table0;
      callLogTime := time0;
      effects := [];
    }

    method Publish(list: seq<CallLog>)
      requires Valid()
      modifies this
      ensures Valid() && State() == Show(old(State()), list)
    {
      calls := list;
      effects := effects + [Published(list)];
    }

    method Upsert(list: seq<CallLog>)
      requires Valid()
      modifies this
      ensures Valid() && State() == CL.Upsert(old(State()), list)
    {
      UpsertRowsDistinct(table, list, CallLogIdOf);
      table := UpsertRows(table, list, CallLogIdOf);
      effects := effects + [Upserted(list)];
    }

    method DeleteByCallLogs(ids: seq<int>)
      requires Valid()
      modifies this
      ensures Valid() && State() == CL.DeleteIds(old(State()), ids)
    {
      DeleteInDistinct(table, CallLogIdOf, ids);
      table := DeleteIn(table, CallLogIdOf, ids);
      effects := effects + [Deleted(ids)];
    }

    method UpdateCallLogTime(now: int)
      requires Valid()
      modifies this
      ensures Valid() && State() == CL.SetCursor(old(State()), now)
    {
      callLogTime := now;
      effects := effects + [CursorSet(now)];
    }

    /** `updateCallLogsWithNewRecords`. */
    method UpdateCallLogsWithNewRecords(newCallLogs: seq<CallLog>, census: set<int>, now: int)
      returns (currentCallLogs: seq<CallLog>)
      requires Valid()
      modifies this
      ensures Valid() && State() == ServicePass(old(State()), newCallLogs, census, now)
      ensures currentCallLogs == calls
    {
      currentCallLogs := calls;
      if newCallLogs != [] {
        Upsert(newCallLogs);
        currentCallLogs := PrependAndReplace(currentCallLogs, newCallLogs, CallLogIdOf);
      }
      assert currentCallLogs == MergePrepend(old(calls), newCallLogs, CallLogIdOf);
      var idsToDelete := StaleIds(currentCallLogs, CallLogIdOf, census);
      if idsToDelete != [] {
        DeleteByCallLogs(idsToDelete);
        currentCallLogs := RemoveIds(currentCallLogs, CallLogIdOf, idsToDelete);
      } else {
        RemoveNoIds(currentCallLogs, CallLogIdOf);
      }
      RemoveStaleIds(MergePrepend(old(calls), newCallLogs, CallLogIdOf), CallLogIdOf, census);
      currentCallLogs := SortSeq(currentCallLogs, RecentFirst);
      Publish(currentCallLogs);
      UpdateCallLogTime(now);
    }

    /** `initializeCallLogs`: each INIT batch sorted, published, upserted. */
    method InitializeCallLogs(batches: seq<seq<CallLog>>)
      requires Valid()
      modifies this
      ensures Valid() && State() == AfterInitBatches(old(State()), batches)
    {
      var i := 0;
      while i < |batches|
        invariant 0 <= i <= |batches|
        invariant Valid() && AfterInitBatches(State(), batches[i..]) == AfterInitBatches(old(State()), batches)
      {
        var list := SortSeq(batches[i], RecentFirst);
        assert batches[i..][1..] == batches[i + 1..];
        Publish(list);
        Upsert(list);
        i := i + 1;
      }
    }

    /** `loadSortedCallLogsFromRoom`. */
    method LoadSortedCallLogsFromRoom() returns (callLogList: seq<CallLog>)
      requires Valid()
      modifies this
      ensures Valid() && State() == AfterLoadSorted(old(State()))
      ensures callLogList == calls
    {
      callLogList := SortSeq(table, RecentFirst);
      Publish(callLogList);
    }

    /** `loadCallLogsFromRoom`: the two lists handed to `updateData`, in order. */
    method LoadCallLogsFromRoom(afterTime: int -> seq<CallLog>, census: set<int>, now: int)
      returns (fromRoom: seq<CallLog>, latest: seq<CallLog>)
      requires Valid()
      modifies this
      ensures Valid() && State() == AfterLoadFromRoom(old(State()), afterTime, census, now)
      ensures fromRoom == SortBy(old(table), RecentFirst) && latest == calls
    {
      fromRoom := LoadSortedCallLogsFromRoom();
      var newLogs := afterTime(callLogTime);
      latest := UpdateCallLogsWithNewRecords(newLogs, census, now);
    }

    /** The change observer: a pass over the delivered records, then the
      * snapshot handed to the callback. */
    method OnCallLogsChanged(newCallLogs: seq<CallLog>, census: set<int>, now: int) returns (shown: seq<CallLog>)
      requires Valid()
      modifies this
      ensures Valid() && State() == ServicePass(old(State()), newCallLogs, census, now)
      ensures shown == calls
    {
      var _ := UpdateCallLogsWithNewRecords(newCallLogs, census, now);
      shown := calls;
    }
  }
}
