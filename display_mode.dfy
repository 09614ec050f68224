// The three ways the recent-calls page lays out call-log records
// (`CallLogDisplayMode.kt`): one row per record, one row per contact or
// number, or one row per run of consecutive calls with the same party.
module CallLogDisplay {
  import opened Wrappers
  import opened Entities
  import opened Seqs
  import opened Sorting
  import Int32

  datatype DisplayMode = Timeline | MergedMode | ContinuousMerge

  datatype CallLogSummary = CallLogSummary(
    phoneNumber: string,
    name: Option<string>,
    lastCallTime: int,
    belongPlace: string,
    netName: string,
    callCount: int,
    totalDuration: int)

  datatype CallLogItem =
    | Single(entity: CallLog)
    | Merged(entities: seq<CallLog>, summary: CallLogSummary)

  /** The records an item stands for. */
  function ItemEntities(item: CallLogItem): seq<CallLog>
  {
    match item
    case Single(e) => [e]
    case Merged(es, _) => es
  }

  /** The time an item is ordered by. */
  function ItemTime(item: CallLogItem): int
  {
    match item
    case Single(e) => e.timestamp
    case Merged(_, s) => s.lastCallTime
  }

  /** The records of a list of items, in item order. */
  function AllEntities(items: seq<CallLogItem>): seq<CallLog>
  {
    if items == [] then [] else ItemEntities(items[0]) + AllEntities(items[1..])
  }

  // ---------------------------------------------------------------------------
  // Ordering: `sortedByDescending { it.timestamp }` is a stable sort under
  // "a may precede b when a is at least as recent".

  predicate NewerFirst(a: CallLog, b: CallLog) { a.timestamp >= b.timestamp }

  predicate ItemNewerFirst(a: CallLogItem, b: CallLogItem) { ItemTime(a) >= ItemTime(b) }

  function ByTimestampDesc(logs: seq<CallLog>): (r: seq<CallLog>)
    ensures |r| == |logs|
    ensures multiset(r) == multiset(logs)
  {
    SortBy(logs, NewerFirst)
  }

  lemma NewerFirstPreorder()
    ensures TotalPreorder(NewerFirst)
    ensures TotalPreorder(ItemNewerFirst)
  {
  }

  /** The descending sort yields the records newest first, as a permutation. */
  lemma ByTimestampDescSorted(logs: seq<CallLog>)
    ensures forall i, j :: 0 <= i < j < |logs| ==>
      ByTimestampDesc(logs)[i].timestamp >= ByTimestampDesc(logs)[j].timestamp
    ensures multiset(ByTimestampDesc(logs)) == multiset(logs)
  {
    NewerFirstPreorder();
    SortBySorted(logs, NewerFirst);
  }

  // ---------------------------------------------------------------------------
  // Building an item from a group of records.

  /** `maxBy { it.timestamp }`: the first record with the largest timestamp. */
  function NewestIndex(g: seq<CallLog>): (k: nat)
    requires g != []
    ensures k < |g|
    ensures forall i :: 0 <= i < |g| ==> g[i].timestamp <= g[k].timestamp
    ensures forall i :: 0 <= i < k ==> g[i].timestamp < g[k].timestamp
  {
    if |g| == 1 then 0
    else
      var j := NewestIndex(g[1..]);
      if g[0].timestamp >= g[1..][j].timestamp then 0 else j + 1
  }

  function Durations(g: seq<CallLog>): (r: seq<int>)
    ensures |r| == |g|
    ensures forall i :: 0 <= i < |g| ==> r[i] == g[i].duration
  {
    seq(|g|, i requires 0 <= i < |g| => g[i].duration)
  }

  /** `sumOf { it.duration }` in Kotlin `Int` arithmetic. */
  function TotalDuration(g: seq<CallLog>): int
  {
    Int32.Wrap(Sum(Durations(g)))
  }

  /** The summary of a group whose shown fields come from `rep`. */
  function SummaryOf(rep: CallLog, g: seq<CallLog>): CallLogSummary
  {
    CallLogSummary(rep.phoneNumber, rep.name, rep.timestamp, rep.belongPlace,
                   rep.netName, |g|, TotalDuration(g))
  }

  /** A group of the MERGED mode: the newest record represents it. */
  function GroupItem(g: seq<CallLog>): (item: CallLogItem)
    requires g != []
    ensures ItemEntities(item) == g
  {
    if |g| == 1 then Single(g[0]) else Merged(g, SummaryOf(g[NewestIndex(g)], g))
  }

  /** A run of the CONTINUOUS_MERGE mode: its first (newest) record represents it. */
  function RunItem(g: seq<CallLog>): (item: CallLogItem)
    requires g != []
    ensures ItemEntities(item) == g
  {
    if |g| == 1 then Single(g[0]) else Merged(g, SummaryOf(g[0], g))
  }

  // ---------------------------------------------------------------------------
  // TIMELINE

  function TimelineItems(logs: seq<CallLog>): (r: seq<CallLogItem>)
    ensures |r| == |logs|
  {
    seq(|logs|, i requires 0 <= i < |logs| => Single(logs[i]))
  }

  /** TIMELINE keeps every record, once, in input order, each as its own item. */
  lemma {:induction false} TimelineKeepsOrder(logs: seq<CallLog>)
    ensures |TimelineItems(logs)| == |logs|
    ensures forall i :: 0 <= i < |logs| ==> TimelineItems(logs)[i] == Single(logs[i])
    ensures AllEntities(TimelineItems(logs)) == logs
  {
    if logs != [] {
      TimelineKeepsOrder(logs[1..]);
      assert TimelineItems(logs)[1..] == TimelineItems(logs[1..]);
    }
  }

  // ---------------------------------------------------------------------------
  // MERGED: `groupBy` on "phone_<number>" when the contact id is 0 and on
  // "contact_<id>" otherwise. The two key prefixes differ, so the string key
  // is modelled by a two-case datatype that partitions the records the same way.

  datatype GroupKey = PhoneKey(number: string) | ContactKey(id: int)

  function KeyOf(e: CallLog): GroupKey
  {
    if e.contactId == 0 then PhoneKey(e.phoneNumber) else ContactKey(e.contactId)
  }

  function KeysOf(logs: seq<CallLog>): (r: seq<GroupKey>)
    ensures |r| == |logs|
    ensures forall i :: 0 <= i < |logs| ==> r[i] == KeyOf(logs[i])
  {
    seq(|logs|, i requires 0 <= i < |logs| => KeyOf(logs[i]))
  }

  /** The distinct keys in first-occurrence order, as `groupBy`'s map keeps them. */
  function FirstKeys(logs: seq<CallLog>): seq<GroupKey>
  {
    Distinct(KeysOf(logs))
  }

  /** The records with key `k`, in input order. */
  function WithKey(logs: seq<CallLog>, k: GroupKey): (r: seq<CallLog>)
    ensures |r| <= |logs|
    ensures forall i :: 0 <= i < |r| ==> KeyOf(r[i]) == k && r[i] in logs
    ensures k in KeysOf(logs) ==> r != []
  {
    if logs == [] then []
    else
      var rest := WithKey(logs[1..], k);
      assert k in KeysOf(logs) && KeyOf(logs[0]) != k ==> k in KeysOf(logs[1..]) by {
        if k in KeysOf(logs) && KeyOf(logs[0]) != k {
          var i :| 0 <= i < |logs| && KeysOf(logs)[i] == k;
          assert KeysOf(logs[1..])[i - 1] == k;
        }
      }
      if KeyOf(logs[0]) == k then [logs[0]] + rest else rest
  }

  function WithoutKey(logs: seq<CallLog>, k: GroupKey): (r: seq<CallLog>)
    ensures forall i :: 0 <= i < |r| ==> KeyOf(r[i]) != k && r[i] in logs
  {
    if logs == [] then []
    else if KeyOf(logs[0]) != k then [logs[0]] + WithoutKey(logs[1..], k)
    else WithoutKey(logs[1..], k)
  }

  function GroupsFor(ks: seq<GroupKey>, logs: seq<CallLog>): (r: seq<seq<CallLog>>)
    ensures |r| == |ks|
    ensures forall i :: 0 <= i < |ks| ==> r[i] == WithKey(logs, ks[i])
  {
    if ks == [] then [] else [WithKey(logs, ks[0])] + GroupsFor(ks[1..], logs)
  }

  /** `groupBy`: one group per distinct key, in first-occurrence order. */
  function GroupBy(logs: seq<CallLog>): (r: seq<seq<CallLog>>)
    ensures |r| == |FirstKeys(logs)|
    ensures forall i :: 0 <= i < |r| ==> r[i] == WithKey(logs, FirstKeys(logs)[i]) && r[i] != []
  {
    GroupsFor(FirstKeys(logs), logs)
  }

  function GroupItems(gs: seq<seq<CallLog>>): (r: seq<CallLogItem>)
    requires forall i :: 0 <= i < |gs| ==> gs[i] != []
    ensures |r| == |gs|
    ensures forall i :: 0 <= i < |gs| ==> r[i] == GroupItem(gs[i])
  {
    seq(|gs|, i requires 0 <= i < |gs| => GroupItem(gs[i]))
  }

  /** `mergeCallLogs`. */
  function MergeCallLogs(logs: seq<CallLog>): (r: seq<CallLogItem>)
    ensures |r| == |FirstKeys(logs)|
  {
    SortBy(GroupItems(GroupBy(logs)), ItemNewerFirst)
  }

  // Conservation of records through grouping and sorting.

  lemma {:induction false} WithKeySplit(logs: seq<CallLog>, k: GroupKey)
    ensures multiset(logs) == multiset(WithKey(logs, k)) + multiset(WithoutKey(logs, k))
  {
    if logs != [] {
      var x, rest := logs[0], logs[1..];
      WithKeySplit(rest, k);
      assert multiset(logs) == multiset{x} + multiset(rest) by {
        assert logs == [x] + rest;
      }
      if KeyOf(x) == k {
        assert WithKey(logs, k) == [x] + WithKey(rest, k);
        assert WithoutKey(logs, k) == WithoutKey(rest, k);
      } else {
        assert WithKey(logs, k) == WithKey(rest, k);
        assert WithoutKey(logs, k) == [x] + WithoutKey(rest, k);
      }
    }
  }

  lemma {:induction false} WithKeyOfWithout(logs: seq<CallLog>, k0: GroupKey, k: GroupKey)
    requires k != k0
    ensures WithKey(WithoutKey(logs, k0), k) == WithKey(logs, k)
  {
    if logs != [] {
      WithKeyOfWithout(logs[1..], k0, k);
    }
  }

  /** The records whose key is not among `ks`. */
  function Uncovered(logs: seq<CallLog>, ks: seq<GroupKey>): seq<CallLog>
  {
    if logs == [] then []
    else (if KeyOf(logs[0]) in ks then [] else [logs[0]]) + Uncovered(logs[1..], ks)
  }

  lemma {:induction false} UncoveredNone(logs: seq<CallLog>, ks: seq<GroupKey>)
    requires forall i :: 0 <= i < |logs| ==> KeyOf(logs[i]) in ks
    ensures Uncovered(logs, ks) == []
  {
    if logs != [] {
      UncoveredNone(logs[1..], ks);
    }
  }

  lemma {:induction false} UncoveredByNoKeys(logs: seq<CallLog>)
    ensures Uncovered(logs, []) == logs
  {
    if logs != [] {
      UncoveredByNoKeys(logs[1..]);
      assert logs == [logs[0]] + logs[1..];
    }
  }

  lemma {:induction false} UncoveredStep(logs: seq<CallLog>, ks: seq<GroupKey>)
    requires ks != []
    ensures Uncovered(WithoutKey(logs, ks[0]), ks[1..]) == Uncovered(logs, ks)
  {
    if logs != [] {
      UncoveredStep(logs[1..], ks);
      assert KeyOf(logs[0]) in ks <==> KeyOf(logs[0]) == ks[0] || KeyOf(logs[0]) in ks[1..] by {
        assert ks == [ks[0]] + ks[1..];
      }
    }
  }

  /** With distinct keys covering every record, the groups hold every record once. */
  lemma {:induction false} GroupsCover(ks: seq<GroupKey>, logs: seq<CallLog>)
    requires forall i, j :: 0 <= i < j < |ks| ==> ks[i] != ks[j]
    requires Uncovered(logs, ks) == []
    ensures multiset(Flatten(GroupsFor(ks, logs))) == multiset(logs)
  {
    if ks == [] {
      UncoveredByNoKeys(logs);
    } else {
      var k0 := ks[0];
      var rest := WithoutKey(logs, k0);
      WithKeySplit(logs, k0);
      UncoveredStep(logs, ks);
      GroupsCover(ks[1..], rest);
      assert GroupsFor(ks[1..], logs) == GroupsFor(ks[1..], rest) by {
        forall i | 0 <= i < |ks| - 1 ensures GroupsFor(ks[1..], logs)[i] == GroupsFor(ks[1..], rest)[i] {
          assert ks[1..][i] != k0;
          WithKeyOfWithout(logs, k0, ks[1..][i]);
        }
      }
    }
  }

  lemma {:induction false} GroupItemsEntities(gs: seq<seq<CallLog>>)
    requires forall i :: 0 <= i < |gs| ==> gs[i] != []
    ensures AllEntities(GroupItems(gs)) == Flatten(gs)
  {
    if gs != [] {
      GroupItemsEntities(gs[1..]);
      assert GroupItems(gs)[1..] == GroupItems(gs[1..]);
    }
  }

  lemma {:induction false} InsertEntities(x: CallLogItem, s: seq<CallLogItem>, le: (CallLogItem, CallLogItem) -> bool)
    ensures multiset(AllEntities(Insert(x, s, le))) == multiset(ItemEntities(x)) + multiset(AllEntities(s))
  {
    if s != [] && !le(x, s[0]) {
      InsertEntities(x, s[1..], le);
      assert Insert(x, s, le)[1..] == Insert(x, s[1..], le);
    }
  }

  lemma {:induction false} SortEntities(s: seq<CallLogItem>, le: (CallLogItem, CallLogItem) -> bool)
    ensures multiset(AllEntities(SortBy(s, le))) == multiset(AllEntities(s))
  {
    if s != [] {
      SortEntities(s[1..], le);
      InsertEntities(s[0], SortBy(s[1..], le), le);
    }
  }

  lemma KeysCovered(logs: seq<CallLog>)
    ensures forall i :: 0 <= i < |FirstKeys(logs)| ==> FirstKeys(logs)[i] in KeysOf(logs)
    ensures forall i :: 0 <= i < |logs| ==> KeyOf(logs[i]) in FirstKeys(logs)
  {
    assert forall i :: 0 <= i < |logs| ==> KeysOf(logs)[i] in FirstKeys(logs);
  }

  /** MERGED keeps every record exactly once: the items' records are a
    * permutation of the input, so their total count is the input length. */
  lemma MergedConservesRecords(logs: seq<CallLog>)
    ensures multiset(AllEntities(MergeCallLogs(logs))) == multiset(logs)
    ensures |AllEntities(MergeCallLogs(logs))| == |logs|
  {
    KeysCovered(logs);
    UncoveredNone(logs, FirstKeys(logs));
    GroupsCover(FirstKeys(logs), logs);
    GroupItemsEntities(GroupBy(logs));
    SortEntities(GroupItems(GroupBy(logs)), ItemNewerFirst);
    assert |multiset(AllEntities(MergeCallLogs(logs)))| == |multiset(logs)|;
  }

  /** MERGED has one item per distinct key, ordered newest first. */
  lemma MergedOnePerKeySorted(logs: seq<CallLog>)
    ensures |MergeCallLogs(logs)| == |FirstKeys(logs)|
    ensures forall i, j :: 0 <= i < j < |MergeCallLogs(logs)| ==>
      ItemTime(MergeCallLogs(logs)[i]) >= ItemTime(MergeCallLogs(logs)[j])
  {
    NewerFirstPreorder();
    SortBySorted(GroupItems(GroupBy(logs)), ItemNewerFirst);
  }

  /** Every MERGED item is the item of the group of one distinct key, that
    * is, of the records carrying that key in input order. */
  lemma MergedItemIsGroup(logs: seq<CallLog>, item: CallLogItem)
    requires item in MergeCallLogs(logs)
    ensures exists k :: k in FirstKeys(logs) && item == GroupItem(WithKey(logs, k))
  {
    var items := GroupItems(GroupBy(logs));
    var sorted := SortBy(items, ItemNewerFirst);
    assert multiset(sorted) == multiset(items);
    assert item in multiset(sorted);
    assert item in multiset(items);
    var i :| 0 <= i < |items| && items[i] == item;
    assert FirstKeys(logs)[i] in FirstKeys(logs);
  }

  /** The item of a group: a lone record stays `Single`; otherwise the summary
    * counts the group, sums its durations in `Int` arithmetic and shows the
    * first record with the largest timestamp. */
  lemma GroupItemSummary(g: seq<CallLog>)
    requires g != []
    ensures GroupItem(g).Single? <==> |g| == 1
    ensures GroupItem(g).Merged? ==>
      var sm := GroupItem(g).summary;
      var rep := g[NewestIndex(g)];
      GroupItem(g).entities == g &&
      sm.callCount == |g| &&
      sm.totalDuration == Int32.Wrap(Sum(Durations(g))) &&
      (forall i :: 0 <= i < |g| ==> g[i].timestamp <= sm.lastCallTime) &&
      (forall i :: 0 <= i < NewestIndex(g) ==> g[i].timestamp < sm.lastCallTime) &&
      sm.lastCallTime == rep.timestamp &&
      sm.phoneNumber == rep.phoneNumber &&
      sm.name == rep.name &&
      sm.belongPlace == rep.belongPlace &&
      sm.netName == rep.netName
  {
  }

  // ---------------------------------------------------------------------------
  // CONTINUOUS_MERGE

  /** `isSameContact`: contact ids decide when both are known, numbers otherwise. */
  predicate SameContact(a: CallLog, b: CallLog)
  {
    if a.contactId != 0 && b.contactId != 0 then a.contactId == b.contactId
    else a.phoneNumber == b.phoneNumber
  }

  function Last<T>(s: seq<T>): T
    requires s != []
  {
    s[|s| - 1]
  }

  /** The runs the scan builds: each record joins the current run when it is
    * the same contact as the run's last record, and starts a new run otherwise. */
  function Runs(s: seq<CallLog>): (r: seq<seq<CallLog>>)
    ensures (r == []) == (s == [])
    ensures forall k :: 0 <= k < |r| ==> r[k] != []
    ensures r != [] ==> Last(Last(r)) == Last(s)
  {
    if s == [] then []
    else
      var r := Runs(s[..|s| - 1]);
      var x := s[|s| - 1];
      if r == [] then [[x]]
      else if SameContact(Last(Last(r)), x) then r[..|r| - 1] + [Last(r) + [x]]
      else r + [[x]]
  }

  /** A list of runs is maximal when every run is non-empty, neighbours inside
    * a run are the same contact, and the boundary between runs is not. */
  ghost predicate MaximalRuns(rs: seq<seq<CallLog>>)
  {
    (forall k :: 0 <= k < |rs| ==> rs[k] != []) &&
    (forall k, j :: 0 <= k < |rs| && 0 <= j < |rs[k]| - 1 ==> SameContact(rs[k][j], rs[k][j + 1])) &&
    (forall k :: 0 <= k < |rs| - 1 ==> !SameContact(Last(rs[k]), rs[k + 1][0]))
  }

  lemma MaximalStartRun(rs: seq<seq<CallLog>>, x: CallLog)
    requires MaximalRuns(rs) && rs != [] && !SameContact(Last(Last(rs)), x)
    ensures MaximalRuns(rs + [[x]])
  {
    var rs' := rs + [[x]];
    forall k | 0 <= k < |rs'| - 1 ensures !SameContact(Last(rs'[k]), rs'[k + 1][0]) {
      assert rs'[k] == rs[k];
    }
    forall k, j | 0 <= k < |rs'| && 0 <= j < |rs'[k]| - 1 ensures SameContact(rs'[k][j], rs'[k][j + 1]) {
      assert rs'[k] == rs[k];
    }
  }

  lemma MaximalExtendRun(rs: seq<seq<CallLog>>, x: CallLog)
    requires MaximalRuns(rs) && rs != [] && SameContact(Last(Last(rs)), x)
    ensures MaximalRuns(rs[..|rs| - 1] + [Last(rs) + [x]])
  {
    var n := |rs| - 1;
    var rs' := rs[..n] + [Last(rs) + [x]];
    forall k | 0 <= k < |rs'| - 1 ensures !SameContact(Last(rs'[k]), rs'[k + 1][0]) {
      assert rs'[k] == rs[k];
      assert rs'[k + 1][0] == rs[k + 1][0];
    }
    forall k, j | 0 <= k < |rs'| && 0 <= j < |rs'[k]| - 1 ensures SameContact(rs'[k][j], rs'[k][j + 1]) {
      if k < n {
        assert rs'[k] == rs[k];
      } else if j + 1 < |rs[n]| {
        assert rs'[k][j] == rs[n][j] && rs'[k][j + 1] == rs[n][j + 1];
      }
    }
  }

  lemma MaximalDropRun(rs: seq<seq<CallLog>>)
    requires MaximalRuns(rs) && rs != []
    ensures MaximalRuns(rs[..|rs| - 1])
  {
    var rs' := rs[..|rs| - 1];
    forall k | 0 <= k < |rs'| - 1 ensures !SameContact(Last(rs'[k]), rs'[k + 1][0]) {
      assert rs'[k] == rs[k] && rs'[k + 1] == rs[k + 1];
    }
  }

  lemma MaximalShrinkRun(rs: seq<seq<CallLog>>)
    requires MaximalRuns(rs) && rs != [] && |Last(rs)| > 1
    ensures MaximalRuns(rs[..|rs| - 1] + [Last(rs)[..|Last(rs)| - 1]])
  {
    var n := |rs| - 1;
    var g := Last(rs);
    var rs' := rs[..n] + [g[..|g| - 1]];
    forall k | 0 <= k < |rs'| - 1 ensures !SameContact(Last(rs'[k]), rs'[k + 1][0]) {
      assert rs'[k] == rs[k];
      assert rs'[k + 1][0] == rs[k + 1][0];
    }
    forall k, j | 0 <= k < |rs'| && 0 <= j < |rs'[k]| - 1 ensures SameContact(rs'[k][j], rs'[k][j + 1]) {
      if k < n {
        assert rs'[k] == rs[k];
      } else {
        assert rs'[k][j] == rs[n][j] && rs'[k][j + 1] == rs[n][j + 1];
      }
    }
  }

  /** The scan keeps every record, in order. */
  lemma {:induction false} RunsFlatten(s: seq<CallLog>)
    ensures Flatten(Runs(s)) == s
  {
    if s != [] {
      var p := s[..|s| - 1];
      var x := s[|s| - 1];
      RunsFlatten(p);
      var r := Runs(p);
      assert s == p + [x];
      if r == [] {
        FlattenSnoc(r, [x]);
      } else if SameContact(Last(Last(r)), x) {
        var front, g := r[..|r| - 1], Last(r);
        assert Flatten(Runs(s)) == Flatten(front) + (g + [x]) by {
          FlattenSnoc(front, g + [x]);
        }
        assert Flatten(r) == Flatten(front) + g by {
          assert r == front + [g];
          FlattenSnoc(front, g);
        }
      } else {
        FlattenSnoc(r, [x]);
      }
    }
  }

  /** The scan's runs are maximal. */
  lemma {:induction false} RunsMaximal(s: seq<CallLog>)
    ensures MaximalRuns(Runs(s))
  {
    if s != [] {
      var p := s[..|s| - 1];
      var x := s[|s| - 1];
      RunsMaximal(p);
      var r := Runs(p);
      if r != [] {
        if SameContact(Last(Last(r)), x) {
          MaximalExtendRun(r, x);
        } else {
          MaximalStartRun(r, x);
        }
      }
    }
  }

  lemma FlattenLast(rs: seq<seq<CallLog>>)
    requires rs != [] && Last(rs) != []
    ensures Flatten(rs) != [] && Last(Flatten(rs)) == Last(Last(rs))
    ensures Flatten(rs)[..|Flatten(rs)| - 1] == Flatten(rs[..|rs| - 1] + [Last(rs)[..|Last(rs)| - 1]])
  {
    var front := rs[..|rs| - 1];
    var g := Last(rs);
    var f := Flatten(front);
    var h := g[..|g| - 1];
    assert Flatten(rs) == f + g by {
      assert rs == front + [g];
      FlattenSnoc(front, g);
    }
    assert Flatten(front + [h]) == f + h by {
      FlattenSnoc(front, h);
    }
    assert f + g == (f + h) + [Last(g)] by {
      assert g == h + [Last(g)];
    }
  }

  lemma FlattenDropEmpty(front: seq<seq<CallLog>>)
    ensures Flatten(front + [[]]) == Flatten(front)
  {
    var none: seq<CallLog> := [];
    FlattenSnoc(front, none);
    assert Flatten(front) + none == Flatten(front);
  }

  /** Maximal runs are unique: any decomposition of `s` into maximal runs is the
    * one the scan produces. */
  lemma {:induction false} MaximalRunsUnique(rs: seq<seq<CallLog>>, s: seq<CallLog>)
    requires MaximalRuns(rs) && Flatten(rs) == s
    ensures rs == Runs(s)
    decreases |s|, 1
  {
    if rs != [] {
      if |Last(rs)| == 1 {
        UniqueEndingInSingle(rs, s);
      } else {
        UniqueEndingInLonger(rs, s);
      }
    }
  }

  lemma {:induction false} UniqueEndingInSingle(rs: seq<seq<CallLog>>, s: seq<CallLog>)
    requires MaximalRuns(rs) && Flatten(rs) == s && rs != [] && |Last(rs)| == 1
    ensures rs == Runs(s)
    decreases |s|, 0
  {
    var front, g := rs[..|rs| - 1], Last(rs);
    DropLastRun(rs, s);
    FlattenLast(rs);
    MaximalRunsUnique(front, s[..|s| - 1]);
    UniqueNewRun(front, Last(s), s);
    assert g == [Last(s)];
    assert rs == front + [g];
  }

  lemma {:induction false} UniqueEndingInLonger(rs: seq<seq<CallLog>>, s: seq<CallLog>)
    requires MaximalRuns(rs) && Flatten(rs) == s && rs != [] && |Last(rs)| != 1
    ensures rs == Runs(s)
    decreases |s|, 0
  {
    var front, g := rs[..|rs| - 1], Last(rs);
    ShrinkLastRun(rs, s);
    MaximalRunsUnique(front + [g[..|g| - 1]], s[..|s| - 1]);
    UniqueJoinRun(front, g, s);
    assert rs == front + [g];
  }

  /** Without a last run of one record, the rest are maximal runs of the rest,
    * and their last record is not the same contact as the dropped one. */
  lemma DropLastRun(rs: seq<seq<CallLog>>, s: seq<CallLog>)
    requires MaximalRuns(rs) && Flatten(rs) == s && rs != [] && |Last(rs)| == 1
    ensures s != []
    ensures MaximalRuns(rs[..|rs| - 1]) && Flatten(rs[..|rs| - 1]) == s[..|s| - 1]
    ensures rs[..|rs| - 1] != [] ==> !SameContact(Last(Last(rs[..|rs| - 1])), Last(s))
  {
    FlattenLast(rs);
    var g := Last(rs);
    assert g[..0] == [];
    FlattenDropEmpty(rs[..|rs| - 1]);
    MaximalDropRun(rs);
    if |rs| > 1 {
      assert !SameContact(Last(rs[|rs| - 2]), rs[|rs| - 1][0]);
    }
  }

  /** Without the last record of a longer last run, the runs are maximal runs
    * of the rest, and the last two records of that run are the same contact. */
  lemma ShrinkLastRun(rs: seq<seq<CallLog>>, s: seq<CallLog>)
    requires MaximalRuns(rs) && Flatten(rs) == s && rs != [] && |Last(rs)| != 1
    ensures s != []
    ensures var g := Last(rs);
      |g| > 1 && MaximalRuns(rs[..|rs| - 1] + [g[..|g| - 1]])
      && Flatten(rs[..|rs| - 1] + [g[..|g| - 1]]) == s[..|s| - 1]
      && SameContact(g[|g| - 2], g[|g| - 1]) && Last(s) == Last(g)
  {
    FlattenLast(rs);
    MaximalShrinkRun(rs);
    var g := Last(rs);
    assert SameContact(rs[|rs| - 1][|g| - 2], rs[|rs| - 1][|g| - 1]);
  }

  /** A record that is not the same contact as the last one opens a new run. */
  lemma UniqueNewRun(front: seq<seq<CallLog>>, x: CallLog, s: seq<CallLog>)
    requires s != [] && Last(s) == x && Runs(s[..|s| - 1]) == front
    requires front != [] ==> !SameContact(Last(Last(front)), x)
    ensures Runs(s) == front + [[x]]
  {
  }

  /** A record that is the same contact as the last one joins its run. */
  lemma UniqueJoinRun(front: seq<seq<CallLog>>, g: seq<CallLog>, s: seq<CallLog>)
    requires |g| > 1 && s != [] && Last(s) == Last(g)
    requires SameContact(g[|g| - 2], g[|g| - 1])
    requires Runs(s[..|s| - 1]) == front + [g[..|g| - 1]]
    ensures Runs(s) == front + [g]
  {
    var r := front + [g[..|g| - 1]];
    assert Last(Last(r)) == g[|g| - 2];
    assert r[..|r| - 1] == front;
    assert Last(r) + [Last(s)] == g;
  }

  function RunItems(rs: seq<seq<CallLog>>): (r: seq<CallLogItem>)
    requires forall k :: 0 <= k < |rs| ==> rs[k] != []
    ensures |r| == |rs|
    ensures forall k :: 0 <= k < |rs| ==> r[k] == RunItem(rs[k])
  {
    seq(|rs|, k requires 0 <= k < |rs| => RunItem(rs[k]))
  }

  /** What `mergeContinuousCallLogs` yields for an already sorted list. */
  function ContinuousItems(sorted: seq<CallLog>): seq<CallLogItem>
  {
    RunItems(Runs(sorted))
  }

  lemma {:induction false} RunItemsEntities(rs: seq<seq<CallLog>>)
    requires forall k :: 0 <= k < |rs| ==> rs[k] != []
    ensures AllEntities(RunItems(rs)) == Flatten(rs)
  {
    if rs != [] {
      RunItemsEntities(rs[1..]);
      assert RunItems(rs)[1..] == RunItems(rs[1..]);
    }
  }

  /** CONTINUOUS_MERGE is an order-preserving partition of the newest-first list
    * into maximal runs, one item per run; no input gives no items. */
  lemma ContinuousPartition(logs: seq<CallLog>)
    ensures AllEntities(ContinuousItems(ByTimestampDesc(logs))) == ByTimestampDesc(logs)
    ensures MaximalRuns(Runs(ByTimestampDesc(logs)))
    ensures logs == [] ==> ContinuousItems(ByTimestampDesc(logs)) == []
    ensures forall k :: 0 <= k < |ContinuousItems(ByTimestampDesc(logs))| ==>
      var item := ContinuousItems(ByTimestampDesc(logs))[k];
      (item.Single? <==> |ItemEntities(item)| == 1) &&
      (item.Merged? ==> item.summary.lastCallTime == item.entities[0].timestamp &&
                        item.summary.callCount == |item.entities|)
  {
    var s := ByTimestampDesc(logs);
    RunsFlatten(s);
    RunsMaximal(s);
    RunItemsEntities(Runs(s));
  }

  /** `addGroupToResult`: closes the current run (if any) into an item and
    * empties it. */
  method AddGroupToResult(result: seq<CallLogItem>, currentGroup: seq<CallLog>)
    returns (newResult: seq<CallLogItem>, newGroup: seq<CallLog>)
    ensures newGroup == []
    ensures currentGroup == [] ==> newResult == result
    ensures currentGroup != [] ==> newResult == result + [RunItem(currentGroup)]
    ensures currentGroup != [] ==> ItemEntities(Last(newResult)) == currentGroup
  {
    if currentGroup == [] {
      return result, currentGroup;
    }
    if |currentGroup| == 1 {
      newResult := result + [Single(currentGroup[0])];
    } else {
      var firstLog := currentGroup[0];
      newResult := result + [Merged(currentGroup, SummaryOf(firstLog, currentGroup))];
    }
    newGroup := [];
  }

  /** One more record: the runs of a longer prefix, from those of the shorter. */
  lemma RunsStep(s: seq<CallLog>, i: nat)
    requires i < |s|
    ensures Runs(s[..i + 1]) ==
      var r, x := Runs(s[..i]), s[i];
      if r == [] then [[x]]
      else if SameContact(Last(Last(r)), x) then r[..|r| - 1] + [Last(r) + [x]]
      else r + [[x]]
  {
    assert s[..i + 1][..i] == s[..i];
  }

  /** The scan's first record opens the first run. */
  lemma ScanStart(s: seq<CallLog>)
    requires s != []
    ensures Runs(s[..1]) == [[s[0]]]
  {
    RunsStep(s, 0);
  }

  /** A record that is the same contact as the open run's last one joins it. */
  lemma ScanJoin(s: seq<CallLog>, i: nat, done: seq<seq<CallLog>>, g: seq<CallLog>)
    requires i < |s| && g != [] && Runs(s[..i]) == done + [g] && SameContact(Last(g), s[i])
    ensures Runs(s[..i + 1]) == done + [g + [s[i]]]
  {
    var r := done + [g];
    RunsStep(s, i);
    assert r[..|r| - 1] == done && Last(r) == g;
  }

  /** Any other record closes the open run and opens a new one. */
  lemma ScanSplit(s: seq<CallLog>, i: nat, done: seq<seq<CallLog>>, g: seq<CallLog>)
    requires i < |s| && g != [] && Runs(s[..i]) == done + [g] && !SameContact(Last(g), s[i])
    ensures Runs(s[..i + 1]) == (done + [g]) + [[s[i]]]
  {
    var r := done + [g];
    RunsStep(s, i);
    assert Last(r) == g;
  }

  lemma RunItemsSnoc(rs: seq<seq<CallLog>>, g: seq<CallLog>)
    requires forall k :: 0 <= k < |rs| ==> rs[k] != []
    requires g != []
    ensures RunItems(rs + [g]) == RunItems(rs) + [RunItem(g)]
  {
  }

  /** `mergeContinuousCallLogs`: sorts newest first, then scans for runs. */
  method MergeContinuousCallLogs(callLogs: seq<CallLog>) returns (result: seq<CallLogItem>)
    ensures result == ContinuousItems(ByTimestampDesc(callLogs))
  {
    var sortedLogs := ByTimestampDesc(callLogs);
    result := ScanRuns(sortedLogs);
  }

  /** The scan of `mergeContinuousCallLogs` over the sorted list: one item per run. */
  method ScanRuns(sortedLogs: seq<CallLog>) returns (result: seq<CallLogItem>)
    ensures result == RunItems(Runs(sortedLogs))
  {
    result := [];
    var currentGroup: seq<CallLog> := [];
    ghost var done: seq<seq<CallLog>> := [];
    var i := 0;
    while i < |sortedLogs|
      invariant 0 <= i <= |sortedLogs|
      invariant forall k :: 0 <= k < |done| ==> done[k] != []
      invariant result == RunItems(done)
      invariant i == 0 ==> currentGroup == [] && done == []
      invariant i > 0 ==> currentGroup != [] && Runs(sortedLogs[..i]) == done + [currentGroup]
    {
      var currentLog := sortedLogs[i];
      if currentGroup == [] {
        ScanStart(sortedLogs);
        currentGroup := [currentLog];
      } else {
        var lastLog := currentGroup[|currentGroup| - 1];
        if SameContact(lastLog, currentLog) {
          ScanJoin(sortedLogs, i, done, currentGroup);
          currentGroup := currentGroup + [currentLog];
        } else {
          ScanSplit(sortedLogs, i, done, currentGroup);
          RunItemsSnoc(done, currentGroup);
          done := done + [currentGroup];
          result, currentGroup := AddGroupToResult(result, currentGroup);
          currentGroup := [currentLog];
        }
      }
      i := i + 1;
    }
    assert sortedLogs[..i] == sortedLogs;
    if currentGroup == [] {
      assert sortedLogs == [];
    } else {
      RunItemsSnoc(done, currentGroup);
      done := done + [currentGroup];
      result, currentGroup := AddGroupToResult(result, currentGroup);
    }
  }

  /** `processCallLogs`. CONTINUOUS_MERGE sorts before calling the scan, which
    * sorts again; a stable sort of a sorted list changes nothing. */
  method ProcessCallLogs(logs: seq<CallLog>, mode: DisplayMode) returns (items: seq<CallLogItem>)
    ensures mode == Timeline ==> items == TimelineItems(logs)
    ensures mode == MergedMode ==> items == MergeCallLogs(logs)
    ensures mode == ContinuousMerge ==> items == ContinuousItems(ByTimestampDesc(logs))
  {
    match mode
    case Timeline =>
      items := TimelineItems(logs);
    case MergedMode =>
      items := MergeCallLogs(logs);
    case ContinuousMerge =>
      items := MergeContinuousCallLogs(ByTimestampDesc(logs));
      NewerFirstPreorder();
      SortByIdempotent(logs, NewerFirst);
  }

  /** A record without a contact id and one with contact id 7, same number:
    * the continuous scan joins them, the MERGED grouping keeps them apart. */
  lemma UnknownAndKnownContactDiffer()
    ensures
      var a := CallLog(1, 0, "10086", None, 200, "", "", "", "", 5, 1, "");
      var b := CallLog(2, 7, "10086", None, 100, "", "", "", "", 5, 1, "");
      SameContact(a, b) && KeyOf(a) != KeyOf(b) &&
      |MergeCallLogs([a, b])| == 2 &&
      |ContinuousItems(ByTimestampDesc([a, b]))| == 1
  {
    var a := CallLog(1, 0, "10086", None, 200, "", "", "", "", 5, 1, "");
    var b := CallLog(2, 7, "10086", None, 100, "", "", "", "", 5, 1, "");
    var ka, kb := KeyOf(a), KeyOf(b);
    assert KeysOf([a, b]) == [ka, kb];
    assert [ka, kb][1..] == [kb];
    assert [kb][1..] == [];
    assert ka != kb;
    assert [] + [ka] == [ka] && [ka] + [kb] == [ka, kb];
    assert DistinctFrom([], [ka, kb]) == [ka, kb];
    assert DistinctFrom([kb], [ka]) == [ka, kb];
    assert DistinctFrom([ka, kb], []) == [ka, kb];
    assert ByTimestampDesc([a, b]) == [a, b] by {
      SortBySortedIdentity([a, b], NewerFirst);
    }
    assert [a, b][..1] == [a];
    assert [a][..0] == [];
    assert Runs([a]) == [[a]];
    assert Runs([a, b]) == [[a, b]];
  }
}
