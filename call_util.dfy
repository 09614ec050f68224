// The app module's call-log reader (`utils/core/CallUtil.kt`, object
// `CallLogUtil`): at most twenty rows of the system call log become
// `CallLogEntity` records, delivered as a list in cursor order and as an
// insertion-ordered map from each number to its records. The content
// resolver is a parameter: it returns no cursor or the rows it selects, in
// the default sort order. The phone-number library and the date formatter
// are parameters too; a number the library cannot parse makes the read
// throw.
module AppCallLogUtil {
  import opened Wrappers
  import opened Seqs
  import opened Entities
  import opened LinkedMap
  import CallText

  /** The cap on records read by one query. */
  const MAX_RECORDS: nat := 20

  /** The five projected columns of one call-log row. */
  datatype CallRow = CallRow(
    cachedName: Option<string>,
    number: string,
    date: int,
    duration: int,
    callType: int)

  /** What the reader takes from outside: whether libphonenumber's `parse`
    * accepts a number for region "CN" (it throws `NumberParseException`
    * otherwise), the English carrier name and the Chinese region description
    * it gives for a parsed number, and the "yyyy-MM-dd" and "HH:mm" texts of
    * an instant. */
  datatype Lookups = Lookups(
    parses: string -> bool,
    carrierEn: string -> string,
    description: string -> string,
    dayText: int -> string,
    clockText: int -> string)

  /** The record a row whose number parses becomes: no id yet (Room assigns
    * it), the date both as the timestamp and as its two texts, the carrier's
    * short name or "", and the region or "未知归属地". */
  function Decode(row: CallRow, lk: Lookups): (e: AppCallLog)
    ensures e.id == 0 && e.phoneNumber == row.number && e.name == row.cachedName
    ensures e.timestamp == row.date && e.duration == row.duration && e.callType == row.callType
    ensures e.date == lk.dayText(row.date) && e.time == lk.clockText(row.date)
    ensures e.belongPlace == CallText.CarrierLabel(lk.carrierEn(row.number), "")
    ensures e.netName == CallText.RegionLabel(lk.description(row.number), "未知归属地")
  {
    AppCallLog(
      0, row.number, row.cachedName, row.date, lk.dayText(row.date), lk.clockText(row.date),
      CallText.CarrierLabel(lk.carrierEn(row.number), ""),
      CallText.RegionLabel(lk.description(row.number), "未知归属地"),
      row.duration, row.callType)
  }

  function DecodeAll(rows: seq<CallRow>, lk: Lookups): (r: seq<AppCallLog>)
    ensures |r| == |rows|
    ensures forall i :: 0 <= i < |rows| ==> r[i] == Decode(rows[i], lk)
  {
    seq(|rows|, i requires 0 <= i < |rows| => Decode(rows[i], lk))
  }

  function NumberOf(e: AppCallLog): string { e.phoneNumber }

  /** Every row's number parses, so decoding the rows throws nothing. */
  predicate AllParse(rows: seq<CallRow>, lk: Lookups)
  {
    forall i :: 0 <= i < |rows| ==> lk.parses(rows[i].number)
  }

  /** The records with a given number, in list order. */
  function WithNumber(list: seq<AppCallLog>, n: string): (r: seq<AppCallLog>)
    ensures forall i :: 0 <= i < |r| ==> r[i].phoneNumber == n
  {
    if list == [] then []
    else if list[|list| - 1].phoneNumber == n then WithNumber(list[..|list| - 1], n) + [list[|list| - 1]]
    else WithNumber(list[..|list| - 1], n)
  }

  /** The map holds each number of the list once, in order of first
    * occurrence, and under it exactly that number's records in list order. */
  ghost predicate GroupsByNumber(byNumber: Linked<string, seq<AppCallLog>>, list: seq<AppCallLog>)
  {
    Valid(byNumber)
    && byNumber.keys == Distinct(Keys(list, NumberOf))
    && forall n :: n in byNumber.entries ==> byNumber.entries[n] == WithNumber(list, n)
  }

  /** One record filed under its number: a new list for a new number, else
    * appended to the number's list. */
  function File(m: Linked<string, seq<AppCallLog>>, e: AppCallLog): Linked<string, seq<AppCallLog>>
  {
    if e.phoneNumber in m.entries then Put(m, e.phoneNumber, m.entries[e.phoneNumber] + [e])
    else Put(m, e.phoneNumber, [e])
  }

  /** Filing one more record keeps the map a grouping of the longer list. */
  lemma FileGroups(m: Linked<string, seq<AppCallLog>>, list: seq<AppCallLog>, e: AppCallLog)
    requires GroupsByNumber(m, list)
    ensures GroupsByNumber(File(m, e), list + [e])
  {
    FileKeys(m, list, e);
    FileEntries(m, list, e);
  }

  lemma FileKeys(m: Linked<string, seq<AppCallLog>>, list: seq<AppCallLog>, e: AppCallLog)
    requires Valid(m) && m.keys == Distinct(Keys(list, NumberOf))
    ensures Valid(File(m, e)) && File(m, e).keys == Distinct(Keys(list + [e], NumberOf))
  {
    PutValid(m, e.phoneNumber, if e.phoneNumber in m.entries then m.entries[e.phoneNumber] + [e] else [e]);
    KeysConcat(list, [e], NumberOf);
    assert Keys([e], NumberOf) == [e.phoneNumber];
    DistinctSnoc(Keys(list, NumberOf), e.phoneNumber);
  }

  lemma FileEntries(m: Linked<string, seq<AppCallLog>>, list: seq<AppCallLog>, e: AppCallLog)
    requires GroupsByNumber(m, list)
    ensures forall n :: n in File(m, e).entries ==> File(m, e).entries[n] == WithNumber(list + [e], n)
  {
    var s := list + [e];
    assert s[..|s| - 1] == list;
    var r := File(m, e);
    forall n | n in r.entries ensures r.entries[n] == WithNumber(s, n) {
      if n != e.phoneNumber {
        assert n in m.entries;
      } else if e.phoneNumber !in m.entries {
        assert e.phoneNumber !in Distinct(Keys(list, NumberOf));
        NoneWithNumber(list, n);
      }
    }
  }

  /** A number that no record carries has no records. */
  lemma {:induction false} NoneWithNumber(list: seq<AppCallLog>, n: string)
    requires n !in Keys(list, NumberOf)
    ensures WithNumber(list, n) == []
  {
    if list != [] {
      var init := list[..|list| - 1];
      assert Keys(init, NumberOf) == Keys(list, NumberOf)[..|list| - 1];
      assert Keys(list, NumberOf)[|list| - 1] == list[|list| - 1].phoneNumber;
      NoneWithNumber(init, n);
    }
  }

  /** One turn of the loop at row `pos`: the record decoded, or a throw
    * when its number does not parse; then `callLogList.add` and the map
    * update. */
  method Turn(rows: seq<CallRow>, pos: nat, lk: Lookups,
              byNumber0: Linked<string, seq<AppCallLog>>, list0: seq<AppCallLog>)
    returns (threw: bool, byNumber: Linked<string, seq<AppCallLog>>, list: seq<AppCallLog>)
    requires pos < |rows| && list0 == DecodeAll(rows[..pos], lk)
    requires GroupsByNumber(byNumber0, list0)
    ensures threw <==> !lk.parses(rows[pos].number)
    ensures !threw ==> list == DecodeAll(rows[..pos + 1], lk) && GroupsByNumber(byNumber, list)
  {
    byNumber, list := byNumber0, list0;
    if !lk.parses(rows[pos].number) {
      return true, byNumber, list;
    }
    threw := false;
    var e := Decode(rows[pos], lk);
    FileGroups(byNumber0, list0, e);
    list := list0 + [e];
    if e.phoneNumber in byNumber0.entries {
      byNumber := Put(byNumber0, e.phoneNumber, byNumber0.entries[e.phoneNumber] + [e]);
    } else {
      byNumber := Put(byNumber0, e.phoneNumber, [e]);
    }
    DecodeAllSnoc(rows, pos, lk);
  }

  lemma DecodeAllSnoc(rows: seq<CallRow>, pos: nat, lk: Lookups)
    requires pos < |rows|
    ensures DecodeAll(rows[..pos + 1], lk) == DecodeAll(rows[..pos], lk) + [Decode(rows[pos], lk)]
  {
    var a, b := DecodeAll(rows[..pos + 1], lk), DecodeAll(rows[..pos], lk) + [Decode(rows[pos], lk)];
    assert |a| == |b|;
    forall i | 0 <= i < |a| ensures a[i] == b[i] {
      assert rows[..pos + 1][i] == rows[i];
    }
  }

  /** `queryData`: the `while (cursor.moveToNext() && count < 20)` loop. It
    * throws, leaving what it built unused, at the first of those rows whose
    * number does not parse. */
  method QueryData(rows: seq<CallRow>, lk: Lookups)
    returns (threw: bool, byNumber: Linked<string, seq<AppCallLog>>, list: seq<AppCallLog>)
    ensures threw <==> !AllParse(Take(rows, MAX_RECORDS), lk)
    ensures !threw ==> list == Take(DecodeAll(rows, lk), MAX_RECORDS)
    ensures !threw ==> GroupsByNumber(byNumber, list)
  {
    threw := false;
    byNumber := Linked([], map[]);
    list := [];
    var count := 0;
    var pos := 0;
    while pos < |rows| && count < MAX_RECORDS
      invariant 0 <= pos <= |rows| && count == pos <= MAX_RECORDS
      invariant list == DecodeAll(rows[..pos], lk)
      invariant GroupsByNumber(byNumber, list)
      invariant AllParse(rows[..pos], lk)
    {
      threw, byNumber, list := Turn(rows, pos, lk, byNumber, list);
      if threw {
        StopsAt(rows, lk, pos);
        return;
      }
      AllParseSnoc(rows, pos, lk);
      pos := pos + 1;
      count := count + 1;
    }
    RanOut(rows, lk, pos);
  }

  /** A row among the first `MAX_RECORDS` whose number fails makes the read throw. */
  lemma StopsAt(rows: seq<CallRow>, lk: Lookups, pos: nat)
    requires pos < |rows| && pos < MAX_RECORDS && !lk.parses(rows[pos].number)
    ensures !AllParse(Take(rows, MAX_RECORDS), lk)
  {
    assert Take(rows, MAX_RECORDS)[pos] == rows[pos];
  }

  /** When the loop runs out, its rows are the first `MAX_RECORDS`. */
  lemma RanOut(rows: seq<CallRow>, lk: Lookups, pos: nat)
    requires pos <= |rows| && pos <= MAX_RECORDS && (pos == |rows| || pos == MAX_RECORDS)
    requires AllParse(rows[..pos], lk)
    ensures AllParse(Take(rows, MAX_RECORDS), lk)
    ensures DecodeAll(rows[..pos], lk) == Take(DecodeAll(rows, lk), MAX_RECORDS)
  {
    assert Take(rows, MAX_RECORDS) == rows[..pos];
    var a, b := DecodeAll(rows[..pos], lk), DecodeAll(rows, lk)[..pos];
    forall i | 0 <= i < pos ensures a[i] == b[i] {
      assert rows[..pos][i] == rows[i];
    }
  }

  lemma AllParseSnoc(rows: seq<CallRow>, pos: nat, lk: Lookups)
    requires pos < |rows| && AllParse(rows[..pos], lk) && lk.parses(rows[pos].number)
    ensures AllParse(rows[..pos + 1], lk)
  {
    assert rows[..pos + 1] == rows[..pos] + [rows[pos]];
  }

  /** The rows the after-timestamp selection `date > ?` keeps. */
  function After(rows: seq<CallRow>, timestamp: int): (r: seq<CallRow>)
    ensures forall i :: 0 <= i < |r| ==> r[i] in rows && r[i].date > timestamp
    ensures forall i :: 0 <= i < |rows| && rows[i].date > timestamp ==> rows[i] in r
  {
    if rows == [] then []
    else if rows[0].date > timestamp then [rows[0]] + After(rows[1..], timestamp)
    else After(rows[1..], timestamp)
  }

  /** The values the callback receives. */
  datatype Delivery = Delivery(byNumber: Linked<string, seq<AppCallLog>>, list: seq<AppCallLog>)

  /** How a query ends: it returns without calling back, returns after
    * calling back once, or throws. */
  datatype Outcome = NoCallback | Callback(delivery: Delivery) | Thrown

  /** `queryCallLog`: without a cursor it returns and never calls back; else
    * it throws when one of the first twenty numbers does not parse, and
    * calls back with the first twenty records when none fails. */
  method QueryCallLog(cursor: Option<seq<CallRow>>, lk: Lookups) returns (r: Outcome)
    ensures r.NoCallback? <==> cursor.None?
    ensures r.Thrown? <==> cursor.Some? && !AllParse(Take(cursor.value, MAX_RECORDS), lk)
    ensures r.Callback? ==> r.delivery.list == Take(DecodeAll(cursor.value, lk), MAX_RECORDS)
    ensures r.Callback? ==> GroupsByNumber(r.delivery.byNumber, r.delivery.list)
  {
    r := NoCallback;
    if cursor.Some? {
      var threw, byNumber, list := QueryData(cursor.value, lk);
      r := if threw then Thrown else Callback(Delivery(byNumber, list));
    }
  }

  /** `queryCallLogAfterTimestamp`: the same, over the rows dated strictly
    * after the timestamp; `callLog` is what the resolver holds, or `None`
    * when it returns no cursor. */
  method QueryCallLogAfterTimestamp(callLog: Option<seq<CallRow>>, timestamp: int, lk: Lookups)
    returns (r: Outcome)
    ensures r.NoCallback? <==> callLog.None?
    ensures r.Thrown? <==> callLog.Some? && !AllParse(Take(After(callLog.value, timestamp), MAX_RECORDS), lk)
    ensures r.Callback? ==> r.delivery.list == Take(DecodeAll(After(callLog.value, timestamp), lk), MAX_RECORDS)
    ensures r.Callback? ==> GroupsByNumber(r.delivery.byNumber, r.delivery.list)
  {
    r := NoCallback;
    if callLog.Some? {
      var threw, byNumber, list := QueryData(After(callLog.value, timestamp), lk);
      r := if threw then Thrown else Callback(Delivery(byNumber, list));
    }
  }

  /** Every delivered record lies strictly after the timestamp, and there are
    * at most twenty. */
  lemma AfterTimestampBounds(rows: seq<CallRow>, timestamp: int, lk: Lookups)
    ensures var list := Take(DecodeAll(After(rows, timestamp), lk), MAX_RECORDS);
      |list| <= MAX_RECORDS && forall i :: 0 <= i < |list| ==> list[i].timestamp > timestamp
  {
  }

  /** With at most twenty rows every row is delivered, in order. */
  lemma FewRowsAllRead(rows: seq<CallRow>, lk: Lookups)
    requires |rows| <= MAX_RECORDS
    ensures Take(DecodeAll(rows, lk), MAX_RECORDS) == DecodeAll(rows, lk)
  {
  }

  /** `Σ |WithNumber(list, k)|` over the given keys. */
  function SumSizes(list: seq<AppCallLog>, keys: seq<string>): nat
  {
    if keys == [] then 0 else |WithNumber(list, keys[0])| + SumSizes(list, keys[1..])
  }

  /** How many times a key is listed. */
  function Occurrences(keys: seq<string>, n: string): nat
  {
    if keys == [] then 0 else (if keys[0] == n then 1 else 0) + Occurrences(keys[1..], n)
  }

  lemma {:induction false} SumSizesEmpty(keys: seq<string>)
    ensures SumSizes([], keys) == 0
  {
    if keys != [] {
      SumSizesEmpty(keys[1..]);
    }
  }

  /** One more record adds one for each time its number is listed. */
  lemma {:induction false} SumSizesSnoc(list: seq<AppCallLog>, e: AppCallLog, keys: seq<string>)
    ensures SumSizes(list + [e], keys) == SumSizes(list, keys) + Occurrences(keys, e.phoneNumber)
  {
    if keys != [] {
      var s := list + [e];
      assert s[..|s| - 1] == list;
      SumSizesSnoc(list, e, keys[1..]);
    }
  }

  lemma {:induction false} OccurrencesOfDistinct(keys: seq<string>, n: string)
    requires forall i, j :: 0 <= i < j < |keys| ==> keys[i] != keys[j]
    ensures Occurrences(keys, n) == if n in keys then 1 else 0
  {
    if keys != [] {
      OccurrencesOfDistinct(keys[1..], n);
      if keys[0] == n {
        assert n !in keys[1..] by {
          forall i | 0 <= i < |keys[1..]| ensures keys[1..][i] != n {
            assert keys[1..][i] == keys[i + 1];
          }
        }
      }
    }
  }

  /** With distinct keys covering every number, each record counts once. */
  lemma {:induction false} GroupSizes(list: seq<AppCallLog>, keys: seq<string>)
    requires forall i, j :: 0 <= i < j < |keys| ==> keys[i] != keys[j]
    requires forall i :: 0 <= i < |list| ==> list[i].phoneNumber in keys
    ensures SumSizes(list, keys) == |list|
  {
    if list == [] {
      SumSizesEmpty(keys);
    } else {
      var init, e := list[..|list| - 1], list[|list| - 1];
      assert list == init + [e];
      GroupSizes(init, keys);
      SumSizesSnoc(init, e, keys);
      OccurrencesOfDistinct(keys, e.phoneNumber);
    }
  }

  /** Each delivered record lies in the map exactly once: the sizes of the
    * map's lists add up to the list's length. */
  lemma GroupedOnce(byNumber: Linked<string, seq<AppCallLog>>, list: seq<AppCallLog>)
    requires GroupsByNumber(byNumber, list)
    ensures SumSizes(list, byNumber.keys) == |list|
  {
    forall i | 0 <= i < |list| ensures list[i].phoneNumber in byNumber.keys {
      assert Keys(list, NumberOf)[i] == list[i].phoneNumber;
    }
    GroupSizes(list, byNumber.keys);
  }
}
