// The smaller contact queries of `ContactQueryManager` and `ContactUtil`:
// the id census, the id behind one phone number, the number-to-id map, and
// the query for contacts updated after a time. Each cursor is the sequence of
// rows the provider delivers for the query (a null cursor delivers none).
module ContactLookup {
  import opened Wrappers
  import opened Entities
  import opened Rows
  import opened Text
  import opened Seqs
  import opened ContactData
  import opened ContactQuery

  /** `ContactsContract.Contacts._ID`. */
  const ID := "_id"
  /** `Phone.NUMBER` (the `data1` column of a phone row). */
  const NUMBER := DATA1

  /** `queryAllContactIds` / `queryAllContactId`: the `_ID` of every row, in order. */
  method QueryAllContactIds(rows: seq<Row>) returns (ids: seq<int>)
    ensures |ids| == |rows|
    ensures forall i :: 0 <= i < |rows| ==> ids[i] == GetLongValue(rows[i], ID)
  {
    ids := [];
    var i := 0;
    while i < |rows|
      invariant 0 <= i <= |rows| && |ids| == i
      invariant forall k :: 0 <= k < i ==> ids[k] == GetLongValue(rows[k], ID)
    {
      ids := ids + [GetLongValue(rows[i], ID)];
      i := i + 1;
    }
  }

  /** The number a phone row carries, as read for the lookups. */
  function NumberOf(row: Row): string
  {
    GetStringValue(row, NUMBER)
  }

  /** The rows the provider returns for `"number = ?"` with argument `phone`. */
  function RowsWithNumber(rows: seq<Row>, phone: string): (r: seq<Row>)
    ensures forall i :: 0 <= i < |r| ==> NumberOf(r[i]) == phone
  {
    Filter(rows, row => NumberOf(row) == phone)
  }

  /** `getContactIdByPhone`: the contact id of the first matching row, or 0
    * when no row matches (or there is no cursor). */
  function ContactIdByPhone(rows: seq<Row>, phone: string): (r: int)
  {
    var matching := RowsWithNumber(rows, phone);
    if matching == [] then 0 else GetLongValue(matching[0], CONTACT_ID)
  }

  /** The first phone row with the number gives the id. */
  lemma {:induction false} ContactIdByPhoneFirst(rows: seq<Row>, phone: string, i: nat)
    requires i < |rows| && NumberOf(rows[i]) == phone
    requires forall j :: 0 <= j < i ==> NumberOf(rows[j]) != phone
    ensures ContactIdByPhone(rows, phone) == GetLongValue(rows[i], CONTACT_ID)
  {
    if i > 0 {
      ContactIdByPhoneFirst(rows[1..], phone, i - 1);
    }
  }

  /** No row with the number: the id is 0. */
  lemma {:induction false} ContactIdByPhoneAbsent(rows: seq<Row>, phone: string)
    requires forall j :: 0 <= j < |rows| ==> NumberOf(rows[j]) != phone
    ensures ContactIdByPhone(rows, phone) == 0
  {
    if rows != [] {
      ContactIdByPhoneAbsent(rows[1..], phone);
    }
  }

  /** What `getContactIdsWithPhoneNumbers` builds from the rows read so far:
    * rows with an empty number are skipped and a later row overwrites an
    * earlier one with the same number. */
  function PhoneIds(rows: seq<Row>): map<string, int>
  {
    if rows == [] then map[]
    else
      var m := PhoneIds(rows[..|rows| - 1]);
      var row := rows[|rows| - 1];
      if NumberOf(row) == "" then m else m[NumberOf(row) := GetLongValue(row, CONTACT_ID)]
  }

  /** `getContactIdsWithPhoneNumbers`: the number-to-id map, filled row by row. */
  method ContactIdsWithPhoneNumbers(rows: seq<Row>) returns (ids: map<string, int>)
    ensures ids == PhoneIds(rows)
  {
    ids := map[];
    var i := 0;
    while i < |rows|
      invariant 0 <= i <= |rows|
      invariant ids == PhoneIds(rows[..i])
    {
      var number := GetStringValue(rows[i], NUMBER);
      var contactId := GetLongValue(rows[i], CONTACT_ID);
      if number != "" {
        ids := ids[number := contactId];
      }
      assert rows[..i + 1][..i] == rows[..i];
      i := i + 1;
    }
    assert rows[..i] == rows;
  }

  /** The keys are exactly the non-empty numbers of the rows. */
  lemma {:induction false} PhoneIdsKeys(rows: seq<Row>, number: string)
    ensures number in PhoneIds(rows) <==>
      number != "" && exists i :: 0 <= i < |rows| && NumberOf(rows[i]) == number
  {
    if rows != [] {
      var n := |rows| - 1;
      PhoneIdsKeys(rows[..n], number);
      if number in PhoneIds(rows[..n]) {
        var i :| 0 <= i < n && NumberOf(rows[..n][i]) == number;
        assert NumberOf(rows[i]) == number;
      }
      if exists i :: 0 <= i < |rows| && NumberOf(rows[i]) == number {
        var i :| 0 <= i < |rows| && NumberOf(rows[i]) == number;
        if i < n {
          assert NumberOf(rows[..n][i]) == number;
        }
      }
    }
  }

  /** Last write wins: a number maps to the id of the last row carrying it. */
  lemma {:induction false} PhoneIdsLastWins(rows: seq<Row>, i: nat)
    requires i < |rows| && NumberOf(rows[i]) != ""
    requires forall j :: i < j < |rows| ==> NumberOf(rows[j]) != NumberOf(rows[i])
    ensures NumberOf(rows[i]) in PhoneIds(rows)
    ensures PhoneIds(rows)[NumberOf(rows[i])] == GetLongValue(rows[i], CONTACT_ID)
  {
    var n := |rows| - 1;
    var key := NumberOf(rows[i]);
    if i < n {
      var init := rows[..n];
      assert init[i] == rows[i];
      assert forall j :: i < j < |init| ==> init[j] == rows[j];
      PhoneIdsLastWins(init, i);
      assert NumberOf(rows[n]) != key;
      assert PhoneIds(rows) == var m := PhoneIds(init);
        if NumberOf(rows[n]) == "" then m else m[NumberOf(rows[n]) := GetLongValue(rows[n], CONTACT_ID)];
    }
  }

  /** The arguments a content query is issued with. */
  datatype DataQuery = DataQuery(
    selection: Option<string>,
    selectionArgs: Option<seq<string>>,
    sortOrder: Option<string>,
    maxCount: Option<int>)

  /** `queryUpdatedContacts(lastUpdateTime)`: update time strictly after the
    * argument, by display name, no cap. */
  function UpdatedContactsQuery(lastUpdateTime: int): (q: DataQuery)
    ensures q.selectionArgs.Some? && |q.selectionArgs.value| == 1
    ensures TextToInt(q.selectionArgs.value[0]) == lastUpdateTime
    ensures q.maxCount.None?
  {
    TextToIntOfDecimal(lastUpdateTime);
    DataQuery(Some(LAST_UPDATED + " > ?"), Some([IntToDecimal(lastUpdateTime)]),
      Some(DISPLAY_NAME + " COLLATE LOCALIZED ASC"), None)
  }

  /** How the provider reads the selection `LAST_UPDATED > ?`: the row's
    * update time compared with the argument read as an integer. */
  predicate UpdatedAfterArg(row: Row, args: seq<string>)
    requires |args| == 1
  {
    GetLongValue(row, LAST_UPDATED) > TextToInt(args[0])
  }

  /** The rows `queryUpdatedContacts` receives out of all data rows. */
  function UpdatedRows(rows: seq<Row>, lastUpdateTime: int): seq<Row>
  {
    var args := UpdatedContactsQuery(lastUpdateTime).selectionArgs.value;
    Filter(rows, row => UpdatedAfterArg(row, args))
  }

  /** `queryUpdatedContacts`: the contacts built from the selected rows. */
  function QueryUpdatedContacts(rows: seq<Row>, lastUpdateTime: int, photoOf: int -> Option<Bitmap>): seq<ContactPerson>
  {
    QueryResult(UpdatedRows(rows, lastUpdateTime), UpdatedContactsQuery(lastUpdateTime).maxCount, photoOf)
  }

  /** The selection keeps exactly the rows updated strictly after the time. */
  lemma UpdatedRowsSelect(rows: seq<Row>, lastUpdateTime: int, row: Row)
    ensures row in UpdatedRows(rows, lastUpdateTime) <==>
      row in rows && GetLongValue(row, LAST_UPDATED) > lastUpdateTime
  {
  }

  /** Every contact `queryUpdatedContacts` returns was updated strictly after
    * `lastUpdateTime`. */
  lemma UpdatedContactsNewer(rows: seq<Row>, lastUpdateTime: int, photoOf: int -> Option<Bitmap>, k: nat)
    requires k < |QueryUpdatedContacts(rows, lastUpdateTime, photoOf)|
    ensures QueryUpdatedContacts(rows, lastUpdateTime, photoOf)[k].baseInfo.updateTime > lastUpdateTime
  {
    var sel := UpdatedRows(rows, lastUpdateTime);
    QueryFirstRows(sel, None, photoOf, k);
    var c := QueryResult(sel, None, photoOf)[k];
    var first := IndexOfKey(sel, RowContactId, ContactIdOf(c));
    assert sel[first] in sel;
  }
}
