// The call-log row processors (`CallLogProcessor.kt`): the factory that
// picks one per query type, the record each cursor row becomes, and the five
// `process` loops. A cursor is the sequence of rows the resolver delivers,
// or `None` for a null cursor; the contacts provider's phone rows stand for
// `getContactIdsWithPhoneNumbers` and `getContactIdByPhone`. The callback of
// the INIT processor is modelled by the list of batches it receives.
module CallLogProcessing {
  import opened Wrappers
  import opened Seqs
  import opened Rows
  import opened Entities
  import opened CallLogQueries
  import Text
  import SimInfo
  import ContactData
  import ContactLookup

  datatype ProcessorKind =
    | DefaultProcessor | SingleProcessor | IdOnlyProcessor | TimeBasedProcessor | InitProcessor

  /** `CallLogProcessorFactory.create`. */
  function CreateProcessor(t: QueryType): ProcessorKind
  {
    match t
    case DEFAULT => DefaultProcessor
    case BY_PHONE => SingleProcessor
    case ALL_IDS => IdOnlyProcessor
    case AFTER_TIME => TimeBasedProcessor
    case INIT => InitProcessor
  }

  /** Each query type has its own processor, and every processor serves one. */
  lemma ProcessorPerType(t: QueryType, u: QueryType, k: ProcessorKind)
    ensures CreateProcessor(t) == CreateProcessor(u) ==> t == u
    ensures exists v :: CreateProcessor(v) == k
    ensures CreateProcessor(t) == InitProcessor <==> t == INIT
  {
    match k
    case DefaultProcessor => assert CreateProcessor(DEFAULT) == k;
    case SingleProcessor => assert CreateProcessor(BY_PHONE) == k;
    case IdOnlyProcessor => assert CreateProcessor(ALL_IDS) == k;
    case TimeBasedProcessor => assert CreateProcessor(AFTER_TIME) == k;
    case InitProcessor => assert CreateProcessor(INIT) == k;
  }

  /** What a processor reads besides its cursor: the active SIM
    * subscriptions, and the "yyyy-MM-dd" and "HH:mm:ss.SSS" texts of an
    * instant. */
  datatype Env = Env(subs: SimInfo.Subscriptions, dayText: int -> string, clockText: int -> string)

  /** `createCallLogEntity`: the timestamp is the DATE column, the carrier
    * and region are left empty, the SIM label is chosen from the account id
    * column (read as "" when missing), and the contact id is the given one. */
  function CreateCallLogEntity(row: Row, env: Env, contactId: int := 0): (e: CallLog)
    ensures e.timestamp == GetLongValue(row, DATE) && e.contactId == contactId
    ensures e.belongPlace == "" && e.netName == ""
    ensures e.callLogId == GetLongValue(row, ID) && e.phoneNumber == GetStringValue(row, NUMBER)
    ensures e.name == Some(GetStringValue(row, NAME))
    ensures e.duration == GetIntValue(row, DURATION) && e.callType == GetIntValue(row, TYPE)
    ensures e.date == env.dayText(e.timestamp) && e.time == env.clockText(e.timestamp)
    ensures e.simInfo == SimInfo.SimLabel(Some(GetStringValue(row, PHONE_ACCOUNT_ID)), env.subs)
  {
    var dateLong := GetLongValue(row, DATE);
    CallLog(
      GetLongValue(row, ID), contactId, GetStringValue(row, NUMBER), Some(GetStringValue(row, NAME)),
      dateLong, env.dayText(dateLong), env.clockText(dateLong), "", "",
      GetIntValue(row, DURATION), GetIntValue(row, TYPE),
      SimInfo.SimLabel(Some(GetStringValue(row, PHONE_ACCOUNT_ID)), env.subs))
  }

  /** A row without a usable account id gets the unknown-SIM label. */
  lemma NoAccountUnknownSim(row: Row, env: Env, contactId: int)
    requires !Readable(row, PHONE_ACCOUNT_ID)
    ensures CreateCallLogEntity(row, env, contactId).simInfo == SimInfo.UNKNOWN_SIM
  {
    assert Filter("", SimInfo.IsKotlinDigit) == [];
  }

  function RowNumber(row: Row): string { GetStringValue(row, NUMBER) }

  /** `map[key] ?: 0`. */
  function IdOr0(m: map<string, int>, key: string): int
  {
    if key in m then m[key] else 0
  }

  /** The records of the DEFAULT and INIT processors: each row with the id
    * the number-to-contact map gives its number, or 0. */
  function MappedEntities(rows: seq<Row>, env: Env, ids: map<string, int>): (r: seq<CallLog>)
    ensures |r| == |rows|
    ensures forall i :: 0 <= i < |rows| ==> r[i] == CreateCallLogEntity(rows[i], env, IdOr0(ids, RowNumber(rows[i])))
  {
    seq(|rows|, i requires 0 <= i < |rows| => CreateCallLogEntity(rows[i], env, IdOr0(ids, RowNumber(rows[i]))))
  }

  /** `DefaultCallLogProcessor.process`. */
  method ProcessDefault(cursor: Option<seq<Row>>, phoneRows: seq<Row>, env: Env) returns (list: seq<CallLog>)
    ensures cursor.None? ==> list == []
    ensures cursor.Some? ==> list == MappedEntities(cursor.value, env, ContactLookup.PhoneIds(phoneRows))
  {
    list := [];
    if cursor.None? {
      return;
    }
    var rows := cursor.value;
    var contactIdMap := ContactLookup.ContactIdsWithPhoneNumbers(phoneRows);
    ghost var want := MappedEntities(rows, env, contactIdMap);
    var pos := 0;
    while pos < |rows|
      invariant 0 <= pos <= |rows| && list <= want && |list| == pos
    {
      var number := GetStringValue(rows[pos], NUMBER);
      var entity := CreateCallLogEntity(rows[pos], env, IdOr0(contactIdMap, number));
      PrefixSnoc(list, want);
      list := list + [entity];
      pos := pos + 1;
    }
  }

  /** A number no phone row carries (or the empty number) gets contact 0. */
  lemma UnmappedNumber(phoneRows: seq<Row>, number: string)
    requires number == "" || forall j :: 0 <= j < |phoneRows| ==> ContactLookup.NumberOf(phoneRows[j]) != number
    ensures IdOr0(ContactLookup.PhoneIds(phoneRows), number) == 0
  {
    ContactLookup.PhoneIdsKeys(phoneRows, number);
  }

  /** Otherwise it gets the contact of the last phone row carrying it. */
  lemma MappedNumber(phoneRows: seq<Row>, number: string, i: nat)
    requires i < |phoneRows| && number != "" && ContactLookup.NumberOf(phoneRows[i]) == number
    requires forall j :: i < j < |phoneRows| ==> ContactLookup.NumberOf(phoneRows[j]) != number
    ensures IdOr0(ContactLookup.PhoneIds(phoneRows), number) == GetLongValue(phoneRows[i], ContactData.CONTACT_ID)
  {
    ContactLookup.PhoneIdsLastWins(phoneRows, i);
  }

  /** Every batch but the last holds exactly `size` records and the last
    * fewer; together, in order, they are `all`. */
  ghost predicate Chunked(batches: seq<seq<CallLog>>, all: seq<CallLog>, size: nat)
  {
    && batches != []
    && (forall i :: 0 <= i < |batches| - 1 ==> |batches[i]| == size)
    && |batches[|batches| - 1]| < size
    && Flatten(batches) == all
  }

  /** `InitCallLogProcessor.process`: each time the list reaches `size`
    * records it goes to the callback and a new list starts; the last list,
    * possibly empty, goes to the callback as well and is returned. */
  method ProcessInit(cursor: Option<seq<Row>>, phoneRows: seq<Row>, env: Env, size: nat)
    returns (batches: seq<seq<CallLog>>, list: seq<CallLog>)
    requires size > 0
    ensures cursor.None? ==> batches == [] && list == []
    ensures cursor.Some? ==> Chunked(batches, MappedEntities(cursor.value, env, ContactLookup.PhoneIds(phoneRows)), size)
    ensures cursor.Some? ==> list == batches[|batches| - 1]
  {
    batches := [];
    list := [];
    if cursor.None? {
      return;
    }
    var rows := cursor.value;
    var contactIdMap := ContactLookup.ContactIdsWithPhoneNumbers(phoneRows);
    ghost var want := MappedEntities(rows, env, contactIdMap);
    var pos := 0;
    while pos < |rows|
      invariant 0 <= pos <= |rows|
      invariant Flatten(batches) + list <= want && |Flatten(batches) + list| == pos
      invariant |list| < size
      invariant forall i :: 0 <= i < |batches| ==> |batches[i]| == size
    {
      var number := GetStringValue(rows[pos], NUMBER);
      var entity := CreateCallLogEntity(rows[pos], env, IdOr0(contactIdMap, number));
      PrefixSnoc(Flatten(batches) + list, want);
      AppendTwice(Flatten(batches), list, [entity]);
      list := list + [entity];
      if |list| == size {
        FlattenSnoc(batches, list);
        batches := batches + [list];
        list := [];
      }
      pos := pos + 1;
    }
    FlattenSnoc(batches, list);
    batches := batches + [list];
  }

  /** The batches are `|rows| / size` full ones and the remainder. */
  lemma {:induction false} BatchCount(batches: seq<seq<CallLog>>, all: seq<CallLog>, size: nat)
    requires size > 0 && Chunked(batches, all, size)
    ensures |all| == (|batches| - 1) * size + |batches[|batches| - 1]|
  {
    var k := |batches| - 1;
    var r := |batches[k]|;
    FullBatchesLength(batches[..k], size);
    assert batches == batches[..k] + [batches[k]];
    FlattenSnoc(batches[..k], batches[k]);
  }

  lemma {:induction false} FullBatchesLength(batches: seq<seq<CallLog>>, size: nat)
    requires forall i :: 0 <= i < |batches| ==> |batches[i]| == size
    ensures |Flatten(batches)| == |batches| * size
  {
    if batches != [] {
      FullBatchesLength(batches[1..], size);
    }
  }

  /** The records of the BY_PHONE processor: each row with the contact its
    * own number looks up. */
  function LookedUpEntities(rows: seq<Row>, env: Env, phoneRows: seq<Row>): (r: seq<CallLog>)
    ensures |r| == |rows|
    ensures forall i :: 0 <= i < |rows| ==>
      r[i] == CreateCallLogEntity(rows[i], env, ContactLookup.ContactIdByPhone(phoneRows, RowNumber(rows[i])))
  {
    seq(|rows|, i requires 0 <= i < |rows| =>
      CreateCallLogEntity(rows[i], env, ContactLookup.ContactIdByPhone(phoneRows, RowNumber(rows[i]))))
  }

  /** `SingleCallLogProcessor.process`: each row's contact is looked up by
    * its number on its own. */
  method ProcessSingle(cursor: Option<seq<Row>>, phoneRows: seq<Row>, env: Env) returns (list: seq<CallLog>)
    ensures cursor.None? ==> list == []
    ensures cursor.Some? ==> list == LookedUpEntities(cursor.value, env, phoneRows)
  {
    list := [];
    if cursor.None? {
      return;
    }
    var rows := cursor.value;
    ghost var want := LookedUpEntities(rows, env, phoneRows);
    var pos := 0;
    while pos < |rows|
      invariant 0 <= pos <= |rows| && list <= want && |list| == pos
    {
      var number := GetStringValue(rows[pos], NUMBER);
      var contactId := ContactLookup.ContactIdByPhone(phoneRows, number);
      PrefixSnoc(list, want);
      list := list + [CreateCallLogEntity(rows[pos], env, contactId)];
      pos := pos + 1;
    }
  }

  /** The record of the ALL_IDS processor: the id and nothing else. */
  function IdOnly(callLogId: int): CallLog
  {
    CallLog(callLogId, 0, "", Some(""), 0, "", "", "", "", 0, 0, "")
  }

  /** `IdOnlyCallLogProcessor.process`: one id-only record per row; a null
    * cursor gives none. */
  method ProcessIdOnly(cursor: Option<seq<Row>>) returns (list: seq<CallLog>)
    ensures cursor.None? ==> list == []
    ensures cursor.Some? ==> Keys(list, CallLogIdOf) == Keys(cursor.value, RowId)
    ensures forall i :: 0 <= i < |list| ==> list[i] == IdOnly(list[i].callLogId)
  {
    list := [];
    if cursor.None? {
      return;
    }
    var rows := cursor.value;
    var pos := 0;
    while pos < |rows|
      invariant 0 <= pos <= |rows| && |list| == pos
      invariant forall i :: 0 <= i < pos ==> list[i] == IdOnly(GetLongValue(rows[i], ID))
    {
      list := list + [IdOnly(GetLongValue(rows[pos], ID))];
      pos := pos + 1;
    }
  }

  function RowId(row: Row): int { GetLongValue(row, ID) }

  /** The contact id the AFTER_TIME processor gives a number: from the full
    * number-to-contact map when more than `size` records were read, else
    * from a lookup of that number. */
  function TimeBasedContactId(phoneRows: seq<Row>, many: bool, number: string): int
  {
    if many then IdOr0(ContactLookup.PhoneIds(phoneRows), number)
    else ContactLookup.ContactIdByPhone(phoneRows, number)
  }

  /** The records as first read by the AFTER_TIME processor, with contact 0. */
  function UnlinkedEntities(rows: seq<Row>, env: Env): (r: seq<CallLog>)
    ensures |r| == |rows|
    ensures forall i :: 0 <= i < |rows| ==> r[i] == CreateCallLogEntity(rows[i], env)
  {
    seq(|rows|, i requires 0 <= i < |rows| => CreateCallLogEntity(rows[i], env))
  }

  /** `list.forEach { it.contactId = contactIdMap[it.phoneNumber] ?: 0L }`:
    * each record's contact set in place, nothing else changed. */
  method SetContactIds(list0: seq<CallLog>, contactIdMap: map<string, int>) returns (list: seq<CallLog>)
    ensures |list| == |list0|
    ensures forall i :: 0 <= i < |list| ==>
      list[i] == list0[i].(contactId := IdOr0(contactIdMap, list0[i].phoneNumber))
  {
    list := list0;
    var k := 0;
    while k < |list|
      invariant 0 <= k <= |list| == |list0|
      invariant forall i :: 0 <= i < k ==> list[i] == list0[i].(contactId := IdOr0(contactIdMap, list0[i].phoneNumber))
      invariant forall i :: k <= i < |list| ==> list[i] == list0[i]
    {
      list := list[k := list[k].(contactId := IdOr0(contactIdMap, list[k].phoneNumber))];
      k := k + 1;
    }
  }

  /** `TimeBasedCallLogProcessor.process`: every row read with contact 0,
    * then the contact ids set in place from the chosen map. */
  method ProcessTimeBased(cursor: Option<seq<Row>>, phoneRows: seq<Row>, env: Env, size: nat)
    returns (list: seq<CallLog>)
    ensures cursor.None? ==> list == []
    ensures cursor.Some? ==> |list| == |cursor.value|
    ensures cursor.Some? ==> forall i :: 0 <= i < |list| ==>
      list[i] == CreateCallLogEntity(cursor.value[i], env,
        TimeBasedContactId(phoneRows, |cursor.value| > size, RowNumber(cursor.value[i])))
  {
    list := [];
    if cursor.None? {
      return;
    }
    var rows := cursor.value;
    ghost var want := UnlinkedEntities(rows, env);
    var pos := 0;
    while pos < |rows|
      invariant 0 <= pos <= |rows| && list <= want && |list| == pos
    {
      PrefixSnoc(list, want);
      list := list + [CreateCallLogEntity(rows[pos], env)];
      pos := pos + 1;
    }
    var contactIdMap: map<string, int>;
    if |list| > size {
      contactIdMap := ContactLookup.ContactIdsWithPhoneNumbers(phoneRows);
    } else {
      contactIdMap := map n | n in Keys(list, NumberOfCall) :: ContactLookup.ContactIdByPhone(phoneRows, n);
    }
    ghost var read := list;
    list := SetContactIds(list, contactIdMap);
    forall i | 0 <= i < |list|
      ensures list[i] == CreateCallLogEntity(rows[i], env, TimeBasedContactId(phoneRows, |rows| > size, RowNumber(rows[i])))
    {
      assert Keys(read, NumberOfCall)[i] == read[i].phoneNumber;
    }
  }

  function NumberOfCall(c: CallLog): string { c.phoneNumber }

  /** The two ways of finding a number's contact agree when exactly one
    * phone row carries the (non-empty) number. */
  lemma TimeBasedBranchesAgree(phoneRows: seq<Row>, number: string, i: nat)
    requires i < |phoneRows| && number != "" && ContactLookup.NumberOf(phoneRows[i]) == number
    requires forall j :: 0 <= j < |phoneRows| && j != i ==> ContactLookup.NumberOf(phoneRows[j]) != number
    ensures TimeBasedContactId(phoneRows, true, number) == TimeBasedContactId(phoneRows, false, number)
    ensures TimeBasedContactId(phoneRows, true, number) == GetLongValue(phoneRows[i], ContactData.CONTACT_ID)
  {
    ContactLookup.PhoneIdsLastWins(phoneRows, i);
    ContactLookup.ContactIdByPhoneFirst(phoneRows, number, i);
  }

  /** `processor.process` for the processor the factory makes for `t`, with
    * the callbacks it makes: only the INIT processor calls back. */
  method Process(t: QueryType, cursor: Option<seq<Row>>, phoneRows: seq<Row>, env: Env, size: nat)
    returns (callbacks: seq<seq<CallLog>>, list: seq<CallLog>)
    requires size > 0
    ensures t != INIT ==> callbacks == []
    ensures t == INIT && cursor.Some? ==> |callbacks| >= 1 && list == callbacks[|callbacks| - 1]
    ensures cursor.None? ==> callbacks == [] && list == []
    ensures t == DEFAULT && cursor.Some? ==> list == MappedEntities(cursor.value, env, ContactLookup.PhoneIds(phoneRows))
    ensures t == INIT && cursor.Some? ==>
      Chunked(callbacks, MappedEntities(cursor.value, env, ContactLookup.PhoneIds(phoneRows)), size)
    ensures t == BY_PHONE && cursor.Some? ==> list == LookedUpEntities(cursor.value, env, phoneRows)
    ensures t == ALL_IDS && cursor.Some? ==> Keys(list, CallLogIdOf) == Keys(cursor.value, RowId)
    ensures t == ALL_IDS ==> forall i :: 0 <= i < |list| ==> list[i] == IdOnly(list[i].callLogId)
    ensures t == AFTER_TIME && cursor.Some? ==> |list| == |cursor.value|
    ensures t == AFTER_TIME && cursor.Some? ==> forall i :: 0 <= i < |list| ==>
      list[i] == CreateCallLogEntity(cursor.value[i], env,
        TimeBasedContactId(phoneRows, |cursor.value| > size, RowNumber(cursor.value[i])))
  {
    callbacks := [];
    match CreateProcessor(t)
    case DefaultProcessor => list := ProcessDefault(cursor, phoneRows, env);
    case SingleProcessor => list := ProcessSingle(cursor, phoneRows, env);
    case IdOnlyProcessor => list := ProcessIdOnly(cursor);
    case TimeBasedProcessor => list := ProcessTimeBased(cursor, phoneRows, env, size);
    case InitProcessor => callbacks, list := ProcessInit(cursor, phoneRows, env, size);
  }
}
