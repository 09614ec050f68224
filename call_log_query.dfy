// The call-log query descriptors (`CallLogQueryFactory`, `CallLogQuery`,
// `CallLogQueryParams`): which query a `QueryType` builds, the parameters
// each query hands to the content resolver, and the hand-written `equals`
// and `hashCode` of those parameters. Column names are those of
// `android.provider.CallLog.Calls`.
module CallLogQueries {
  import opened Wrappers
  import opened Text
  import Int32

  const NAME := "name"                      // Calls.CACHED_NAME
  const ID := "_id"                         // Calls._ID
  const NUMBER := "number"                  // Calls.NUMBER
  const DATE := "date"                      // Calls.DATE
  const DURATION := "duration"              // Calls.DURATION
  const TYPE := "type"                      // Calls.TYPE
  const PHONE_ACCOUNT_ID := "subscription_id"  // Calls.PHONE_ACCOUNT_ID

  /** `CallLogColumns.BASE_PROJECTION`. */
  const BASE_PROJECTION: seq<string> := [NAME, ID, NUMBER, DATE, DURATION, TYPE, PHONE_ACCOUNT_ID]
  /** `CallLogColumns.ID_PROJECTION`. */
  const ID_PROJECTION: seq<string> := [ID]

  datatype QueryType = DEFAULT | BY_PHONE | ALL_IDS | AFTER_TIME | INIT

  /** The untyped `param: Any?` of `create`: null, a `String`, a `Long`, or
    * a value of any other class. */
  datatype Param = NullParam | StringParam(s: string) | LongParam(n: int) | OtherParam

  datatype CallLogQuery =
    | DefaultCallLogQuery
    | PhoneNumberCallLogQuery(phoneNumber: string)
    | AllIdCallLogQuery
    | AfterTimestampCallLogQuery(timestamp: int)

  /** `CallLogQueryFactory.create`: a failed `require` throws
    * `IllegalArgumentException` with the given message. */
  function Create(t: QueryType, param: Param := NullParam): (r: Result<CallLogQuery, string>)
    ensures (t == DEFAULT || t == INIT) ==> r == Success(DefaultCallLogQuery)
    ensures t == ALL_IDS ==> r == Success(AllIdCallLogQuery)
    ensures t == BY_PHONE ==> r == if param.StringParam? then Success(PhoneNumberCallLogQuery(param.s))
                                   else Failure("Phone number must be String")
    ensures t == AFTER_TIME ==> r == if param.LongParam? then Success(AfterTimestampCallLogQuery(param.n))
                                     else Failure("Timestamp must be Long")
  {
    match t
    case DEFAULT => Success(DefaultCallLogQuery)
    case INIT => Success(DefaultCallLogQuery)
    case BY_PHONE =>
      if param.StringParam? then Success(PhoneNumberCallLogQuery(param.s))
      else Failure("Phone number must be String")
    case ALL_IDS => Success(AllIdCallLogQuery)
    case AFTER_TIME =>
      if param.LongParam? then Success(AfterTimestampCallLogQuery(param.n))
      else Failure("Timestamp must be Long")
  }

  /** `create` fails exactly for a phone query without a `String` and a
    * time query without a `Long`; every other call builds a query. */
  lemma CreateFails(t: QueryType, param: Param)
    ensures Create(t, param).Failure? <==>
      (t == BY_PHONE && !param.StringParam?) || (t == AFTER_TIME && !param.LongParam?)
  {
  }

  /** `CallLogQueryParams`; `null` selection and arguments are `None`. */
  datatype CallLogQueryParams = CallLogQueryParams(
    projection: seq<string>,
    selection: Option<string>,
    selectionArgs: Option<seq<string>>,
    sortOrder: string)

  /** The constructor's defaults. */
  function Params(
    projection: seq<string> := BASE_PROJECTION,
    selection: Option<string> := None,
    selectionArgs: Option<seq<string>> := None,
    sortOrder: string := DATE + " DESC"): CallLogQueryParams
  {
    CallLogQueryParams(projection, selection, selectionArgs, sortOrder)
  }

  /** `buildQueryParams` of each query. */
  function BuildQueryParams(q: CallLogQuery): CallLogQueryParams
  {
    match q
    case DefaultCallLogQuery => Params()
    case PhoneNumberCallLogQuery(phoneNumber) =>
      Params(selection := Some(NUMBER + " = ?"), selectionArgs := Some([phoneNumber]))
    case AllIdCallLogQuery => Params(projection := ID_PROJECTION)
    case AfterTimestampCallLogQuery(timestamp) =>
      Params(selection := Some(DATE + " > ?"), selectionArgs := Some([IntToDecimal(timestamp)]))
  }

  /** What each query asks of the resolver: every query but the id census
    * reads the seven base columns, newest first; only the phone and time
    * queries select, each with one argument (the time as decimal text). */
  lemma QueryParamsShape(q: CallLogQuery)
    ensures var p := BuildQueryParams(q);
      && p.sortOrder == "date DESC"
      && (p.projection == ID_PROJECTION <==> q.AllIdCallLogQuery?)
      && (!q.AllIdCallLogQuery? ==> p.projection == BASE_PROJECTION && |p.projection| == 7)
      && (p.selection.None? <==> p.selectionArgs.None?)
      && (p.selection.None? <==> (q.DefaultCallLogQuery? || q.AllIdCallLogQuery?))
      && (q.PhoneNumberCallLogQuery? ==> p.selection == Some("number = ?") && p.selectionArgs == Some([q.phoneNumber]))
      && (q.AfterTimestampCallLogQuery? ==>
            (p.selection == Some("date > ?")
             && p.selectionArgs == Some([IntToDecimal(q.timestamp)])
             && TextToInt(p.selectionArgs.value[0]) == q.timestamp))
  {
    assert DATE + " DESC" == "date DESC";
    assert NUMBER + " = ?" == "number = ?";
    assert DATE + " > ?" == "date > ?";
    if q.AfterTimestampCallLogQuery? {
      TextToIntOfDecimal(q.timestamp);
    }
  }

  /** The other operand of `equals`: an object of another class (or null),
    * or a `CallLogQueryParams`. */
  datatype Other = NotParams | AParams(p: CallLogQueryParams)

  /** `equals`, with its early returns. `identical` is `this === other`: it
    * can hold only when `other` is this very value. */
  method Equals(self: CallLogQueryParams, other: Other, identical: bool) returns (r: bool)
    requires identical ==> other == AParams(self)
    ensures r <==> other == AParams(self)
  {
    if identical {
      return true;
    }
    if other.NotParams? {
      return false;
    }
    var o := other.p;
    if self.projection != o.projection {
      return false;
    }
    if self.selection != o.selection {
      return false;
    }
    if self.selectionArgs.Some? {
      if o.selectionArgs.None? {
        return false;
      }
      if self.selectionArgs.value != o.selectionArgs.value {
        return false;
      }
    } else if o.selectionArgs.Some? {
      return false;
    }
    if self.sortOrder != o.sortOrder {
      return false;
    }
    return true;
  }

  /** `String.hashCode`: `31 * h + c` over the characters, in `Int`. */
  function StringHash(s: string): (h: int)
    ensures Int32.InRange(h)
  {
    if s == [] then 0 else Int32.MulAdd31(StringHash(s[..|s| - 1]), s[|s| - 1] as int)
  }

  /** `Array<String>.contentHashCode`: 1, then `31 * h` plus each element's hash. */
  function ContentHash(a: seq<string>): (h: int)
    ensures Int32.InRange(h)
  {
    if a == [] then 1 else Int32.MulAdd31(ContentHash(a[..|a| - 1]), StringHash(a[|a| - 1]))
  }

  /** The four-field combination `hashCode` computes; a null field adds 0. */
  function Hash(p: CallLogQueryParams): (h: int)
    ensures Int32.InRange(h)
  {
    var h0 := ContentHash(p.projection);
    var h1 := Int32.MulAdd31(h0, if p.selection.Some? then StringHash(p.selection.value) else 0);
    var h2 := Int32.MulAdd31(h1, if p.selectionArgs.Some? then ContentHash(p.selectionArgs.value) else 0);
    Int32.MulAdd31(h2, StringHash(p.sortOrder))
  }

  /** `hashCode`, accumulating into `result`. */
  method HashCode(self: CallLogQueryParams) returns (result: int)
    ensures result == Hash(self)
    ensures Int32.InRange(result)
  {
    result := ContentHash(self.projection);
    result := Int32.MulAdd31(result, if self.selection.Some? then StringHash(self.selection.value) else 0);
    result := Int32.MulAdd31(result, if self.selectionArgs.Some? then ContentHash(self.selectionArgs.value) else 0);
    result := Int32.MulAdd31(result, StringHash(self.sortOrder));
  }

  /** A null argument array and an empty one are different parameters. */
  lemma NullArgsNotEmptyArgs(projection: seq<string>, selection: Option<string>, sortOrder: string)
    ensures CallLogQueryParams(projection, selection, None, sortOrder)
      != CallLogQueryParams(projection, selection, Some([]), sortOrder)
  {
  }
}
