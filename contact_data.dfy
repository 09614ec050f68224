// Turning one row of the contacts data table into contact fields: the
// Android column names and type codes, the label tables of the processors,
// the mimetype factory and what each processor adds to a contact.
module ContactData {
  import opened Wrappers
  import opened Entities
  import opened Rows

  // Column names of `ContactsContract.Data` (platform values).
  const CONTACT_ID := "contact_id"
  const MIMETYPE := "mimetype"
  const DISPLAY_NAME := "display_name"
  const LAST_UPDATED := "contact_last_updated_timestamp"
  const DATA1 := "data1"
  const DATA2 := "data2"
  const DATA3 := "data3"
  const DATA4 := "data4"
  const DATA5 := "data5"
  const DATA6 := "data6"
  const DATA7 := "data7"
  const DATA8 := "data8"
  const DATA9 := "data9"

  /** `TYPE_CUSTOM` of phone, email, postal, website and event rows. */
  const TYPE_CUSTOM := 0
  /** `Im.PROTOCOL_CUSTOM`. */
  const PROTOCOL_CUSTOM := -1

  // Label tables, in the order the processors test the codes.
  const PHONE_LABELS: seq<(int, string)> := [
    (1, "住宅"), (2, "手机"), (3, "单位"), (4, "单位传真"), (5, "住宅传真"),
    (6, "寻呼机"), (8, "回拨号码"), (9, "车载电话"), (10, "公司总机"), (11, "ISDN"),
    (12, "总机"), (7, "其他"), (14, "无线装置"), (15, "电报"), (16, "TTY_TDD"),
    (17, "单位手机"), (18, "单位寻呼机"), (19, "助理"), (20, "彩信")]
  const EMAIL_LABELS: seq<(int, string)> := [(1, "个人"), (2, "单位"), (3, "其他")]
  const IM_LABELS: seq<(int, string)> := [
    (0, "AIM"), (1, "MSN"), (2, "Yahoo"), (3, "Skype"), (4, "QQ"),
    (5, "Google Talk"), (6, "ICQ"), (7, "Jabber"), (8, "NetMeeting")]
  const POSTAL_LABELS: seq<(int, string)> := [(1, "住宅"), (2, "单位"), (3, "其他")]
  const WEBSITE_LABELS: seq<(int, string)> := [
    (1, "个人主页"), (2, "博客"), (3, "个人资料"), (4, "主页"), (5, "工作"),
    (6, "FTP"), (7, "其他")]
  const EVENT_LABELS: seq<(int, string)> := [(3, "生日"), (1, "纪念日")]

  /** The label a `when` over constant codes gives `code`, if it names one. */
  function Lookup(table: seq<(int, string)>, code: int): (r: Option<string>)
    ensures r.None? <==> forall i :: 0 <= i < |table| ==> table[i].0 != code
    ensures r.Some? ==> exists i :: 0 <= i < |table| && table[i] == (code, r.value)
  {
    if table == [] then None
    else if table[0].0 == code then Some(table[0].1)
    else Lookup(table[1..], code)
  }

  /** The code whose label is `label`, if any: the inverse reading of a table. */
  function CodeOf(table: seq<(int, string)>, name: string): Option<int>
  {
    if table == [] then None
    else if table[0].1 == name then Some(table[0].0)
    else CodeOf(table[1..], name)
  }

  /** No code and no label appears twice, and `fallback` is not a label. */
  ghost predicate WellFormedTable(table: seq<(int, string)>, fallback: string)
  {
    (forall i, j :: 0 <= i < j < |table| ==> table[i].0 != table[j].0 && table[i].1 != table[j].1)
    && (forall i :: 0 <= i < |table| ==> table[i].1 != fallback)
  }

  /** In a well-formed table the fallback marks exactly the unmapped codes,
    * and every other label names its code back. */
  lemma {:induction false} LabelDecodes(table: seq<(int, string)>, fallback: string, code: int)
    requires WellFormedTable(table, fallback)
    ensures Lookup(table, code).GetOr(fallback) == fallback <==> Lookup(table, code).None?
    ensures Lookup(table, code).Some? ==> CodeOf(table, Lookup(table, code).value) == Some(code)
  {
    if table != [] && table[0].0 != code {
      assert WellFormedTable(table[1..], fallback) by {
        forall i, j | 0 <= i < j < |table[1..]|
          ensures table[1..][i].0 != table[1..][j].0 && table[1..][i].1 != table[1..][j].1
        {
          assert table[1..][i] == table[i + 1] && table[1..][j] == table[j + 1];
        }
      }
      LabelDecodes(table[1..], fallback, code);
      if Lookup(table, code).Some? {
        var i :| 0 <= i < |table| && table[i] == (code, Lookup(table, code).value);
        assert i != 0;
        assert table[0].1 != table[i].1;
      }
    }
  }

  lemma PhoneTableWellFormed()
    ensures WellFormedTable(PHONE_LABELS, "未知")
    ensures forall i :: 0 <= i < |PHONE_LABELS| ==> PHONE_LABELS[i].0 != TYPE_CUSTOM
  {
    var t := PHONE_LABELS;
    assert forall i, j :: 0 <= i < j < |t| ==> t[i].0 != t[j].0;
    forall i, j | 0 <= i < j < |t| ensures t[i].1 != t[j].1 {
      PhoneLabelsDistinct(i, j);
    }
  }

  lemma PhoneLabelsDistinct(i: nat, j: nat)
    requires i < j < |PHONE_LABELS|
    ensures PHONE_LABELS[i].1 != PHONE_LABELS[j].1
  {
    var t := PHONE_LABELS;
    if |t[i].1| == |t[j].1| {
      assert t[i].1[0] != t[j].1[0] || t[i].1[|t[i].1| - 1] != t[j].1[|t[j].1| - 1];
    }
  }

  lemma EmailTableWellFormed()
    ensures WellFormedTable(EMAIL_LABELS, "未知")
  {
  }

  lemma PostalTableWellFormed()
    ensures WellFormedTable(POSTAL_LABELS, "未知")
  {
  }

  lemma ImTableWellFormed()
    ensures WellFormedTable(IM_LABELS, "Unknown")
    ensures forall i :: 0 <= i < |IM_LABELS| ==> IM_LABELS[i].0 != PROTOCOL_CUSTOM
  {
  }

  lemma WebsiteTableWellFormed()
    ensures WellFormedTable(WEBSITE_LABELS, "未知")
  {
  }

  // The pure `when` expressions of the processors.

  function PhoneTypeLabel(row: Row): string
  {
    var code := GetIntValue(row, DATA2);
    if code == TYPE_CUSTOM then GetStringValue(row, DATA3, "自定义")
    else Lookup(PHONE_LABELS, code).GetOr("未知")
  }

  function EmailTypeLabel(row: Row): string
  {
    var code := GetIntValue(row, DATA2);
    if code == TYPE_CUSTOM then GetStringValue(row, DATA3, "自定义")
    else Lookup(EMAIL_LABELS, code).GetOr("未知")
  }

  function ImProtocolLabel(row: Row): string
  {
    var code := GetIntValue(row, DATA5);
    if code == PROTOCOL_CUSTOM then GetStringValue(row, DATA6, "Custom")
    else Lookup(IM_LABELS, code).GetOr("Unknown")
  }

  function PostalTypeLabel(row: Row): string
  {
    var code := GetIntValue(row, DATA2);
    if code == TYPE_CUSTOM then GetStringValue(row, DATA3, "自定义")
    else Lookup(POSTAL_LABELS, code).GetOr("未知")
  }

  /** Websites have no custom branch. */
  function WebsiteTypeLabel(row: Row): string
  {
    Lookup(WEBSITE_LABELS, GetIntValue(row, DATA2)).GetOr("未知")
  }

  /** Events fall back to the DATA3 column rather than to a fixed word. */
  function EventTypeLabel(row: Row): string
  {
    match Lookup(EVENT_LABELS, GetIntValue(row, DATA2))
    case Some(word) => word
    case None => GetStringValue(row, DATA3, "其他")
  }

  /** Phone labels: the custom code reads LABEL (default "自定义"); any other
    * code ignores the row, gives "未知" exactly when unmapped, and otherwise a
    * label that names the code back. */
  lemma PhoneLabelMeaning(row: Row, other: Row)
    ensures GetIntValue(row, DATA2) == TYPE_CUSTOM ==>
      PhoneTypeLabel(row) == GetStringValue(row, DATA3, "自定义")
    ensures GetIntValue(row, DATA2) != TYPE_CUSTOM && GetIntValue(other, DATA2) == GetIntValue(row, DATA2) ==>
      PhoneTypeLabel(other) == PhoneTypeLabel(row)
    ensures GetIntValue(row, DATA2) != TYPE_CUSTOM ==>
      (PhoneTypeLabel(row) == "未知" <==> Lookup(PHONE_LABELS, GetIntValue(row, DATA2)).None?)
    ensures GetIntValue(row, DATA2) != TYPE_CUSTOM && PhoneTypeLabel(row) != "未知" ==>
      CodeOf(PHONE_LABELS, PhoneTypeLabel(row)) == Some(GetIntValue(row, DATA2))
  {
    PhoneTableWellFormed();
    LabelDecodes(PHONE_LABELS, "未知", GetIntValue(row, DATA2));
  }

  lemma EmailLabelMeaning(row: Row)
    ensures GetIntValue(row, DATA2) == TYPE_CUSTOM ==>
      EmailTypeLabel(row) == GetStringValue(row, DATA3, "自定义")
    ensures GetIntValue(row, DATA2) != TYPE_CUSTOM ==>
      (EmailTypeLabel(row) == "未知" <==> GetIntValue(row, DATA2) !in {1, 2, 3})
    ensures GetIntValue(row, DATA2) != TYPE_CUSTOM && EmailTypeLabel(row) != "未知" ==>
      CodeOf(EMAIL_LABELS, EmailTypeLabel(row)) == Some(GetIntValue(row, DATA2))
  {
    EmailTableWellFormed();
    LabelDecodes(EMAIL_LABELS, "未知", GetIntValue(row, DATA2));
  }

  /** IM protocols: a row without a PROTOCOL value reads as code 0 and so shows "AIM". */
  lemma ImLabelMeaning(row: Row)
    ensures GetIntValue(row, DATA5) == PROTOCOL_CUSTOM ==>
      ImProtocolLabel(row) == GetStringValue(row, DATA6, "Custom")
    ensures GetIntValue(row, DATA5) != PROTOCOL_CUSTOM ==>
      (ImProtocolLabel(row) == "Unknown" <==> !(0 <= GetIntValue(row, DATA5) <= 8))
    ensures GetIntValue(row, DATA5) != PROTOCOL_CUSTOM && ImProtocolLabel(row) != "Unknown" ==>
      CodeOf(IM_LABELS, ImProtocolLabel(row)) == Some(GetIntValue(row, DATA5))
    ensures !Readable(row, DATA5) ==> ImProtocolLabel(row) == "AIM"
  {
    var code := GetIntValue(row, DATA5);
    ImTableWellFormed();
    LabelDecodes(IM_LABELS, "Unknown", code);
    assert forall i :: 0 <= i < |IM_LABELS| ==> IM_LABELS[i].0 == i;
    if 0 <= code <= 8 {
      assert IM_LABELS[code].0 == code;
    }
  }

  lemma PostalLabelMeaning(row: Row)
    ensures GetIntValue(row, DATA2) == TYPE_CUSTOM ==>
      PostalTypeLabel(row) == GetStringValue(row, DATA3, "自定义")
    ensures GetIntValue(row, DATA2) != TYPE_CUSTOM ==>
      (PostalTypeLabel(row) == "未知" <==> GetIntValue(row, DATA2) !in {1, 2, 3})
    ensures GetIntValue(row, DATA2) != TYPE_CUSTOM && PostalTypeLabel(row) != "未知" ==>
      CodeOf(POSTAL_LABELS, PostalTypeLabel(row)) == Some(GetIntValue(row, DATA2))
  {
    PostalTableWellFormed();
    LabelDecodes(POSTAL_LABELS, "未知", GetIntValue(row, DATA2));
  }

  /** Websites: every code outside 1..7, `TYPE_CUSTOM` included, gives "未知". */
  lemma WebsiteLabelMeaning(row: Row)
    ensures WebsiteTypeLabel(row) == "未知" <==> !(1 <= GetIntValue(row, DATA2) <= 7)
    ensures WebsiteTypeLabel(row) != "未知" ==>
      CodeOf(WEBSITE_LABELS, WebsiteTypeLabel(row)) == Some(GetIntValue(row, DATA2))
  {
    WebsiteTableWellFormed();
    LabelDecodes(WEBSITE_LABELS, "未知", GetIntValue(row, DATA2));
  }

  /** Events: birthday and anniversary are fixed words; any other type shows DATA3 or "其他". */
  lemma EventLabelMeaning(row: Row)
    ensures GetIntValue(row, DATA2) == 3 ==> EventTypeLabel(row) == "生日"
    ensures GetIntValue(row, DATA2) == 1 ==> EventTypeLabel(row) == "纪念日"
    ensures GetIntValue(row, DATA2) !in {1, 3} ==> EventTypeLabel(row) == GetStringValue(row, DATA3, "其他")
  {
  }

  // The records a row of each kind contributes. Every one has id 0 (not yet
  // stored) and carries the row's CONTACT_ID.

  function RowContactId(row: Row): int { GetLongValue(row, CONTACT_ID) }

  function PhoneOf(row: Row): Phone
  {
    Phone(0, RowContactId(row), PhoneTypeLabel(row), GetStringValue(row, DATA1))
  }

  function EmailOf(row: Row): Email
  {
    Email(0, RowContactId(row), EmailTypeLabel(row), GetStringValue(row, DATA1))
  }

  function ImOf(row: Row): IM
  {
    IM(0, RowContactId(row), ImProtocolLabel(row), GetStringValue(row, DATA1))
  }

  function AddressOf(row: Row): Address
  {
    Address(0, RowContactId(row), GetStringValue(row, DATA4), GetStringValue(row, DATA7),
      GetStringValue(row, DATA8), GetStringValue(row, DATA9), GetStringValue(row, DATA1),
      PostalTypeLabel(row))
  }

  function OrganizationOf(row: Row): Organization
  {
    Organization(0, RowContactId(row), GetStringValue(row, DATA1), GetStringValue(row, DATA4))
  }

  function EventOf(row: Row): Event
  {
    Event(0, RowContactId(row), EventTypeLabel(row), GetStringValue(row, DATA1))
  }

  function WebsiteOf(row: Row): Website
  {
    Website(0, RowContactId(row), GetStringValue(row, DATA1), WebsiteTypeLabel(row))
  }

  /** The base row `setBaseInfo` builds: id, name and update time from the
    * row; note and nickname empty; no avatar. */
  function BaseInfoOf(row: Row): BaseInfo
  {
    BaseInfo(RowContactId(row), GetStringValue(row, DISPLAY_NAME), "", "",
      GetLongValue(row, LAST_UPDATED), None)
  }

  /** A `ContactPersonEntity()` with default fields. */
  function EmptyPerson(): ContactPerson
  {
    ContactPerson(BaseInfo(0, "", "", "", 0, None), [], [], [], [], [], [], [])
  }

  // The mimetype factory.

  /** The nine processors the factory knows. */
  datatype Kind = PhoneData | EmailData | ImData | PostalData | OrganizationData
                | NoteData | NicknameData | EventData | WebsiteData

  /** `CONTENT_ITEM_TYPE` of each kind (platform values). */
  function MimeTypeOf(k: Kind): string
  {
    match k
    case PhoneData => "vnd.android.cursor.item/phone_v2"
    case EmailData => "vnd.android.cursor.item/email_v2"
    case ImData => "vnd.android.cursor.item/im"
    case PostalData => "vnd.android.cursor.item/postal-address_v2"
    case OrganizationData => "vnd.android.cursor.item/organization"
    case NoteData => "vnd.android.cursor.item/note"
    case NicknameData => "vnd.android.cursor.item/nickname"
    case EventData => "vnd.android.cursor.item/contact_event"
    case WebsiteData => "vnd.android.cursor.item/website"
  }

  /** The kinds in the order the factory's `when` tests their mimetypes. */
  const KINDS: seq<Kind> := [PhoneData, EmailData, ImData, PostalData, OrganizationData,
                             NoteData, NicknameData, EventData, WebsiteData]

  /** The first of `ks` whose mimetype is `mimeType`. */
  function FirstWithMimeType(ks: seq<Kind>, mimeType: string): Option<Kind>
  {
    if ks == [] then None
    else if MimeTypeOf(ks[0]) == mimeType then Some(ks[0])
    else FirstWithMimeType(ks[1..], mimeType)
  }

  /** `ContactDataProcessorFactory.createProcessor`: the processor for a
    * mimetype, or none for any other string. */
  function CreateProcessor(mimeType: string): Option<Kind>
  {
    FirstWithMimeType(KINDS, mimeType)
  }

  lemma {:induction false} FirstWithMimeTypeMeaning(ks: seq<Kind>, mimeType: string)
    ensures FirstWithMimeType(ks, mimeType).Some? ==>
      MimeTypeOf(FirstWithMimeType(ks, mimeType).value) == mimeType
    ensures FirstWithMimeType(ks, mimeType).None? ==>
      forall i :: 0 <= i < |ks| ==> MimeTypeOf(ks[i]) != mimeType
  {
    if ks != [] && MimeTypeOf(ks[0]) != mimeType {
      FirstWithMimeTypeMeaning(ks[1..], mimeType);
      assert FirstWithMimeType(ks, mimeType) == FirstWithMimeType(ks[1..], mimeType);
      if FirstWithMimeType(ks, mimeType).None? {
        forall i | 1 <= i < |ks| ensures MimeTypeOf(ks[i]) != mimeType {
          assert ks[i] == ks[1..][i - 1];
        }
      }
    }
  }

  /** The factory picks a kind exactly for the nine mimetypes, and the kind it
    * picks is the one with that mimetype. */
  lemma CreateProcessorMeaning(mimeType: string)
    ensures CreateProcessor(mimeType).Some? ==> MimeTypeOf(CreateProcessor(mimeType).value) == mimeType
    ensures CreateProcessor(mimeType).None? <==> forall k: Kind :: MimeTypeOf(k) != mimeType
  {
    FirstWithMimeTypeMeaning(KINDS, mimeType);
    if CreateProcessor(mimeType).None? {
      forall k: Kind ensures MimeTypeOf(k) != mimeType {
        var i :| 0 <= i < |KINDS| && KINDS[i] == k by {
          match k
          case PhoneData => assert KINDS[0] == k;
          case EmailData => assert KINDS[1] == k;
          case ImData => assert KINDS[2] == k;
          case PostalData => assert KINDS[3] == k;
          case OrganizationData => assert KINDS[4] == k;
          case NoteData => assert KINDS[5] == k;
          case NicknameData => assert KINDS[6] == k;
          case EventData => assert KINDS[7] == k;
          case WebsiteData => assert KINDS[8] == k;
        }
      }
    }
  }

  /** The nine mimetypes are pairwise different. */
  lemma MimeTypesDistinct(a: Kind, b: Kind)
    requires a != b
    ensures MimeTypeOf(a) != MimeTypeOf(b)
  {
    var ma, mb := MimeTypeOf(a), MimeTypeOf(b);
    var n := |"vnd.android.cursor.item/"|;
    assert ma[..n] == mb[..n] && |ma| > n + 1 && |mb| > n + 1;
    assert ma[n] != mb[n] || ma[n + 1] != mb[n + 1];
  }

  /** Each kind's mimetype selects that kind again: the nine are told apart. */
  lemma CreateProcessorRoundTrip(k: Kind)
    ensures CreateProcessor(MimeTypeOf(k)) == Some(k)
  {
    CreateProcessorMeaning(MimeTypeOf(k));
    var r := CreateProcessor(MimeTypeOf(k));
    if r.Some? && r.value != k {
      MimeTypesDistinct(r.value, k);
    }
  }

  /** What `process` of a kind does to the contact. */
  function Process(k: Kind, row: Row, p: ContactPerson): ContactPerson
  {
    match k
    case PhoneData => p.(phones := p.phones + [PhoneOf(row)])
    case EmailData => p.(emails := p.emails + [EmailOf(row)])
    case ImData => p.(ims := p.ims + [ImOf(row)])
    case PostalData => p.(addresses := p.addresses + [AddressOf(row)])
    case OrganizationData => p.(organizations := p.organizations + [OrganizationOf(row)])
    case NoteData => p.(baseInfo := p.baseInfo.(noteInfo := GetStringValue(row, DATA1)))
    case NicknameData => p.(baseInfo := p.baseInfo.(nickName := GetStringValue(row, DATA1)))
    case EventData => p.(events := p.events + [EventOf(row)])
    case WebsiteData => p.(websites := p.websites + [WebsiteOf(row)])
  }

  /** `processData`: the factory's processor applied to the contact, or nothing. */
  function ProcessRow(row: Row, p: ContactPerson): ContactPerson
  {
    match CreateProcessor(GetStringValue(row, MIMETYPE))
    case Some(k) => Process(k, row, p)
    case None => p
  }

  function ChildCount(p: ContactPerson): nat
  {
    |p.phones| + |p.ims| + |p.emails| + |p.addresses| + |p.organizations| + |p.events| + |p.websites|
  }

  /** Every child record of `p` carries contact id `id`. */
  predicate ChildrenOf(p: ContactPerson, id: int)
  {
    (forall x :: x in p.phones ==> x.contactId == id)
    && (forall x :: x in p.ims ==> x.contactId == id)
    && (forall x :: x in p.emails ==> x.contactId == id)
    && (forall x :: x in p.addresses ==> x.contactId == id)
    && (forall x :: x in p.organizations ==> x.contactId == id)
    && (forall x :: x in p.events ==> x.contactId == id)
    && (forall x :: x in p.websites ==> x.contactId == id)
  }

  /** The fields of the base row that only `setBaseInfo` writes. */
  predicate SameIdentity(a: BaseInfo, b: BaseInfo)
  {
    a.contactId == b.contactId && a.disPlayName == b.disPlayName
    && a.updateTime == b.updateTime && a.avatar == b.avatar
  }

  /** A list processor appends exactly one record and leaves the base row
    * alone; note and nickname replace one base field and add no record. */
  lemma ProcessCounts(k: Kind, row: Row, p: ContactPerson)
    ensures k !in {NoteData, NicknameData} ==>
      ChildCount(Process(k, row, p)) == ChildCount(p) + 1 && Process(k, row, p).baseInfo == p.baseInfo
    ensures k in {NoteData, NicknameData} ==>
      ChildCount(Process(k, row, p)) == ChildCount(p) && SameIdentity(Process(k, row, p).baseInfo, p.baseInfo)
  {
    match k
    case PhoneData =>
    case EmailData =>
    case ImData =>
    case PostalData =>
    case OrganizationData =>
    case NoteData =>
    case NicknameData =>
    case EventData =>
    case WebsiteData =>
  }

  /** No list loses or reorders an element. */
  lemma ProcessKeepsLists(k: Kind, row: Row, p: ContactPerson)
    ensures var q := Process(k, row, p);
      p.phones <= q.phones && p.ims <= q.ims && p.emails <= q.emails && p.addresses <= q.addresses
      && p.organizations <= q.organizations && p.events <= q.events && p.websites <= q.websites
  {
    match k
    case PhoneData =>
    case EmailData =>
    case ImData =>
    case PostalData =>
    case OrganizationData =>
    case NoteData =>
    case NicknameData =>
    case EventData =>
    case WebsiteData =>
  }

  /** The record a processor adds carries the row's contact id. */
  lemma ProcessOwnsChildren(k: Kind, row: Row, p: ContactPerson)
    ensures ChildrenOf(p, RowContactId(row)) ==> ChildrenOf(Process(k, row, p), RowContactId(row))
  {
    var id := RowContactId(row);
    if ChildrenOf(p, id) {
      match k
      case PhoneData =>
        forall x | x in p.phones + [PhoneOf(row)] ensures x.contactId == id { }
      case EmailData =>
        forall x | x in p.emails + [EmailOf(row)] ensures x.contactId == id { }
      case ImData =>
        forall x | x in p.ims + [ImOf(row)] ensures x.contactId == id { }
      case PostalData =>
        forall x | x in p.addresses + [AddressOf(row)] ensures x.contactId == id { }
      case OrganizationData =>
        forall x | x in p.organizations + [OrganizationOf(row)] ensures x.contactId == id { }
      case NoteData =>
      case NicknameData =>
      case EventData =>
        forall x | x in p.events + [EventOf(row)] ensures x.contactId == id { }
      case WebsiteData =>
        forall x | x in p.websites + [WebsiteOf(row)] ensures x.contactId == id { }
    }
  }

  /** A row whose mimetype the factory does not know leaves the contact as it was. */
  lemma UnknownMimeTypeIgnored(row: Row, p: ContactPerson)
    requires forall k: Kind :: MimeTypeOf(k) != GetStringValue(row, MIMETYPE)
    ensures ProcessRow(row, p) == p
  {
    CreateProcessorMeaning(GetStringValue(row, MIMETYPE));
  }

  // The processors of `contact/processor/`, acting on the builder's contact.

  method ProcessPhone(row: Row, b: ContactPersonBuilder)
    modifies b
    ensures b.contactPerson == old(b.contactPerson).(phones := old(b.contactPerson).phones + [PhoneOf(row)])
  {
    var phone := PhoneOf(row);
    b.contactPerson := b.contactPerson.(phones := b.contactPerson.phones + [phone]);
  }

  method ProcessEmail(row: Row, b: ContactPersonBuilder)
    modifies b
    ensures b.contactPerson == old(b.contactPerson).(emails := old(b.contactPerson).emails + [EmailOf(row)])
  {
    var email := EmailOf(row);
    b.contactPerson := b.contactPerson.(emails := b.contactPerson.emails + [email]);
  }

  method ProcessIm(row: Row, b: ContactPersonBuilder)
    modifies b
    ensures b.contactPerson == old(b.contactPerson).(ims := old(b.contactPerson).ims + [ImOf(row)])
  {
    var im := ImOf(row);
    b.contactPerson := b.contactPerson.(ims := b.contactPerson.ims + [im]);
  }

  method ProcessAddress(row: Row, b: ContactPersonBuilder)
    modifies b
    ensures b.contactPerson == old(b.contactPerson).(addresses := old(b.contactPerson).addresses + [AddressOf(row)])
  {
    var address := AddressOf(row);
    b.contactPerson := b.contactPerson.(addresses := b.contactPerson.addresses + [address]);
  }

  method ProcessOrganization(row: Row, b: ContactPersonBuilder)
    modifies b
    ensures b.contactPerson == old(b.contactPerson).(organizations := old(b.contactPerson).organizations + [OrganizationOf(row)])
  {
    var org := OrganizationOf(row);
    b.contactPerson := b.contactPerson.(organizations := b.contactPerson.organizations + [org]);
  }

  method ProcessNote(row: Row, b: ContactPersonBuilder)
    modifies b
    ensures b.contactPerson == old(b.contactPerson).(baseInfo := old(b.contactPerson).baseInfo.(noteInfo := GetStringValue(row, DATA1)))
  {
    b.contactPerson := b.contactPerson.(baseInfo := b.contactPerson.baseInfo.(noteInfo := GetStringValue(row, DATA1)));
  }

  method ProcessNickname(row: Row, b: ContactPersonBuilder)
    modifies b
    ensures b.contactPerson == old(b.contactPerson).(baseInfo := old(b.contactPerson).baseInfo.(nickName := GetStringValue(row, DATA1)))
  {
    b.contactPerson := b.contactPerson.(baseInfo := b.contactPerson.baseInfo.(nickName := GetStringValue(row, DATA1)));
  }

  method ProcessEvent(row: Row, b: ContactPersonBuilder)
    modifies b
    ensures b.contactPerson == old(b.contactPerson).(events := old(b.contactPerson).events + [EventOf(row)])
  {
    var event := EventOf(row);
    b.contactPerson := b.contactPerson.(events := b.contactPerson.events + [event]);
  }

  method ProcessWebsite(row: Row, b: ContactPersonBuilder)
    modifies b
    ensures b.contactPerson == old(b.contactPerson).(websites := old(b.contactPerson).websites + [WebsiteOf(row)])
  {
    var website := WebsiteOf(row);
    b.contactPerson := b.contactPerson.(websites := b.contactPerson.websites + [website]);
  }

  /** The contact with `photo` as its avatar, if there is one. */
  function WithAvatar(c: ContactPerson, photo: Option<Bitmap>): (r: ContactPerson)
    ensures ContactIdOf(r) == ContactIdOf(c)
    ensures r == c.(baseInfo := r.baseInfo) && r.baseInfo == c.baseInfo.(avatar := r.baseInfo.avatar)
    ensures r.baseInfo.avatar == if photo.Some? then photo else c.baseInfo.avatar
  {
    if photo.Some? then c.(baseInfo := c.baseInfo.(avatar := photo)) else c
  }

  /** `ContactPersonBuilder`: accumulates one contact from its rows. */
  class ContactPersonBuilder {
    var contactPerson: ContactPerson

    constructor()
      ensures contactPerson == EmptyPerson()
    {
      contactPerson := EmptyPerson();
    }

    /** Replaces the base row by one read from `row`; returns the builder itself. */
    method SetBaseInfo(row: Row) returns (self: ContactPersonBuilder)
      modifies this
      ensures self == this
      ensures contactPerson == old(contactPerson).(baseInfo := BaseInfoOf(row))
    {
      contactPerson := contactPerson.(baseInfo := BaseInfoOf(row));
      self := this;
    }

    /** Runs the processor the factory picks for the row's mimetype, if any. */
    method ProcessData(row: Row)
      modifies this
      ensures contactPerson == ProcessRow(row, old(contactPerson))
    {
      var mimeType := GetStringValue(row, MIMETYPE);
      var processor := CreateProcessor(mimeType);
      match processor {
        case None =>
        case Some(k) =>
          match k {
            case PhoneData => ProcessPhone(row, this);
            case EmailData => ProcessEmail(row, this);
            case ImData => ProcessIm(row, this);
            case PostalData => ProcessAddress(row, this);
            case OrganizationData => ProcessOrganization(row, this);
            case NoteData => ProcessNote(row, this);
            case NicknameData => ProcessNickname(row, this);
            case EventData => ProcessEvent(row, this);
            case WebsiteData => ProcessWebsite(row, this);
          }
      }
    }

    /** Sets the avatar to the photo stored for the contact's own id, when there is one. */
    method SetAvatar(photoOf: int -> Option<Bitmap>)
      modifies this
      ensures contactPerson == WithAvatar(old(contactPerson), photoOf(ContactIdOf(old(contactPerson))))
    {
      var photo := photoOf(contactPerson.baseInfo.contactId);
      if photo.Some? {
        contactPerson := contactPerson.(baseInfo := contactPerson.baseInfo.(avatar := photo));
      }
    }

    /** The accumulated contact itself. */
    method Build() returns (p: ContactPerson)
      ensures p == contactPerson
    {
      p := contactPerson;
    }
  }
}
