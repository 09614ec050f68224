// The records the program stores and publishes. Kotlin data classes compare
// structurally, so every record is a Dafny datatype (a value).
module Entities {
  import opened Wrappers

  /** A decoded contact photo; only its identity matters here. */
  datatype Bitmap = Bitmap(pixels: seq<bv8>)

  /** Row of the `base_info` table; `contactId` is its primary key. */
  datatype BaseInfo = BaseInfo(
    contactId: int,
    disPlayName: string,
    noteInfo: string,
    nickName: string,
    updateTime: int,
    avatar: Option<Bitmap>)

  // Child rows. `id` is an auto-generated primary key; a freshly read row has id 0.
  datatype Phone = Phone(id: int, contactId: int, phoneType: string, phoneNumber: string)
  datatype IM = IM(id: int, contactId: int, imType: string, imNumber: string)
  datatype Email = Email(id: int, contactId: int, emailType: string, emailData: string)
  datatype Address = Address(
    id: int, contactId: int, street: string, city: string, region: string,
    postcode: string, formatted: string, addressType: string)
  datatype Organization = Organization(id: int, contactId: int, company: string, title: string)
  datatype Event = Event(id: int, contactId: int, event: string, date: string)
  datatype Website = Website(id: int, contactId: int, url: string, websiteType: string)

  /** One contact: its base row and the child rows of every kind. */
  datatype ContactPerson = ContactPerson(
    baseInfo: BaseInfo,
    phones: seq<Phone>,
    ims: seq<IM>,
    emails: seq<Email>,
    addresses: seq<Address>,
    organizations: seq<Organization>,
    events: seq<Event>,
    websites: seq<Website>)

  /** The key every contact list and table is reconciled on. */
  function ContactIdOf(c: ContactPerson): int { c.baseInfo.contactId }

  /** One call-log record; `callLogId` is the system's `_ID` and the primary key. */
  datatype CallLog = CallLog(
    callLogId: int,
    contactId: int,
    phoneNumber: string,
    name: Option<string>,
    timestamp: int,
    date: string,
    time: string,
    belongPlace: string,
    netName: string,
    duration: int,
    callType: int,
    simInfo: string)

  function CallLogIdOf(c: CallLog): int { c.callLogId }

  /** The contact record of the app module: a String id and nullable fields.
    * Its avatar and its seven child lists are not carried (see README). */
  datatype AppContact = AppContact(
    contactId: string,
    disPlayName: Option<string>,
    noteInfo: Option<string>,
    nickName: Option<string>,
    updateTime: Option<int>)

  function AppContactIdOf(c: AppContact): string { c.contactId }

  /** The call-log record of the app module (`room/entity/CallLogEntity.kt`). */
  datatype AppCallLog = AppCallLog(
    id: int,
    phoneNumber: string,
    name: Option<string>,
    timestamp: int,
    date: string,
    time: string,
    belongPlace: string,
    netName: string,
    duration: int,
    callType: int)
}
