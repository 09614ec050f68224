// The contact tables of the communication module's Room database: `base_info`
// keyed by contactId, and one table per child kind whose rows have an
// auto-generated id and point to their contact by contactId. The operations
// are those `ContactManager` and `ContactService` run against it.
module ContactStore {
  import opened Wrappers
  import opened Seqs
  import opened Entities
  import opened Reconcile
  import opened Store
  import opened Sorting
  import ContactData

  datatype Db = Db(
    base: seq<BaseInfo>,
    addresses: Table<Address>,
    emails: Table<Email>,
    events: Table<Event>,
    ims: Table<IM>,
    organizations: Table<Organization>,
    phones: Table<Phone>,
    websites: Table<Website>)

  function BaseIdOf(b: BaseInfo): int { b.contactId }

  /** `base_info` has contactId as its primary key. */
  ghost predicate Valid(db: Db)
  {
    DistinctKeys(db.base, BaseIdOf)
  }

  // Key, owner and id-assignment of each child kind.
  function AddressId(x: Address): int { x.id }
  function AddressOwner(x: Address): int { x.contactId }
  function AddressWithId(x: Address, n: int): Address { x.(id := n) }
  function AddressClear(x: Address): Address { x.(id := 0) }
  function EmailId(x: Email): int { x.id }
  function EmailOwner(x: Email): int { x.contactId }
  function EmailWithId(x: Email, n: int): Email { x.(id := n) }
  function EmailClear(x: Email): Email { x.(id := 0) }
  function EventId(x: Event): int { x.id }
  function EventOwner(x: Event): int { x.contactId }
  function EventWithId(x: Event, n: int): Event { x.(id := n) }
  function EventClear(x: Event): Event { x.(id := 0) }
  function ImId(x: IM): int { x.id }
  function ImOwner(x: IM): int { x.contactId }
  function ImWithId(x: IM, n: int): IM { x.(id := n) }
  function ImClear(x: IM): IM { x.(id := 0) }
  function OrganizationId(x: Organization): int { x.id }
  function OrganizationOwner(x: Organization): int { x.contactId }
  function OrganizationWithId(x: Organization, n: int): Organization { x.(id := n) }
  function OrganizationClear(x: Organization): Organization { x.(id := 0) }
  function PhoneId(x: Phone): int { x.id }
  function PhoneOwner(x: Phone): int { x.contactId }
  function PhoneWithId(x: Phone, n: int): Phone { x.(id := n) }
  function PhoneClear(x: Phone): Phone { x.(id := 0) }
  function WebsiteId(x: Website): int { x.id }
  function WebsiteOwner(x: Website): int { x.contactId }
  function WebsiteWithId(x: Website, n: int): Website { x.(id := n) }
  function WebsiteClear(x: Website): Website { x.(id := 0) }

  /** A contact as the provider queries build it: every child record is not
    * yet stored (id 0) and carries the contact's id. */
  ghost predicate Fresh(p: ContactPerson)
  {
    var c := ContactIdOf(p);
    (forall i :: 0 <= i < |p.addresses| ==> p.addresses[i].id == 0 && p.addresses[i].contactId == c)
    && (forall i :: 0 <= i < |p.emails| ==> p.emails[i].id == 0 && p.emails[i].contactId == c)
    && (forall i :: 0 <= i < |p.events| ==> p.events[i].id == 0 && p.events[i].contactId == c)
    && (forall i :: 0 <= i < |p.ims| ==> p.ims[i].id == 0 && p.ims[i].contactId == c)
    && (forall i :: 0 <= i < |p.organizations| ==> p.organizations[i].id == 0 && p.organizations[i].contactId == c)
    && (forall i :: 0 <= i < |p.phones| ==> p.phones[i].id == 0 && p.phones[i].contactId == c)
    && (forall i :: 0 <= i < |p.websites| ==> p.websites[i].id == 0 && p.websites[i].contactId == c)
  }

  /** A contact with every child id cleared: the stored rows compared up to
    * the ids the store handed out. */
  function Unnumbered(p: ContactPerson): ContactPerson
  {
    ContactPerson(p.baseInfo,
      Keys(p.phones, PhoneClear), Keys(p.ims, ImClear), Keys(p.emails, EmailClear),
      Keys(p.addresses, AddressClear), Keys(p.organizations, OrganizationClear),
      Keys(p.events, EventClear), Keys(p.websites, WebsiteClear))
  }

  // ---- buildContactPersonList

  /** One contact of `buildContactPersonList`: the base row with the rows of
    * each child list whose contactId is the base row's. */
  function Assemble(b: BaseInfo, addresses: seq<Address>, emails: seq<Email>, events: seq<Event>,
                    ims: seq<IM>, organizations: seq<Organization>, phones: seq<Phone>,
                    websites: seq<Website>): ContactPerson
  {
    var c := b.contactId;
    ContactPerson(b,
      Filter(phones, Owned(PhoneOwner, c)), Filter(ims, Owned(ImOwner, c)),
      Filter(emails, Owned(EmailOwner, c)), Filter(addresses, Owned(AddressOwner, c)),
      Filter(organizations, Owned(OrganizationOwner, c)), Filter(events, Owned(EventOwner, c)),
      Filter(websites, Owned(WebsiteOwner, c)))
  }

  /** `buildContactPersonList`: one contact per base row, in base-row order. */
  function BuildContactPersonList(contacts: seq<BaseInfo>, addresses: seq<Address>, emails: seq<Email>,
                                  events: seq<Event>, ims: seq<IM>, organizations: seq<Organization>,
                                  phones: seq<Phone>, websites: seq<Website>): (r: seq<ContactPerson>)
    ensures |r| == |contacts|
    ensures forall i :: 0 <= i < |r| ==> r[i].baseInfo == contacts[i]
  {
    seq(|contacts|, i requires 0 <= i < |contacts| =>
      Assemble(contacts[i], addresses, emails, events, ims, organizations, phones, websites))
  }

  /** Each contact gets exactly the child rows with its id, in table order. */
  lemma BuildAttachesOwnRows(contacts: seq<BaseInfo>, addresses: seq<Address>, emails: seq<Email>,
                             events: seq<Event>, ims: seq<IM>, organizations: seq<Organization>,
                             phones: seq<Phone>, websites: seq<Website>, i: nat)
    requires i < |contacts|
    ensures var p := BuildContactPersonList(contacts, addresses, emails, events, ims, organizations, phones, websites)[i];
      var c := contacts[i].contactId;
      (forall x :: x in p.phones <==> x in phones && x.contactId == c)
      && (forall x :: x in p.ims <==> x in ims && x.contactId == c)
      && (forall x :: x in p.emails <==> x in emails && x.contactId == c)
      && (forall x :: x in p.addresses <==> x in addresses && x.contactId == c)
      && (forall x :: x in p.organizations <==> x in organizations && x.contactId == c)
      && (forall x :: x in p.events <==> x in events && x.contactId == c)
      && (forall x :: x in p.websites <==> x in websites && x.contactId == c)
  {
    var c := contacts[i].contactId;
    var p := BuildContactPersonList(contacts, addresses, emails, events, ims, organizations, phones, websites)[i];
    assert p == Assemble(contacts[i], addresses, emails, events, ims, organizations, phones, websites);
    assert forall x :: x in p.addresses <==> x in addresses && x.contactId == c by {
      OwnedMembers(addresses, AddressOwner, c);
    }
    assert forall x :: x in p.emails <==> x in emails && x.contactId == c by {
      OwnedMembers(emails, EmailOwner, c);
    }
    assert forall x :: x in p.events <==> x in events && x.contactId == c by {
      OwnedMembers(events, EventOwner, c);
    }
    assert forall x :: x in p.ims <==> x in ims && x.contactId == c by {
      OwnedMembers(ims, ImOwner, c);
    }
    assert forall x :: x in p.organizations <==> x in organizations && x.contactId == c by {
      OwnedMembers(organizations, OrganizationOwner, c);
    }
    assert forall x :: x in p.phones <==> x in phones && x.contactId == c by {
      OwnedMembers(phones, PhoneOwner, c);
    }
    assert forall x :: x in p.websites <==> x in websites && x.contactId == c by {
      OwnedMembers(websites, WebsiteOwner, c);
    }
  }



  /** The stored contact of a base row: the rows each child table holds for it. */
  function StoredContact(db: Db, b: BaseInfo): ContactPerson
  {
    Assemble(b, db.addresses.rows, db.emails.rows, db.events.rows, db.ims.rows,
      db.organizations.rows, db.phones.rows, db.websites.rows)
  }

  /** `findAll` of every table joined by `buildContactPersonList`. */
  function FindAllContacts(db: Db): seq<ContactPerson>
  {
    BuildContactPersonList(db.base, db.addresses.rows, db.emails.rows, db.events.rows, db.ims.rows,
      db.organizations.rows, db.phones.rows, db.websites.rows)
  }

  /** The full join gives every base row its stored contact, in table order. */
  lemma FindAllContactsStored(db: Db, i: nat)
    requires i < |db.base|
    ensures FindAllContacts(db)[i] == StoredContact(db, db.base[i])
  {
  }

  // ---- upsertContactPersonRoom

  /** `upsertContactPersonRoom` for one contact as written: each child list
    * upserted into its table (addresses, emails, events, IMs, organizations,
    * phones, websites), then the base row. */
  function SavePerson(db: Db, p: ContactPerson): Db
  {
    Db(UpsertRow(db.base, p.baseInfo, BaseIdOf),
      UpsertChildren(db.addresses, p.addresses, AddressId, AddressWithId),
      UpsertChildren(db.emails, p.emails, EmailId, EmailWithId),
      UpsertChildren(db.events, p.events, EventId, EventWithId),
      UpsertChildren(db.ims, p.ims, ImId, ImWithId),
      UpsertChildren(db.organizations, p.organizations, OrganizationId, OrganizationWithId),
      UpsertChildren(db.phones, p.phones, PhoneId, PhoneWithId),
      UpsertChildren(db.websites, p.websites, WebsiteId, WebsiteWithId))
  }

  /** As written, a fresh contact's child rows are all added next to the rows
    * already stored for it: nothing replaces them. */
  lemma SavePersonAddsRows(db: Db, p: ContactPerson)
    requires Fresh(p)
    ensures ContactData.ChildCount(StoredContact(SavePerson(db, p), p.baseInfo))
         == ContactData.ChildCount(StoredContact(db, p.baseInfo)) + ContactData.ChildCount(p)
  {
    var c := ContactIdOf(p);
    var s0, s1 := StoredContact(db, p.baseInfo), StoredContact(SavePerson(db, p), p.baseInfo);
    assert |s1.addresses| == |s0.addresses| + |p.addresses| by {
      SaveOwnRowsAdds(db.addresses, p.addresses, AddressId, AddressWithId, AddressOwner, c);
    }
    assert |s1.emails| == |s0.emails| + |p.emails| by {
      SaveOwnRowsAdds(db.emails, p.emails, EmailId, EmailWithId, EmailOwner, c);
    }
    assert |s1.events| == |s0.events| + |p.events| by {
      SaveOwnRowsAdds(db.events, p.events, EventId, EventWithId, EventOwner, c);
    }
    assert |s1.ims| == |s0.ims| + |p.ims| by {
      SaveOwnRowsAdds(db.ims, p.ims, ImId, ImWithId, ImOwner, c);
    }
    assert |s1.organizations| == |s0.organizations| + |p.organizations| by {
      SaveOwnRowsAdds(db.organizations, p.organizations, OrganizationId, OrganizationWithId, OrganizationOwner, c);
    }
    assert |s1.phones| == |s0.phones| + |p.phones| by {
      SaveOwnRowsAdds(db.phones, p.phones, PhoneId, PhoneWithId, PhoneOwner, c);
    }
    assert |s1.websites| == |s0.websites| + |p.websites| by {
      SaveOwnRowsAdds(db.websites, p.websites, WebsiteId, WebsiteWithId, WebsiteOwner, c);
    }
  }


  /** The store holds contact 5 with one phone row; the provider reports the
    * same contact with the same phone again. After the upsert the store
    * holds two phone rows for it, and the full join shows the phone twice. */
  lemma SavePersonDuplicatesPhone()
    ensures var b := BaseInfo(5, "A", "", "", 1, None);
      var db := Db([b], Table([], 0), Table([], 0), Table([], 0), Table([], 0), Table([], 0),
        Table([Phone(1, 5, "手机", "100")], 1), Table([], 0));
      var p := ContactPerson(b, [Phone(0, 5, "手机", "100")], [], [], [], [], [], []);
      |StoredContact(SavePerson(db, p), b).phones| == 2
      && |FindAllContacts(SavePerson(db, p))| == 1
      && |FindAllContacts(SavePerson(db, p))[0].phones| == 2
  {
    var b := BaseInfo(5, "A", "", "", 1, None);
    var db := Db([b], Table([], 0), Table([], 0), Table([], 0), Table([], 0), Table([], 0),
      Table([Phone(1, 5, "手机", "100")], 1), Table([], 0));
    var p := ContactPerson(b, [Phone(0, 5, "手机", "100")], [], [], [], [], [], []);
    var db1 := SavePerson(db, p);
    assert UpsertRow([b], b, BaseIdOf) == [b];
    assert db1.phones.rows == [Phone(1, 5, "手机", "100"), Phone(2, 5, "手机", "100")] by {
      assert p.phones[..0] == [];
    }
    assert Filter(db1.phones.rows, Owned(PhoneOwner, 5)) == db1.phones.rows by {
      FilterAll(db1.phones.rows, Owned(PhoneOwner, 5));
    }
    assert db1.base == [b];
    FindAllContactsStored(db1, 0);
  }

  /** The child rows of the given contacts dropped, base rows kept. */
  function DeleteChildren(db: Db, ids: seq<int>): Db
  {
    Db(db.base,
      DeleteOwnedBy(db.addresses, AddressOwner, ids), DeleteOwnedBy(db.emails, EmailOwner, ids),
      DeleteOwnedBy(db.events, EventOwner, ids), DeleteOwnedBy(db.ims, ImOwner, ids),
      DeleteOwnedBy(db.organizations, OrganizationOwner, ids), DeleteOwnedBy(db.phones, PhoneOwner, ids),
      DeleteOwnedBy(db.websites, WebsiteOwner, ids))
  }

  /** The upsert as evidently intended: the contact's old child rows are
    * dropped before its current ones are stored. */
  function ReplacePerson(db: Db, p: ContactPerson): Db
  {
    SavePerson(DeleteChildren(db, [ContactIdOf(p)]), p)
  }

  /** `upsertContactPersonRoom(list)`, contact by contact in list order. */
  function ReplacePersons(db: Db, ps: seq<ContactPerson>): Db
  {
    if ps == [] then db else ReplacePerson(ReplacePersons(db, ps[..|ps| - 1]), ps[|ps| - 1])
  }

  /** After the intended upsert the store holds the contact as given: its base
    * row, and exactly its child rows in order up to the ids handed out. */
  lemma ReplacePersonStored(db: Db, p: ContactPerson)
    requires Fresh(p)
    ensures Lookup(ReplacePerson(db, p).base, BaseIdOf, ContactIdOf(p)) == Some(p.baseInfo)
    ensures Unnumbered(StoredContact(ReplacePerson(db, p), p.baseInfo)) == p
  {
    var c := ContactIdOf(p);
    var s1 := StoredContact(ReplacePerson(db, p), p.baseInfo);
    UpsertRowLookup(db.base, p.baseInfo, BaseIdOf, c);
    assert Keys(s1.addresses, AddressClear) == p.addresses by {
      ReplaceOwnRows(db.addresses, p.addresses, AddressId, AddressWithId, AddressClear, AddressOwner, c);
    }
    assert Keys(s1.emails, EmailClear) == p.emails by {
      ReplaceOwnRows(db.emails, p.emails, EmailId, EmailWithId, EmailClear, EmailOwner, c);
    }
    assert Keys(s1.events, EventClear) == p.events by {
      ReplaceOwnRows(db.events, p.events, EventId, EventWithId, EventClear, EventOwner, c);
    }
    assert Keys(s1.ims, ImClear) == p.ims by {
      ReplaceOwnRows(db.ims, p.ims, ImId, ImWithId, ImClear, ImOwner, c);
    }
    assert Keys(s1.organizations, OrganizationClear) == p.organizations by {
      ReplaceOwnRows(db.organizations, p.organizations, OrganizationId, OrganizationWithId, OrganizationClear, OrganizationOwner, c);
    }
    assert Keys(s1.phones, PhoneClear) == p.phones by {
      ReplaceOwnRows(db.phones, p.phones, PhoneId, PhoneWithId, PhoneClear, PhoneOwner, c);
    }
    assert Keys(s1.websites, WebsiteClear) == p.websites by {
      ReplaceOwnRows(db.websites, p.websites, WebsiteId, WebsiteWithId, WebsiteClear, WebsiteOwner, c);
    }
  }


  /** The intended upsert of one contact leaves every other contact as stored. */
  lemma ReplacePersonKeepsOthers(db: Db, p: ContactPerson, b: BaseInfo)
    requires Fresh(p) && b.contactId != ContactIdOf(p)
    ensures Lookup(ReplacePerson(db, p).base, BaseIdOf, b.contactId) == Lookup(db.base, BaseIdOf, b.contactId)
    ensures StoredContact(ReplacePerson(db, p), b) == StoredContact(db, b)
  {
    var c, k := ContactIdOf(p), b.contactId;
    var s0, s1 := StoredContact(db, b), StoredContact(ReplacePerson(db, p), b);
    UpsertRowLookup(db.base, p.baseInfo, BaseIdOf, k);
    assert s1.addresses == s0.addresses by {
      ReplaceOtherRows(db.addresses, p.addresses, AddressId, AddressWithId, AddressOwner, c, k);
    }
    assert s1.emails == s0.emails by {
      ReplaceOtherRows(db.emails, p.emails, EmailId, EmailWithId, EmailOwner, c, k);
    }
    assert s1.events == s0.events by {
      ReplaceOtherRows(db.events, p.events, EventId, EventWithId, EventOwner, c, k);
    }
    assert s1.ims == s0.ims by {
      ReplaceOtherRows(db.ims, p.ims, ImId, ImWithId, ImOwner, c, k);
    }
    assert s1.organizations == s0.organizations by {
      ReplaceOtherRows(db.organizations, p.organizations, OrganizationId, OrganizationWithId, OrganizationOwner, c, k);
    }
    assert s1.phones == s0.phones by {
      ReplaceOtherRows(db.phones, p.phones, PhoneId, PhoneWithId, PhoneOwner, c, k);
    }
    assert s1.websites == s0.websites by {
      ReplaceOtherRows(db.websites, p.websites, WebsiteId, WebsiteWithId, WebsiteOwner, c, k);
    }
  }


  /** Upserting a list is upserting its front, then its last contact. */
  lemma ReplacePersonsSnoc(db: Db, ps: seq<ContactPerson>)
    requires ps != [] && forall i :: 0 <= i < |ps| ==> Fresh(ps[i])
    ensures var n := |ps| - 1;
      && ReplacePersons(db, ps) == ReplacePerson(ReplacePersons(db, ps[..n]), ps[n])
      && AssociateBy(ps, ContactIdOf) == AssociateBy(ps[..n], ContactIdOf)[ContactIdOf(ps[n]) := ps[n]]
      && forall i :: 0 <= i < n ==> Fresh(ps[..n][i])
  {
    var n := |ps| - 1;
    forall i | 0 <= i < n ensures Fresh(ps[..n][i]) {
      assert ps[..n][i] == ps[i];
    }
  }

  /** After upserting a list of fresh contacts, each id of the list is stored
    * as its last contact in the list, and every other contact is as it was. */
  lemma {:induction false} ReplacePersonsStored(db: Db, ps: seq<ContactPerson>, b: BaseInfo)
    requires forall i :: 0 <= i < |ps| ==> Fresh(ps[i])
    ensures var byId := AssociateBy(ps, ContactIdOf);
      var db1 := ReplacePersons(db, ps);
      && (b.contactId in byId ==>
            Lookup(db1.base, BaseIdOf, b.contactId) == Some(byId[b.contactId].baseInfo)
            && Unnumbered(StoredContact(db1, byId[b.contactId].baseInfo)) == byId[b.contactId])
      && (b.contactId !in byId ==>
            Lookup(db1.base, BaseIdOf, b.contactId) == Lookup(db.base, BaseIdOf, b.contactId)
            && StoredContact(db1, b) == StoredContact(db, b))
  {
    if ps != [] {
      var n, k := |ps| - 1, b.contactId;
      var x := ps[n];
      var db0 := ReplacePersons(db, ps[..n]);
      var m := AssociateBy(ps[..n], ContactIdOf);
      ReplacePersonsSnoc(db, ps);
      ReplacePersonsStored(db, ps[..n], b);
      if ContactIdOf(x) == k {
        ReplacePersonStored(db0, x);
      } else if k in m {
        ReplacePersonKeepsOthers(db0, x, b);
        ReplacePersonKeepsOthers(db0, x, m[k].baseInfo);
      } else {
        ReplacePersonKeepsOthers(db0, x, b);
      }
    }
  }

  lemma SavePersonValid(db: Db, p: ContactPerson)
    requires Valid(db)
    ensures Valid(SavePerson(db, p))
  {
    UpsertRowDistinct(db.base, p.baseInfo, BaseIdOf);
  }

  lemma {:induction false} ReplacePersonsValid(db: Db, ps: seq<ContactPerson>)
    requires Valid(db)
    ensures Valid(ReplacePersons(db, ps))
  {
    if ps != [] {
      ReplacePersonsValid(db, ps[..|ps| - 1]);
      SavePersonValid(DeleteChildren(ReplacePersons(db, ps[..|ps| - 1]), [ContactIdOf(ps[|ps| - 1])]), ps[|ps| - 1]);
    }
  }

  // ---- deleteContactPersonByContactIds

  /** `deleteContactPersonByContactIds`: every table loses the rows of the ids. */
  function DeleteContacts(db: Db, ids: seq<int>): Db
  {
    DeleteChildren(db, ids).(base := DeleteIn(db.base, BaseIdOf, ids))
  }

  /** A deleted contact is gone from every table; any other is as it was. */
  lemma DeleteContactsEffect(db: Db, ids: seq<int>, b: BaseInfo)
    ensures b.contactId in ids ==>
      Lookup(DeleteContacts(db, ids).base, BaseIdOf, b.contactId) == None
      && ContactData.ChildCount(StoredContact(DeleteContacts(db, ids), b)) == 0
    ensures b.contactId !in ids ==>
      Lookup(DeleteContacts(db, ids).base, BaseIdOf, b.contactId) == Lookup(db.base, BaseIdOf, b.contactId)
      && StoredContact(DeleteContacts(db, ids), b) == StoredContact(db, b)
  {
    var k := b.contactId;
    DeleteInLookup(db.base, BaseIdOf, ids, k);
    if k in ids {
      DeleteOwnEmpties(db.addresses.rows, AddressOwner, ids, k);
      DeleteOwnEmpties(db.emails.rows, EmailOwner, ids, k);
      DeleteOwnEmpties(db.events.rows, EventOwner, ids, k);
      DeleteOwnEmpties(db.ims.rows, ImOwner, ids, k);
      DeleteOwnEmpties(db.organizations.rows, OrganizationOwner, ids, k);
      DeleteOwnEmpties(db.phones.rows, PhoneOwner, ids, k);
      DeleteOwnEmpties(db.websites.rows, WebsiteOwner, ids, k);
    } else {
      DeleteOthersKeeps(db.addresses.rows, AddressOwner, ids, k);
      DeleteOthersKeeps(db.emails.rows, EmailOwner, ids, k);
      DeleteOthersKeeps(db.events.rows, EventOwner, ids, k);
      DeleteOthersKeeps(db.ims.rows, ImOwner, ids, k);
      DeleteOthersKeeps(db.organizations.rows, OrganizationOwner, ids, k);
      DeleteOthersKeeps(db.phones.rows, PhoneOwner, ids, k);
      DeleteOthersKeeps(db.websites.rows, WebsiteOwner, ids, k);
    }
  }

  lemma DeleteContactsValid(db: Db, ids: seq<int>)
    requires Valid(db)
    ensures Valid(DeleteContacts(db, ids))
  {
    DeleteInDistinct(db.base, BaseIdOf, ids);
  }

  // ---- loadAllContactPersonFromRoom

  /** The two joins `loadAllContactPersonFromRoom` builds: the first page, and
    * the contacts below the page's last contactId. */
  datatype Loaded = Loaded(page: seq<ContactPerson>, rest: seq<ContactPerson>)

  function BaseOf(c: ContactPerson): BaseInfo { c.baseInfo }

  /** The first page as written: `findInitialLoadData(n)` of the base table
    * joined with `findInitialLoadData(n)` of every child table, that is the
    * first n child ROWS by descending contactId, whoever owns them. */
  function PageAsWritten(db: Db, n: nat): seq<ContactPerson>
  {
    BuildContactPersonList(FirstPage(db.base, BaseIdOf, n), FirstPage(db.addresses.rows, AddressOwner, n), FirstPage(db.emails.rows, EmailOwner, n), FirstPage(db.events.rows, EventOwner, n), FirstPage(db.ims.rows, ImOwner, n), FirstPage(db.organizations.rows, OrganizationOwner, n), FirstPage(db.phones.rows, PhoneOwner, n), FirstPage(db.websites.rows, WebsiteOwner, n))
  }

  /** `findByContactIdLessThan(bound)` of every table, joined. */
  function RestBelow(db: Db, bound: int): seq<ContactPerson>
  {
    BuildContactPersonList(Below(db.base, BaseIdOf, bound), Below(db.addresses.rows, AddressOwner, bound), Below(db.emails.rows, EmailOwner, bound), Below(db.events.rows, EventOwner, bound), Below(db.ims.rows, ImOwner, bound), Below(db.organizations.rows, OrganizationOwner, bound), Below(db.phones.rows, PhoneOwner, bound), Below(db.websites.rows, WebsiteOwner, bound))
  }

  /** `loadAllContactPersonFromRoom` as written; `contacts.last()` of an empty
    * first page throws, which is `None`. */
  function LoadAllAsWritten(db: Db, n: nat): Option<Loaded>
  {
    var page := FirstPage(db.base, BaseIdOf, n);
    if page == [] then None
    else Some(Loaded(PageAsWritten(db, n), RestBelow(db, page[|page| - 1].contactId)))
  }

  /** A contact with two phones and a page of one: the page's join keeps one
    * of the two phones, and the rest holds nothing of the contact, so the
    * published list loses a stored phone. */
  lemma LoadAllAsWrittenLosesPhone()
    ensures var b := BaseInfo(5, "A", "", "", 1, None);
      var db := Db([b], Table([], 0), Table([], 0), Table([], 0), Table([], 0), Table([], 0),
        Table([Phone(1, 5, "手机", "100"), Phone(2, 5, "手机", "200")], 2), Table([], 0));
      && LoadAllAsWritten(db, 1).Some?
      && |LoadAllAsWritten(db, 1).value.page| == 1
      && LoadAllAsWritten(db, 1).value.rest == []
      && |LoadAllAsWritten(db, 1).value.page[0].phones| == 1
      && |StoredContact(db, b).phones| == 2
  {
    var b := BaseInfo(5, "A", "", "", 1, None);
    var p1, p2 := Phone(1, 5, "手机", "100"), Phone(2, 5, "手机", "200");
    var db := Db([b], Table([], 0), Table([], 0), Table([], 0), Table([], 0), Table([], 0),
      Table([p1, p2], 2), Table([], 0));
    assert FirstPage(db.base, BaseIdOf, 1) == [b] by {
      assert SortBy([b], Descending(BaseIdOf)) == [b] by {
        assert [b][1..] == [];
      }
    }
    assert PhoneOwner(p1) == PhoneOwner(p2) == 5;
    assert FirstPage(db.phones.rows, PhoneOwner, 1) == [p1] by {
      var le := Descending(PhoneOwner);
      assert le(p1, p2);
      assert [p1, p2][1..] == [p2] && [p2][1..] == [];
      assert SortBy([p2], le) == [p2];
      assert Insert(p1, [p2], le) == [p1, p2];
    }
    assert Below(db.base, BaseIdOf, 5) == [] by {
      assert [b][1..] == [];
    }
    var own := Owned(PhoneOwner, 5);
    assert own(p1) && own(p2);
    assert StoredContact(db, b).phones == [p1, p2] by {
      var s := [p1, p2];
      assert forall i :: 0 <= i < |s| ==> own(s[i]);
      FilterAll(s, own);
    }
    var page := PageAsWritten(db, 1);
    assert page[0].phones == Filter([p1], Owned(PhoneOwner, 5));
    assert page[0].phones == [p1] by {
      var s := [p1];
      assert forall i :: 0 <= i < |s| ==> own(s[i]);
      FilterAll(s, own);
    }
  }

  /** The first page joined with every child row at or above the page's last
    * contactId: each contact of the page gets all of its rows. */
  function PageAtLeast(db: Db, n: nat, bound: int): seq<ContactPerson>
  {
    BuildContactPersonList(FirstPage(db.base, BaseIdOf, n), AtLeast(db.addresses.rows, AddressOwner, bound), AtLeast(db.emails.rows, EmailOwner, bound), AtLeast(db.events.rows, EventOwner, bound), AtLeast(db.ims.rows, ImOwner, bound), AtLeast(db.organizations.rows, OrganizationOwner, bound), AtLeast(db.phones.rows, PhoneOwner, bound), AtLeast(db.websites.rows, WebsiteOwner, bound))
  }

  /** `loadAllContactPersonFromRoom` with the page's child reads bounded by
    * contactId rather than by a row count. */
  function LoadAll(db: Db, n: nat): Option<Loaded>
  {
    var page := FirstPage(db.base, BaseIdOf, n);
    if page == [] then None
    else
      var bound := PageBound(db, n);
      Some(Loaded(PageAtLeast(db, n, bound), RestBelow(db, bound)))
  }

  /** The base rows of a join are the base rows it was given. */
  lemma BuildBases(contacts: seq<BaseInfo>, addresses: seq<Address>, emails: seq<Email>,
                   events: seq<Event>, ims: seq<IM>, organizations: seq<Organization>,
                   phones: seq<Phone>, websites: seq<Website>)
    ensures Keys(BuildContactPersonList(contacts, addresses, emails, events, ims, organizations, phones, websites), BaseOf)
      == contacts
  {
  }

  /** `c` is its contact as the tables hold it: its base row with all of its
    * child rows. */
  predicate IsStored(db: Db, c: ContactPerson)
  {
    c == StoredContact(db, c.baseInfo)
  }

  /** A contact of the rest is joined with all of its stored rows. */
  lemma RestStored(db: Db, bound: int, i: nat)
    requires i < |RestBelow(db, bound)|
    ensures IsStored(db, RestBelow(db, bound)[i])
  {
    var b := Below(db.base, BaseIdOf, bound)[i];
    var c := b.contactId;
    assert RestBelow(db, bound)[i] == Assemble(b, Below(db.addresses.rows, AddressOwner, bound), Below(db.emails.rows, EmailOwner, bound), Below(db.events.rows, EventOwner, bound), Below(db.ims.rows, ImOwner, bound), Below(db.organizations.rows, OrganizationOwner, bound), Below(db.phones.rows, PhoneOwner, bound), Below(db.websites.rows, WebsiteOwner, bound));
    assert c < bound;
    BelowOwned(db.addresses.rows, AddressOwner, bound, c);
    BelowOwned(db.emails.rows, EmailOwner, bound, c);
    BelowOwned(db.events.rows, EventOwner, bound, c);
    BelowOwned(db.ims.rows, ImOwner, bound, c);
    BelowOwned(db.organizations.rows, OrganizationOwner, bound, c);
    BelowOwned(db.phones.rows, PhoneOwner, bound, c);
    BelowOwned(db.websites.rows, WebsiteOwner, bound, c);
  }

  /** The contactId of the last contact of the first page. */
  function PageBound(db: Db, n: nat): int
    requires FirstPage(db.base, BaseIdOf, n) != []
  {
    var page := FirstPage(db.base, BaseIdOf, n);
    page[|page| - 1].contactId
  }

  /** A contact of the corrected page is joined with all of its stored rows. */
  lemma PageStored(db: Db, n: nat, bound: int, i: nat)
    requires FirstPage(db.base, BaseIdOf, n) != [] && bound == PageBound(db, n)
    requires i < |PageAtLeast(db, n, bound)|
    ensures IsStored(db, PageAtLeast(db, n, bound)[i])
  {
    var b := FirstPage(db.base, BaseIdOf, n)[i];
    var c := b.contactId;
    assert PageAtLeast(db, n, bound)[i] == Assemble(b, AtLeast(db.addresses.rows, AddressOwner, bound), AtLeast(db.emails.rows, EmailOwner, bound), AtLeast(db.events.rows, EventOwner, bound), AtLeast(db.ims.rows, ImOwner, bound), AtLeast(db.organizations.rows, OrganizationOwner, bound), AtLeast(db.phones.rows, PhoneOwner, bound), AtLeast(db.websites.rows, WebsiteOwner, bound));
    assert c >= bound by {
      FirstPageAbove(db.base, BaseIdOf, n, i);
    }
    AtLeastOwned(db.addresses.rows, AddressOwner, bound, c);
    AtLeastOwned(db.emails.rows, EmailOwner, bound, c);
    AtLeastOwned(db.events.rows, EventOwner, bound, c);
    AtLeastOwned(db.ims.rows, ImOwner, bound, c);
    AtLeastOwned(db.organizations.rows, OrganizationOwner, bound, c);
    AtLeastOwned(db.phones.rows, PhoneOwner, bound, c);
    AtLeastOwned(db.websites.rows, WebsiteOwner, bound, c);
  }

  /** The rest followed by the corrected page holds every stored contact once. */
  lemma LoadAllKeys(db: Db, n: nat, bound: int)
    requires Valid(db)
    requires FirstPage(db.base, BaseIdOf, n) != [] && bound == PageBound(db, n)
    ensures multiset(Keys(RestBelow(db, bound) + PageAtLeast(db, n, bound), BaseOf)) == multiset(db.base)
  {
    var page := FirstPage(db.base, BaseIdOf, n);
    KeysConcat(RestBelow(db, bound), PageAtLeast(db, n, bound), BaseOf);
    BuildBases(Below(db.base, BaseIdOf, bound), Below(db.addresses.rows, AddressOwner, bound), Below(db.emails.rows, EmailOwner, bound), Below(db.events.rows, EventOwner, bound), Below(db.ims.rows, ImOwner, bound), Below(db.organizations.rows, OrganizationOwner, bound), Below(db.phones.rows, PhoneOwner, bound), Below(db.websites.rows, WebsiteOwner, bound));
    BuildBases(page, AtLeast(db.addresses.rows, AddressOwner, bound), AtLeast(db.emails.rows, EmailOwner, bound), AtLeast(db.events.rows, EventOwner, bound), AtLeast(db.ims.rows, ImOwner, bound), AtLeast(db.organizations.rows, OrganizationOwner, bound), AtLeast(db.phones.rows, PhoneOwner, bound), AtLeast(db.websites.rows, WebsiteOwner, bound));
    PageThenBelow(db.base, BaseIdOf, n);
  }

  /** Every contact of the rest, and every one of the corrected page, is stored. */
  lemma EachStored(db: Db, n: nat, bound: int)
    requires FirstPage(db.base, BaseIdOf, n) != [] && bound == PageBound(db, n)
    ensures forall i :: 0 <= i < |RestBelow(db, bound)| ==> IsStored(db, RestBelow(db, bound)[i])
    ensures forall i :: 0 <= i < |PageAtLeast(db, n, bound)| ==> IsStored(db, PageAtLeast(db, n, bound)[i])
  {
    forall i | 0 <= i < |RestBelow(db, bound)| ensures IsStored(db, RestBelow(db, bound)[i]) {
      RestStored(db, bound, i);
    }
    forall i | 0 <= i < |PageAtLeast(db, n, bound)| ensures IsStored(db, PageAtLeast(db, n, bound)[i]) {
      PageStored(db, n, bound, i);
    }
  }

  lemma StoredConcat(db: Db, rest: seq<ContactPerson>, page: seq<ContactPerson>)
    requires forall i :: 0 <= i < |rest| ==> IsStored(db, rest[i])
    requires forall i :: 0 <= i < |page| ==> IsStored(db, page[i])
    ensures forall i :: 0 <= i < |rest + page| ==> IsStored(db, (rest + page)[i])
  {
    forall i | 0 <= i < |rest + page| ensures IsStored(db, (rest + page)[i]) {
      ConcatAt(rest, page, i);
    }
  }

  /** The corrected load: it fails exactly when the page is empty, and
    * otherwise the rest followed by the page holds every stored contact
    * once, each with all of its stored child rows. */
  lemma LoadAllComplete(db: Db, n: nat)
    requires Valid(db)
    ensures LoadAll(db, n).None? <==> n == 0 || db.base == []
    ensures LoadAll(db, n).Some? ==>
      var all := LoadAll(db, n).value.rest + LoadAll(db, n).value.page;
      && multiset(Keys(all, BaseOf)) == multiset(db.base)
      && forall i :: 0 <= i < |all| ==> IsStored(db, all[i])
  {
    if FirstPage(db.base, BaseIdOf, n) != [] {
      var bound := PageBound(db, n);
      var all := RestBelow(db, bound) + PageAtLeast(db, n, bound);
      assert LoadAll(db, n).value.rest + LoadAll(db, n).value.page == all;
      LoadAllKeys(db, n, bound);
      EachStored(db, n, bound);
      StoredConcat(db, RestBelow(db, bound), PageAtLeast(db, n, bound));
    }
  }
}
