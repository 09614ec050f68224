// `ContactQueryManager` and the cursor loops of `ContactUtil`: grouping the
// rows of the contacts data table into contacts, the `maxCount` cap, the id
// census, and the phone-number lookups. A cursor is the sequence of rows it
// delivers; a null cursor delivers none.
module ContactQuery {
  import opened Wrappers
  import opened Entities
  import opened Rows
  import opened Seqs
  import opened ContactData

  /** The linked map `contactsMap`: ids in insertion order and the contact of each. */
  datatype Gathered = Gathered(order: seq<int>, people: map<int, ContactPerson>)

  ghost predicate WellGathered(g: Gathered)
  {
    (forall i, j :: 0 <= i < j < |g.order| ==> g.order[i] != g.order[j])
    && (forall id :: id in g.people <==> id in g.order)
  }

  /** The contact `getOrPut` creates for the first row of an id. */
  function NewContact(row: Row): ContactPerson
  {
    EmptyPerson().(baseInfo := BaseInfoOf(row))
  }

  /** One pass of the loop body: get or create the contact of the row's id,
    * then process the row into it. */
  function Step(g: Gathered, row: Row): (r: Gathered)
    requires WellGathered(g)
    ensures WellGathered(r)
  {
    var id := RowContactId(row);
    if id in g.people then Gathered(g.order, g.people[id := ProcessRow(row, g.people[id])])
    else
      assert forall i :: 0 <= i < |g.order| ==> g.order[i] != id;
      Gathered(g.order + [id], g.people[id := ProcessRow(row, NewContact(row))])
  }

  /** Every row folded in, first to last. */
  function GatherAll(rows: seq<Row>): (r: Gathered)
    ensures WellGathered(r)
  {
    if rows == [] then Gathered([], map[])
    else Step(GatherAll(rows[..|rows| - 1]), rows[|rows| - 1])
  }

  /** The loop's `break`: `maxCount` contacts exist and row `i` starts a new one. */
  predicate StopsAt(rows: seq<Row>, maxCount: Option<int>, i: nat)
    requires i < |rows|
  {
    maxCount.Some? && |GatherAll(rows[..i]).order| >= maxCount.value
    && RowContactId(rows[i]) !in GatherAll(rows[..i]).people
  }

  /** The first row, from `from` on, at which the loop breaks, or the end. */
  function Cut(rows: seq<Row>, maxCount: Option<int>, from: nat): (r: nat)
    requires from <= |rows|
    ensures from <= r <= |rows|
    ensures r < |rows| ==> StopsAt(rows, maxCount, r)
    decreases |rows| - from
  {
    if from == |rows| then from
    else if StopsAt(rows, maxCount, from) then from
    else Cut(rows, maxCount, from + 1)
  }

  /** The loop does not break before the cut. */
  lemma {:induction false} CutSkips(rows: seq<Row>, maxCount: Option<int>, from: nat, i: nat)
    requires from <= |rows| && from <= i < Cut(rows, maxCount, from)
    ensures !StopsAt(rows, maxCount, i)
    decreases i - from
  {
    if from < i {
      CutSkips(rows, maxCount, from + 1, i);
    }
  }

  /** The values of `people` for the keys `order`, in that order. */
  function Values(order: seq<int>, people: map<int, ContactPerson>): (r: seq<ContactPerson>)
    requires forall i :: 0 <= i < |order| ==> order[i] in people
    ensures |r| == |order|
    ensures forall i :: 0 <= i < |r| ==> r[i] == people[order[i]]
  {
    if order == [] then [] else [people[order[0]]] + Values(order[1..], people)
  }

  /** `contactsMap.values`, in insertion order. */
  function Contacts(g: Gathered): (r: seq<ContactPerson>)
    requires WellGathered(g)
    ensures |r| == |g.order|
    ensures forall i :: 0 <= i < |r| ==> g.order[i] in g.people && r[i] == g.people[g.order[i]]
  {
    assert forall i :: 0 <= i < |g.order| ==> g.order[i] in g.order;
    Values(g.order, g.people)
  }

  /** The avatar pass over every contact. */
  function WithAvatars(cs: seq<ContactPerson>, photoOf: int -> Option<Bitmap>): (r: seq<ContactPerson>)
    ensures |r| == |cs|
    ensures forall i :: 0 <= i < |r| ==> r[i] == WithAvatar(cs[i], photoOf(ContactIdOf(cs[i])))
  {
    seq(|cs|, i requires 0 <= i < |cs| => WithAvatar(cs[i], photoOf(ContactIdOf(cs[i]))))
  }

  /** What `queryContacts` returns for the rows its cursor delivers. */
  function QueryResult(rows: seq<Row>, maxCount: Option<int>, photoOf: int -> Option<Bitmap>): seq<ContactPerson>
  {
    WithAvatars(Contacts(GatherAll(rows[..Cut(rows, maxCount, 0)])), photoOf)
  }

  /** The ids of the rows, in row order. */
  function RowIds(rows: seq<Row>): seq<int>
  {
    Keys(rows, RowContactId)
  }

  lemma GatherAllSnoc(rows: seq<Row>, i: nat)
    requires i < |rows|
    ensures GatherAll(rows[..i + 1]) == Step(GatherAll(rows[..i]), rows[i])
  {
    assert rows[..i + 1][..i] == rows[..i];
  }

  /** Processing a row never changes the id, name, update time or avatar of
    * the contact, and keeps its child records its own. */
  lemma ProcessRowKeeps(row: Row, p: ContactPerson)
    ensures SameIdentity(ProcessRow(row, p).baseInfo, p.baseInfo)
    ensures ChildrenOf(p, RowContactId(row)) ==> ChildrenOf(ProcessRow(row, p), RowContactId(row))
  {
    match CreateProcessor(GetStringValue(row, MIMETYPE)) {
      case None =>
      case Some(k) =>
        ProcessCounts(k, row, p);
        ProcessOwnsChildren(k, row, p);
    }
  }

  /** The grouping keeps the distinct row ids in first-occurrence order. */
  lemma {:induction false} GatherAllOrder(rows: seq<Row>)
    ensures GatherAll(rows).order == Distinct(RowIds(rows))
  {
    if rows != [] {
      var n := |rows| - 1;
      var init := rows[..n];
      GatherAllOrder(init);
      assert rows == init + [rows[n]];
      assert RowIds(rows) == RowIds(init) + [RowContactId(rows[n])];
      DistinctSnoc(RowIds(init), RowContactId(rows[n]));
    }
  }

  /** What the grouping promises of each contact: its id, name and update
    * time come from the first row of its id, and its child records carry its id. */
  ghost predicate FromFirstRow(rows: seq<Row>, g: Gathered)
  {
    forall id :: id in g.people ==> EntryFromFirstRow(rows, g, id)
  }

  ghost predicate EntryFromFirstRow(rows: seq<Row>, g: Gathered, id: int)
    requires id in g.people
  {
    var first := IndexOfKey(rows, RowContactId, id);
    0 <= first && SameIdentity(g.people[id].baseInfo, BaseInfoOf(rows[first]))
    && ChildrenOf(g.people[id], id)
  }

  lemma StepFromFirstRow(init: seq<Row>, row: Row, g: Gathered)
    requires WellGathered(g) && FromFirstRow(init, g)
    requires forall id :: id in g.people <==> IndexOfKey(init, RowContactId, id) != -1
    ensures FromFirstRow(init + [row], Step(g, row))
  {
    var id := RowContactId(row);
    var h := Step(g, row);
    var s := init + [row];
    forall k | k in h.people ensures EntryFromFirstRow(s, h, k) {
      if k != id {
        OldEntryFromFirstRow(init, row, g, h, k);
      } else if id in g.people {
        KnownEntryFromFirstRow(init, row, g);
      } else {
        NewEntryFromFirstRow(init, row, g);
      }
    }
  }

  /** A later row of a gathered id keeps the entry's first row. */
  lemma KnownEntryFromFirstRow(init: seq<Row>, row: Row, g: Gathered)
    requires WellGathered(g) && FromFirstRow(init, g)
    requires RowContactId(row) in g.people
    ensures RowContactId(row) in Step(g, row).people
    ensures EntryFromFirstRow(init + [row], Step(g, row), RowContactId(row))
  {
    var id := RowContactId(row);
    assert EntryFromFirstRow(init, g, id);
    OldEntryFromFirstRow(init, row, g, g, id);
    ProcessRowKeeps(row, g.people[id]);
  }

  /** The first row of a new id makes its entry. */
  lemma NewEntryFromFirstRow(init: seq<Row>, row: Row, g: Gathered)
    requires WellGathered(g)
    requires forall id :: id in g.people <==> IndexOfKey(init, RowContactId, id) != -1
    requires RowContactId(row) !in g.people
    ensures RowContactId(row) in Step(g, row).people
    ensures EntryFromFirstRow(init + [row], Step(g, row), RowContactId(row))
  {
    var id, s := RowContactId(row), init + [row];
    IndexOfKeySnoc(init, row, RowContactId, id);
    assert IndexOfKey(s, RowContactId, id) == |init| && s[|init|] == row;
    ProcessRowKeeps(row, NewContact(row));
  }

  /** An entry whose contact a later row leaves alone keeps its first row. */
  lemma OldEntryFromFirstRow(init: seq<Row>, row: Row, g: Gathered, h: Gathered, k: int)
    requires k in g.people && k in h.people && h.people[k] == g.people[k]
    requires EntryFromFirstRow(init, g, k)
    ensures var first := IndexOfKey(init + [row], RowContactId, k);
      0 <= first < |init| && (init + [row])[first] == init[first] && EntryFromFirstRow(init + [row], h, k)
  {
    IndexOfKeySnoc(init, row, RowContactId, k);
  }

  lemma {:induction false} GatherAllFromFirstRow(rows: seq<Row>)
    ensures FromFirstRow(rows, GatherAll(rows))
    ensures forall id :: id in GatherAll(rows).people <==> IndexOfKey(rows, RowContactId, id) != -1
  {
    if rows != [] {
      var n := |rows| - 1;
      var init, x := rows[..n], rows[n];
      GatherAllFromFirstRow(init);
      var g := GatherAll(init);
      assert rows == init + [x];
      assert GatherAll(rows) == Step(g, x);
      StepFromFirstRow(init, x, g);
      StepIds(init, x, g);
    }
  }

  /** The ids gathered are the ids some row carries. */
  lemma StepIds(init: seq<Row>, row: Row, g: Gathered)
    requires WellGathered(g)
    requires forall id :: id in g.people <==> IndexOfKey(init, RowContactId, id) != -1
    ensures forall id :: id in Step(g, row).people <==> IndexOfKey(init + [row], RowContactId, id) != -1
  {
    forall id ensures id in Step(g, row).people <==> IndexOfKey(init + [row], RowContactId, id) != -1 {
      IndexOfKeySnoc(init, row, RowContactId, id);
    }
  }

  /** With `maxCount = m`, at most `max(m, 0)` contacts are gathered, and
    * exactly `m` when the loop breaks. */
  lemma {:induction false} CutBound(rows: seq<Row>, m: int, i: nat)
    requires i <= Cut(rows, Some(m), 0)
    ensures |GatherAll(rows[..i]).order| <= if m < 0 then 0 else m
  {
    if i > 0 {
      CutBound(rows, m, i - 1);
      var g := GatherAll(rows[..i - 1]);
      var x := rows[i - 1];
      assert GatherAll(rows[..i]) == Step(g, x) by {
        GatherAllSnoc(rows, i - 1);
      }
      assert !StopsAt(rows, Some(m), i - 1) by {
        CutSkips(rows, Some(m), 0, i - 1);
      }
      StepBound(g, x, m);
    }
  }

  /** One row keeps the count within the cap unless the loop breaks at it. */
  lemma StepBound(g: Gathered, x: Row, m: int)
    requires WellGathered(g) && |g.order| <= (if m < 0 then 0 else m)
    requires !(|g.order| >= m && RowContactId(x) !in g.people)
    ensures |Step(g, x).order| <= if m < 0 then 0 else m
  {
  }

  /** The cap: no more than `max(m, 0)` contacts come back. */
  lemma QueryCapped(rows: seq<Row>, m: int, photoOf: int -> Option<Bitmap>)
    ensures |QueryResult(rows, Some(m), photoOf)| <= if m < 0 then 0 else m
  {
    CutBound(rows, m, Cut(rows, Some(m), 0));
  }

  /** The ids of the contacts returned are the ids gathered, in order. */
  lemma QueryIdsGathered(rows: seq<Row>, maxCount: Option<int>, photoOf: int -> Option<Bitmap>)
    ensures Keys(QueryResult(rows, maxCount, photoOf), ContactIdOf)
      == GatherAll(rows[..Cut(rows, maxCount, 0)]).order
  {
    var pre := rows[..Cut(rows, maxCount, 0)];
    GatherAllFromFirstRow(pre);
    var g := GatherAll(pre);
    var r := QueryResult(rows, maxCount, photoOf);
    var cs := Contacts(g);
    forall i | 0 <= i < |r| ensures ContactIdOf(r[i]) == g.order[i] {
      assert g.order[i] in g.order;
      assert ContactIdOf(r[i]) == ContactIdOf(cs[i]);
      assert 0 <= IndexOfKey(pre, RowContactId, g.order[i]);
    }
  }

  /** Without a cap: one contact per distinct row id, in first-occurrence order. */
  lemma QueryIdsUncapped(rows: seq<Row>, photoOf: int -> Option<Bitmap>)
    ensures Keys(QueryResult(rows, None, photoOf), ContactIdOf) == Distinct(RowIds(rows))
  {
    QueryIdsGathered(rows, None, photoOf);
    assert rows[..Cut(rows, None, 0)] == rows;
    GatherAllOrder(rows);
  }

  /** No contact id is returned twice. */
  lemma QueryDistinct(rows: seq<Row>, maxCount: Option<int>, photoOf: int -> Option<Bitmap>)
    ensures DistinctKeys(QueryResult(rows, maxCount, photoOf), ContactIdOf)
  {
    var r := QueryResult(rows, maxCount, photoOf);
    QueryIdsGathered(rows, maxCount, photoOf);
    var ks := Keys(r, ContactIdOf);
    forall i, j | 0 <= i < j < |r| ensures ContactIdOf(r[i]) != ContactIdOf(r[j]) {
      assert ks[i] == ContactIdOf(r[i]) && ks[j] == ContactIdOf(r[j]);
    }
  }

  /** With `maxCount = m`: the first `max(m, 0)` distinct row ids, in order. */
  lemma QueryIdsCapped(rows: seq<Row>, m: int, photoOf: int -> Option<Bitmap>)
    ensures Keys(QueryResult(rows, Some(m), photoOf), ContactIdOf)
      == Take(Distinct(RowIds(rows)), if m < 0 then 0 else m)
  {
    QueryIdsGathered(rows, Some(m), photoOf);
    CappedOrder(rows, m);
  }

  lemma CappedOrder(rows: seq<Row>, m: int)
    ensures GatherAll(rows[..Cut(rows, Some(m), 0)]).order
      == Take(Distinct(RowIds(rows)), if m < 0 then 0 else m)
  {
    var c := Cut(rows, Some(m), 0);
    var pre := rows[..c];
    GatherAllOrder(pre);
    CutBound(rows, m, c);
    var d := Distinct(RowIds(pre));
    var a := Distinct(RowIds(rows));
    DistinctIdsOfPrefix(rows, c);
    if c < |rows| {
      assert StopsAt(rows, Some(m), c);
    } else {
      assert pre == rows;
    }
    TakePrefix(d, a, if m < 0 then 0 else m);
  }

  /** The distinct ids of a prefix of the rows begin the distinct ids of all of them. */
  lemma DistinctIdsOfPrefix(rows: seq<Row>, c: nat)
    requires c <= |rows|
    ensures Distinct(RowIds(rows[..c])) <= Distinct(RowIds(rows))
  {
    var pre := rows[..c];
    assert rows == pre + rows[c..];
    KeysConcat(pre, rows[c..], RowContactId);
    DistinctFromPrefix(RowIds(pre), RowIds(rows[c..]), []);
  }

  /** Each contact returned takes its base fields from the first row of its id
    * and owns all of its child records. */
  lemma QueryFirstRows(rows: seq<Row>, maxCount: Option<int>, photoOf: int -> Option<Bitmap>, k: nat)
    requires k < |QueryResult(rows, maxCount, photoOf)|
    ensures var c := QueryResult(rows, maxCount, photoOf)[k];
      var first := IndexOfKey(rows, RowContactId, ContactIdOf(c));
      0 <= first
      && c.baseInfo.disPlayName == GetStringValue(rows[first], DISPLAY_NAME)
      && c.baseInfo.updateTime == GetLongValue(rows[first], LAST_UPDATED)
      && ChildrenOf(c, ContactIdOf(c))
  {
    var cut := Cut(rows, maxCount, 0);
    var pre := rows[..cut];
    var g := GatherAll(pre);
    QueryEntry(rows, maxCount, photoOf, k);
    var id := g.order[k];
    GatheredEntry(pre, id);
    IndexOfKeyTake(rows, cut, RowContactId, id);
  }

  /** Entry `k` of the result is the avatar pass over the `k`-th contact gathered. */
  lemma QueryEntry(rows: seq<Row>, maxCount: Option<int>, photoOf: int -> Option<Bitmap>, k: nat)
    requires k < |QueryResult(rows, maxCount, photoOf)|
    ensures var g := GatherAll(rows[..Cut(rows, maxCount, 0)]);
      k < |g.order| && g.order[k] in g.people
      && QueryResult(rows, maxCount, photoOf)[k]
         == WithAvatar(g.people[g.order[k]], photoOf(ContactIdOf(g.people[g.order[k]])))
  {
  }

  /** A gathered contact, seen through the grouping's promise. */
  lemma GatheredEntry(pre: seq<Row>, id: int)
    requires id in GatherAll(pre).people
    ensures var first := IndexOfKey(pre, RowContactId, id);
      0 <= first && SameIdentity(GatherAll(pre).people[id].baseInfo, BaseInfoOf(pre[first]))
      && ChildrenOf(GatherAll(pre).people[id], id)
  {
    GatherAllFromFirstRow(pre);
  }



  /** `ContactQueryManager.queryContacts`: the cursor loop with the `maxCount`
    * break, one builder per new id, then the avatar pass and `build()`. */
  method QueryContactsWithBuilders(rows: seq<Row>, maxCount: Option<int>, photoOf: int -> Option<Bitmap>)
    returns (result: seq<ContactPerson>)
    ensures result == QueryResult(rows, maxCount, photoOf)
  {
    var order, builders, g := GatherBuilders(rows, maxCount);
    result := BuildAll(order, builders, photoOf, g);
  }

  /** The cursor loop of `ContactQueryManager.queryContacts`. */
  method GatherBuilders(rows: seq<Row>, maxCount: Option<int>)
    returns (order: seq<int>, builders: map<int, ContactPersonBuilder>, ghost g: Gathered)
    ensures g == GatherAll(rows[..Cut(rows, maxCount, 0)])
    ensures Holds(order, builders, g)
    ensures forall b :: b in builders.Values ==> fresh(b)
  {
    order, builders := [], map[];
    var i := 0;
    while i < |rows|
      invariant 0 <= i <= Cut(rows, maxCount, 0)
      invariant Holds(order, builders, GatherAll(rows[..i])) && |builders| == |order|
      invariant forall b :: b in builders.Values ==> fresh(b)
    {
      var contactId := GetLongValue(rows[i], CONTACT_ID);
      if maxCount.Some? && |builders| >= maxCount.value && contactId !in builders {
        LoopBreaks(rows, maxCount, i, GatherAll(rows[..i]));
        break;
      }
      order, builders := Turn(rows, maxCount, i, order, builders);
      i := i + 1;
    }
    g := GatherAll(rows[..i]);
  }

  /** One turn of the loop past the break test: row `i` lies before the cut
    * and is folded into the builders. */
  method Turn(rows: seq<Row>, maxCount: Option<int>, i: nat,
              order: seq<int>, builders: map<int, ContactPersonBuilder>)
    returns (order': seq<int>, builders': map<int, ContactPersonBuilder>)
    requires i < |rows| && i <= Cut(rows, maxCount, 0)
    requires Holds(order, builders, GatherAll(rows[..i])) && |builders| == |order|
    requires !(maxCount.Some? && |builders| >= maxCount.value && GetLongValue(rows[i], CONTACT_ID) !in builders)
    modifies builders.Values
    ensures i + 1 <= Cut(rows, maxCount, 0)
    ensures Holds(order', builders', GatherAll(rows[..i + 1])) && |builders'| == |order'|
    ensures forall b :: b in builders'.Values ==> b in builders.Values || fresh(b)
  {
    ghost var g := GatherAll(rows[..i]);
    LoopGoesOn(rows, maxCount, i, g);
    order', builders' := GetOrPutAndProcess(order, builders, rows[i], g);
  }

  /** The loop breaks at a row exactly when the row is the cut. */
  lemma LoopBreaks(rows: seq<Row>, maxCount: Option<int>, i: nat, g: Gathered)
    requires i < |rows| && i <= Cut(rows, maxCount, 0) && g == GatherAll(rows[..i])
    requires maxCount.Some? && |g.order| >= maxCount.value && RowContactId(rows[i]) !in g.people
    ensures i == Cut(rows, maxCount, 0)
  {
    assert StopsAt(rows, maxCount, i);
    CutAt(rows, maxCount, i);
  }

  /** Any other row lies before the cut and is folded in. */
  lemma LoopGoesOn(rows: seq<Row>, maxCount: Option<int>, i: nat, g: Gathered)
    requires i < |rows| && i <= Cut(rows, maxCount, 0) && g == GatherAll(rows[..i])
    requires !(maxCount.Some? && |g.order| >= maxCount.value && RowContactId(rows[i]) !in g.people)
    ensures i < Cut(rows, maxCount, 0) && GatherAll(rows[..i + 1]) == Step(g, rows[i])
  {
    assert !StopsAt(rows, maxCount, i);
    CutStep(rows, maxCount, i);
    GatherAllSnoc(rows, i);
  }

  /** A row the loop does not break at moves the cut no nearer. */
  lemma CutStep(rows: seq<Row>, maxCount: Option<int>, i: nat)
    requires i < |rows| && i <= Cut(rows, maxCount, 0) && !StopsAt(rows, maxCount, i)
    ensures i < Cut(rows, maxCount, 0)
  {
  }

  /** The first row the loop breaks at is the cut. */
  lemma CutAt(rows: seq<Row>, maxCount: Option<int>, i: nat)
    requires i < |rows| && i <= Cut(rows, maxCount, 0) && StopsAt(rows, maxCount, i)
    ensures i == Cut(rows, maxCount, 0)
  {
    if i < Cut(rows, maxCount, 0) {
      CutSkips(rows, maxCount, 0, i);
    }
  }

  /** The linked map of builders holds the gathered contacts `g`, one distinct
    * builder per id. */
  ghost predicate Holds(order: seq<int>, builders: map<int, ContactPersonBuilder>, g: Gathered)
    reads builders.Values
  {
    WellGathered(g) && g.order == order
    && (forall id :: id in builders <==> id in g.people)
    && (forall id :: id in builders ==> builders[id].contactPerson == g.people[id])
    && (forall a, b :: a in builders && b in builders && a != b ==> builders[a] != builders[b])
  }

  /** The loop body after the break test: `getOrPut(contactId) { ... setBaseInfo }`
    * followed by `processData`. */
  method GetOrPutAndProcess(order: seq<int>, builders: map<int, ContactPersonBuilder>, row: Row, ghost g: Gathered)
    returns (order': seq<int>, builders': map<int, ContactPersonBuilder>)
    requires Holds(order, builders, g)
    modifies builders.Values
    ensures WellGathered(Step(g, row)) && Holds(order', builders', Step(g, row))
    ensures |builders| == |order| ==> |builders'| == |order'|
    ensures forall b :: b in builders'.Values ==> b in builders.Values || fresh(b)
  {
    var contactId := GetLongValue(row, CONTACT_ID);
    var builder: ContactPersonBuilder;
    if contactId in builders {
      builder := builders[contactId];
      builders' := builders;
      order' := order;
    } else {
      builder := new ContactPersonBuilder();
      var _ := builder.SetBaseInfo(row);
      builders' := builders[contactId := builder];
      order' := order + [contactId];
    }
    builder.ProcessData(row);
  }

  /** The avatar pass over the builders, then `values.map { it.build() }`. */
  method BuildAll(order: seq<int>, builders: map<int, ContactPersonBuilder>,
                  photoOf: int -> Option<Bitmap>, ghost g: Gathered)
    returns (result: seq<ContactPerson>)
    requires WellGathered(g) && g.order == order
    requires forall id :: id in builders <==> id in g.people
    requires forall id :: id in builders ==> builders[id].contactPerson == g.people[id]
    requires forall a, b :: a in builders && b in builders && a != b ==> builders[a] != builders[b]
    modifies builders.Values
    ensures result == WithAvatars(Contacts(g), photoOf)
  {
    forall k | 0 <= k < |order| ensures order[k] in builders {
      assert order[k] in g.order;
      assert order[k] in g.people by {
        assert WellGathered(g);
      }
    }
    ghost var before := Contacts(g);
    SetAvatars(order, builders, photoOf);
    result := BuildEach(order, builders);
    forall k | 0 <= k < |result|
      ensures result[k] == WithAvatar(before[k], photoOf(ContactIdOf(before[k])))
    {
      assert old(builders[order[k]].contactPerson) == before[k];
    }
  }

  /** `contactsMap.values.forEach { it.setAvatar(...) }`. */
  method SetAvatars(order: seq<int>, builders: map<int, ContactPersonBuilder>, photoOf: int -> Option<Bitmap>)
    requires forall k :: 0 <= k < |order| ==> order[k] in builders
    requires forall a, b :: 0 <= a < b < |order| ==> builders[order[a]] != builders[order[b]]
    modifies builders.Values
    ensures forall k :: 0 <= k < |order| ==>
      builders[order[k]].contactPerson
      == WithAvatar(old(builders[order[k]].contactPerson), photoOf(ContactIdOf(old(builders[order[k]].contactPerson))))
  {
    var j := 0;
    while j < |order|
      invariant 0 <= j <= |order|
      invariant forall k :: 0 <= k < j ==>
        builders[order[k]].contactPerson
        == WithAvatar(old(builders[order[k]].contactPerson), photoOf(ContactIdOf(old(builders[order[k]].contactPerson))))
      invariant forall k :: j <= k < |order| ==> builders[order[k]].contactPerson == old(builders[order[k]].contactPerson)
    {
      assert order[j] in builders;
      builders[order[j]].SetAvatar(photoOf);
      j := j + 1;
    }
  }

  /** `values.map { it.build() }`, in insertion order. */
  method BuildEach(order: seq<int>, builders: map<int, ContactPersonBuilder>) returns (result: seq<ContactPerson>)
    requires forall k :: 0 <= k < |order| ==> order[k] in builders
    ensures |result| == |order|
    ensures forall k :: 0 <= k < |order| ==> result[k] == builders[order[k]].contactPerson
  {
    result := [];
    var j := 0;
    while j < |order|
      invariant 0 <= j <= |order| && |result| == j
      invariant forall k :: 0 <= k < j ==> result[k] == builders[order[k]].contactPerson
    {
      var p := builders[order[j]].Build();
      result := result + [p];
      j := j + 1;
    }
  }

  /** The linked map holds one entry per id it lists: `contactsMap.size` is
    * the number of ids gathered. */
  lemma {:induction false} GatherAllSize(rows: seq<Row>)
    ensures |GatherAll(rows).people| == |GatherAll(rows).order|
  {
    if rows != [] {
      GatherAllSize(rows[..|rows| - 1]);
    }
  }

  /** `ContactUtil.queryContacts`: the same loop over plain contact values,
    * with the processors inlined, then the avatar pass over the map. */
  method QueryContactsInline(rows: seq<Row>, maxCount: Option<int>, photoOf: int -> Option<Bitmap>)
    returns (result: seq<ContactPerson>)
    ensures result == QueryResult(rows, maxCount, photoOf)
  {
    var order, gathered := GatherValues(rows, maxCount);
    ghost var before := Contacts(Gathered(order, gathered));
    assert forall k :: 0 <= k < |order| ==> order[k] in order;
    var contacts := AvatarPass(order, gathered, photoOf);
    result := ValuesInOrder(order, contacts);
    forall k | 0 <= k < |result|
      ensures result[k] == WithAvatar(before[k], photoOf(ContactIdOf(before[k])))
    {
      assert before[k] == gathered[order[k]];
    }
  }

  /** `contactDetailsList.addAll(contactsMap.values)`: the values in insertion order. */
  method ValuesInOrder(order: seq<int>, contacts: map<int, ContactPerson>) returns (result: seq<ContactPerson>)
    requires forall k :: 0 <= k < |order| ==> order[k] in contacts
    ensures |result| == |order|
    ensures forall k :: 0 <= k < |order| ==> result[k] == contacts[order[k]]
  {
    result := [];
    var j := 0;
    while j < |order|
      invariant 0 <= j <= |order| && |result| == j
      invariant forall k :: 0 <= k < j ==> result[k] == contacts[order[k]]
    {
      result := result + [contacts[order[j]]];
      j := j + 1;
    }
  }

  /** The cursor loop of `ContactUtil.queryContacts`. */
  method GatherValues(rows: seq<Row>, maxCount: Option<int>)
    returns (order: seq<int>, contacts: map<int, ContactPerson>)
    ensures Gathered(order, contacts) == GatherAll(rows[..Cut(rows, maxCount, 0)])
  {
    order, contacts := [], map[];
    var i := 0;
    while i < |rows|
      invariant 0 <= i <= Cut(rows, maxCount, 0)
      invariant Cut(rows, maxCount, i) == Cut(rows, maxCount, 0)
      invariant Gathered(order, contacts) == GatherAll(rows[..i])
    {
      var contactId := GetLongValue(rows[i], CONTACT_ID);
      GatherAllSize(rows[..i]);
      if maxCount.Some? && |contacts| >= maxCount.value && contactId !in contacts {
        break;
      }
      // `getOrPut` yields the stored contact or a new one, which `processData` then extends.
      if contactId in contacts {
        contacts := contacts[contactId := ProcessRow(rows[i], contacts[contactId])];
      } else {
        contacts := contacts[contactId := ProcessRow(rows[i], NewContact(rows[i]))];
        order := order + [contactId];
      }
      GatherAllSnoc(rows, i);
      i := i + 1;
    }
  }

  /** `contactsMap.values.forEach { ... avatar = ... }` over plain values. */
  method AvatarPass(order: seq<int>, contacts: map<int, ContactPerson>, photoOf: int -> Option<Bitmap>)
    returns (r: map<int, ContactPerson>)
    requires forall k :: 0 <= k < |order| ==> order[k] in contacts
    requires forall a, b :: 0 <= a < b < |order| ==> order[a] != order[b]
    ensures forall k :: 0 <= k < |order| ==> order[k] in r
    ensures forall k :: 0 <= k < |order| ==>
      r[order[k]] == WithAvatar(contacts[order[k]], photoOf(ContactIdOf(contacts[order[k]])))
  {
    r := contacts;
    var j := 0;
    while j < |order|
      invariant 0 <= j <= |order|
      invariant r.Keys == contacts.Keys
      invariant forall k :: 0 <= k < j ==> r[order[k]] == WithAvatar(contacts[order[k]], photoOf(ContactIdOf(contacts[order[k]])))
      invariant forall k :: j <= k < |order| ==> r[order[k]] == contacts[order[k]]
    {
      var c := r[order[j]];
      r := r[order[j] := WithAvatar(c, photoOf(c.baseInfo.contactId))];
      j := j + 1;
    }
  }
}
