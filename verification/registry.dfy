/** `FirebaseService`: the registry of tenant clients, as queries and updates on one document
    collection. A document is an id and a map of fields; deleting a client only marks it
    `deleted`, and every read that lists or looks up clients by phone keeps to documents whose
    `status` is `active`.

    The collection is the sequence of documents in the order queries return them. Server
    timestamps are the parameter `now`; the id Firestore gives a new document is the parameter
    `newId`. A Firestore error (a missing document on update) is a `Failure`. */
module Registry {
  import opened Wrappers
  import opened Text

  /** A stored field value: a string, or a timestamp. */
  datatype Value = Str(s: string) | Stamp(time: int)

  type Fields = map<string, Value>

  datatype Doc = Doc(id: string, fields: Fields)

  type Collection = seq<Doc>

  const StatusField: string := "status"
  const BotStatusField: string := "botStatus"
  const PhoneField: string := "assistantPhone"
  const CreatedField: string := "createdAt"
  const UpdatedField: string := "updatedAt"
  const IdField: string := "id"

  const ActiveStatus: string := "active"
  const DeletedStatus: string := "deleted"
  const InactiveBot: string := "inactive"

  const NotFoundError: string := "5 NOT_FOUND: No document to update"
  const UndefinedQueryError: string := "Cannot use \"undefined\" as a Firestore value"
  const ToDateError: string := "toDate is not a function"

  ghost predicate UniqueIds(c: Collection) {
    forall i, j :: 0 <= i < j < |c| ==> c[i].id != c[j].id
  }

  function Ids(c: Collection): set<string> {
    set d | d in c :: d.id
  }

  predicate IsActive(f: Fields) {
    StatusField in f && f[StatusField] == Str(ActiveStatus)
  }

  /** The fields of the document `id`, if there is one. */
  function Find(c: Collection, id: string): (r: Option<Fields>)
    ensures r.None? <==> id !in Ids(c)
    ensures r.Some? ==> Doc(id, r.value) in c
    ensures UniqueIds(c) ==> forall i :: 0 <= i < |c| && c[i].id == id ==> r == Some(c[i].fields)
  {
    if |c| == 0 then None
    else if c[0].id == id then Some(c[0].fields)
    else
      var r := Find(c[1..], id);
      assert Ids(c) == {c[0].id} + Ids(c[1..]) by {
        assert c == [c[0]] + c[1..];
      }
      r
  }

  /** `field?.toDate()`: a timestamp becomes a date (the same instant), an absent field stays
      absent, and a string has no `toDate`. */
  predicate DateConvertible(f: Fields, key: string) {
    key !in f || f[key].Stamp?
  }

  /** The object the reads build: `{id: doc.id, ...data, createdAt, updatedAt}`. A stored
      `id` field overrides the document id. */
  function View(id: string, f: Fields): (r: Result<Fields, string>)
    ensures r.Success? <==> DateConvertible(f, CreatedField) && DateConvertible(f, UpdatedField)
    ensures r.Success? ==> r.value.Keys == f.Keys + {IdField}
    ensures r.Success? ==> forall k :: k in f ==> r.value[k] == f[k]
    ensures r.Success? && IdField !in f ==> r.value[IdField] == Str(id)
  {
    if DateConvertible(f, CreatedField) && DateConvertible(f, UpdatedField) then
      Success(map[IdField := Str(id)] + f)
    else Failure(ToDateError)
  }

  // ---------------------------------------------------------------------------
  // Reads

  /** The ids of the active documents. */
  function ActiveIds(c: Collection): set<string> {
    set d | d in c && IsActive(d.fields) :: d.id
  }

  /** `getAllClients()`: every active client, keyed by id. */
  function GetAllClients(c: Collection): (r: Result<map<string, Fields>, string>)
    ensures r.Success? <==> forall d :: d in c && IsActive(d.fields) ==> View(d.id, d.fields).Success?
    ensures r.Success? ==> r.value.Keys == ActiveIds(c)
    decreases |c|
  {
    if |c| == 0 then Success(map[])
    else
      var init := c[..|c| - 1];
      var d := c[|c| - 1];
      assert forall x :: x in c <==> x in init || x == d by {
        assert c == init + [d];
      }
      match GetAllClients(init)
      case Failure(e) => Failure(e)
      case Success(m) =>
        if !IsActive(d.fields) then Success(m)
        else
          match View(d.id, d.fields)
          case Failure(e) => Failure(e)
          case Success(v) => Success(m[d.id := v])
  }

  /** Each listed client is the view of its document. */
  lemma {:induction false} GetAllClientsViews(c: Collection)
    requires UniqueIds(c) && GetAllClients(c).Success?
    ensures forall i :: 0 <= i < |c| && IsActive(c[i].fields) ==>
      Success(GetAllClients(c).value[c[i].id]) == View(c[i].id, c[i].fields)
    decreases |c|
  {
    if |c| > 0 {
      var init := c[..|c| - 1];
      assert c == init + [c[|c| - 1]];
      GetAllClientsViews(init);
    }
  }

  /** `getClientById(clientId)`: the client whatever its status, or `null`. */
  function GetClientById(c: Collection, id: string): (r: Result<Option<Fields>, string>)
    ensures id !in Ids(c) ==> r == Success(None)
    ensures id in Ids(c) ==> (r.Success? <==> View(id, Find(c, id).value).Success?)
    ensures r.Success? && r.value.Some? ==> Success(r.value.value) == View(id, Find(c, id).value)
  {
    match Find(c, id)
    case None => Success(None)
    case Some(f) =>
      match View(id, f)
      case Failure(e) => Failure(e)
      case Success(v) => Success(Some(v))
  }

  /** The first active document whose `assistantPhone` is `phone`. */
  function FirstWithPhone(c: Collection, phone: string): (r: Option<Doc>)
    ensures r.Some? ==>
      r.value in c && IsActive(r.value.fields) && PhoneField in r.value.fields && r.value.fields[PhoneField] == Str(phone)
    ensures r.None? ==> forall d :: d in c && IsActive(d.fields) ==> PhoneField !in d.fields || d.fields[PhoneField] != Str(phone)
  {
    if |c| == 0 then None
    else if IsActive(c[0].fields) && PhoneField in c[0].fields && c[0].fields[PhoneField] == Str(phone) then Some(c[0])
    else
      var r := FirstWithPhone(c[1..], phone);
      assert forall d :: d in c ==> d == c[0] || d in c[1..];
      r
  }

  /** `getClientByAssistantPhone(assistantPhone)`: the part before the first `@` is compared
      with `assistantPhone`, among active clients only. An `undefined` phone makes the query
      itself fail. */
  function GetClientByAssistantPhone(c: Collection, phone: Option<string>): (r: Result<Option<Fields>, string>)
    ensures phone.None? ==> r == Failure(UndefinedQueryError)
    ensures r.Success? && r.value.Some? ==>
      exists d :: d in c && IsActive(d.fields) && PhoneField in d.fields &&
        d.fields[PhoneField] == Str(BeforeFirst(phone.value, '@')) && View(d.id, d.fields) == Success(r.value.value)
    ensures r == Success(None) ==>
      phone.Some? &&
      forall d :: d in c && IsActive(d.fields) ==>
        PhoneField !in d.fields || d.fields[PhoneField] != Str(BeforeFirst(phone.value, '@'))
  {
    match phone
    case None => Failure(UndefinedQueryError)
    case Some(p) =>
      match FirstWithPhone(c, BeforeFirst(p, '@'))
      case None => Success(None)
      case Some(d) =>
        match View(d.id, d.fields)
        case Failure(e) => Failure(e)
        case Success(v) => Success(Some(v))
  }

  // ---------------------------------------------------------------------------
  // Writes

  /** The collection with the fields of document `id` replaced. */
  function SetFields(c: Collection, id: string, f: Fields): (r: Collection)
    ensures |r| == |c|
    ensures forall i :: 0 <= i < |c| ==> r[i].id == c[i].id
    ensures forall i :: 0 <= i < |c| ==> r[i].fields == (if c[i].id == id then f else c[i].fields)
  {
    seq(|c|, i requires 0 <= i < |c| => if c[i].id == id then Doc(id, f) else c[i])
  }

  lemma SetFieldsKeepsIds(c: Collection, id: string, f: Fields)
    ensures Ids(SetFields(c, id, f)) == Ids(c)
    ensures UniqueIds(c) ==> UniqueIds(SetFields(c, id, f))
  {
    var r := SetFields(c, id, f);
    forall x | x in Ids(c) ensures x in Ids(r) {
      var i :| 0 <= i < |c| && c[i].id == x;
      assert r[i] in r;
    }
    forall x | x in Ids(r) ensures x in Ids(c) {
      var i :| 0 <= i < |r| && r[i].id == x;
      assert c[i] in c;
    }
  }

  lemma FindAfterSet(c: Collection, id: string, f: Fields, other: string)
    requires UniqueIds(c) && id in Ids(c)
    ensures Find(SetFields(c, id, f), id) == Some(f)
    ensures other != id ==> Find(SetFields(c, id, f), other) == Find(c, other)
  {
    SetFieldsKeepsIds(c, id, f);
    var r := SetFields(c, id, f);
    var i :| 0 <= i < |c| && c[i].id == id;
    assert r[i].id == id && r[i].fields == f;
    if other in Ids(c) {
      var j :| 0 <= j < |c| && c[j].id == other;
      assert r[j].id == other;
    }
  }

  /** The document `createClient` stores: the given data with status `active` and both
      timestamps set. */
  function Stored(data: Fields, now: int): (f: Fields)
    ensures IsActive(f)
    ensures DateConvertible(f, CreatedField) && DateConvertible(f, UpdatedField)
    ensures forall k :: k in data && k != StatusField && k != CreatedField && k != UpdatedField ==> k in f && f[k] == data[k]
  {
    data[StatusField := Str(ActiveStatus)][CreatedField := Stamp(now)][UpdatedField := Stamp(now)]
  }

  /** `createClient(clientData)`: stored with status `active`, whatever `clientData` said, and
      both timestamps set; the result is the new client as `getClientById` reads it. */
  function CreateClient(c: Collection, data: Fields, newId: string, now: int): (r: (Collection, Fields))
    requires newId !in Ids(c)
    ensures Ids(r.0) == Ids(c) + {newId}
    ensures Find(r.0, newId) == Some(Stored(data, now))
    ensures GetClientById(r.0, newId) == Success(Some(r.1))
    ensures forall k :: k in data && k != StatusField && k != CreatedField && k != UpdatedField ==> k in r.1 && r.1[k] == data[k]
  {
    var stored := Stored(data, now);
    var c' := c + [Doc(newId, stored)];
    assert Ids(c') == Ids(c) + {newId} by {
      assert forall d :: d in c' <==> d in c || d == Doc(newId, stored);
    }
    FindLast(c, Doc(newId, stored));
    (c', View(newId, stored).value)
  }

  lemma CreateKeepsIdsUnique(c: Collection, data: Fields, newId: string, now: int)
    requires newId !in Ids(c) && UniqueIds(c)
    ensures UniqueIds(CreateClient(c, data, newId, now).0)
  {
    var c' := CreateClient(c, data, newId, now).0;
    assert c' == c + [Doc(newId, Stored(data, now))];
    forall i, j | 0 <= i < j < |c'| ensures c'[i].id != c'[j].id {
      if j == |c| {
        assert c'[i] == c[i] && c[i] in c;
      }
    }
  }

  lemma {:induction false} FindLast(c: Collection, d: Doc)
    requires d.id !in Ids(c)
    ensures Find(c + [d], d.id) == Some(d.fields)
    decreases |c|
  {
    if |c| == 0 {
      assert c + [d] == [d];
    } else {
      assert (c + [d])[1..] == c[1..] + [d];
      assert c[0] in c;
      assert d.id !in Ids(c[1..]) by {
        forall x | x in c[1..] ensures x in c { }
      }
      FindLast(c[1..], d);
    }
  }

  /** The update `updateClient` and `updateBotStatus` apply: the given fields over the stored
      ones, and a new `updatedAt`. */
  function Merge(f: Fields, update: Fields, now: int): (r: Fields)
    ensures r.Keys == f.Keys + update.Keys + {UpdatedField}
    ensures r[UpdatedField] == Stamp(now)
    ensures forall k :: k in update && k != UpdatedField ==> r[k] == update[k]
    ensures forall k :: k in f && k !in update && k != UpdatedField ==> r[k] == f[k]
  {
    (f + update)[UpdatedField := Stamp(now)]
  }

  /** `updateClient(clientId, updateData)`: a missing document makes the update fail and
      nothing changes; otherwise the merged document is stored and read back. */
  function UpdateClient(c: Collection, id: string, update: Fields, now: int): (r: (Collection, Result<Fields, string>))
    ensures id !in Ids(c) ==> r == (c, Failure(NotFoundError))
    ensures id in Ids(c) ==> r.0 == SetFields(c, id, Merge(Find(c, id).value, update, now))
    ensures id in Ids(c) ==> r.1 == View(id, Merge(Find(c, id).value, update, now))
  {
    match Find(c, id)
    case None => (c, Failure(NotFoundError))
    case Some(f) =>
      var merged := Merge(f, update, now);
      (SetFields(c, id, merged), View(id, merged))
  }

  /** `deleteClient(clientId)`: the soft delete. */
  function DeleteClient(c: Collection, id: string, now: int): (r: (Collection, Result<bool, string>))
    ensures id !in Ids(c) ==> r == (c, Failure(NotFoundError))
    ensures id in Ids(c) ==> r.1 == Success(true) && Ids(r.0) == Ids(c)
    ensures id in Ids(c) ==>
      r.0 == SetFields(c, id, Merge(Find(c, id).value, map[StatusField := Str(DeletedStatus)], now))
  {
    match Find(c, id)
    case None => (c, Failure(NotFoundError))
    case Some(f) =>
      SetFieldsKeepsIds(c, id, Merge(f, map[StatusField := Str(DeletedStatus)], now));
      (SetFields(c, id, Merge(f, map[StatusField := Str(DeletedStatus)], now)), Success(true))
  }

  /** `updateBotStatus(clientId, botStatus)`: an update of `botStatus` alone. */
  function UpdateBotStatus(c: Collection, id: string, botStatus: string, now: int): (r: (Collection, Result<Fields, string>))
    ensures id !in Ids(c) ==> r == (c, Failure(NotFoundError))
    ensures id in Ids(c) ==>
      var after := Merge(Find(c, id).value, map[BotStatusField := Str(botStatus)], now);
      && r.1 == View(id, after)
      && |r.0| == |c|
      && forall i :: 0 <= i < |c| ==>
           r.0[i].id == c[i].id && r.0[i].fields == (if c[i].id == id then after else c[i].fields)
    ensures id in Ids(c) ==>
      var before := Find(c, id).value;
      var after := Merge(before, map[BotStatusField := Str(botStatus)], now);
      && after[BotStatusField] == Str(botStatus)
      && forall k :: k != BotStatusField && k != UpdatedField ==> (k in after <==> k in before) && (k in before ==> after[k] == before[k])
  {
    UpdateClient(c, id, map[BotStatusField := Str(botStatus)], now)
  }

  /** A deleted client is still found by id, now marked `deleted`, but no longer listed. */
  lemma DeletedClientHidden(c: Collection, id: string, now: int)
    requires UniqueIds(c) && id in Ids(c)
    ensures var c' := DeleteClient(c, id, now).0;
      && Find(c', id).Some? && Find(c', id).value[StatusField] == Str(DeletedStatus)
      && id !in ActiveIds(c')
      && (GetAllClients(c').Success? ==> id !in GetAllClients(c').value)
  {
    var f := Merge(Find(c, id).value, map[StatusField := Str(DeletedStatus)], now);
    var c' := SetFields(c, id, f);
    FindAfterSet(c, id, f, id);
    SetFieldsKeepsIds(c, id, f);
    forall d | d in c' && d.id == id ensures !IsActive(d.fields) {
      var i :| 0 <= i < |c'| && c'[i] == d;
    }
  }

  /** A deleted client is never returned by the phone lookup. */
  lemma DeletedClientNotByPhone(c: Collection, id: string, now: int, phone: Option<string>)
    requires UniqueIds(c) && id in Ids(c)
    ensures var c' := DeleteClient(c, id, now).0;
      var r := GetClientByAssistantPhone(c', phone);
      r.Success? && r.value.Some? ==> exists d :: d in c' && d.id != id && View(d.id, d.fields) == Success(r.value.value)
  {
    var f := Merge(Find(c, id).value, map[StatusField := Str(DeletedStatus)], now);
    var c' := SetFields(c, id, f);
    forall d | d in c' && d.id == id ensures !IsActive(d.fields) {
      var i :| 0 <= i < |c'| && c'[i] == d;
    }
  }

  /** A created client is active and listed, even when the data asked for another status. */
  lemma CreatedClientListed(c: Collection, data: Fields, newId: string, now: int)
    requires newId !in Ids(c)
    ensures var (c', v) := CreateClient(c, data, newId, now);
      && v[StatusField] == Str(ActiveStatus)
      && newId in ActiveIds(c')
  {
    var (c', v) := CreateClient(c, data, newId, now);
    assert c'[|c|] == Doc(newId, Find(c', newId).value) by {
      FindLast(c, c'[|c|]);
    }
    assert c'[|c|] in c';
  }

  /** A document appended after documents none of which is an active one with the phone is
      the first with it exactly when it is active and has it. */
  lemma {:induction false} FirstWithPhoneAppend(c: Collection, d: Doc, phone: string)
    requires FirstWithPhone(c, phone).None?
    ensures FirstWithPhone(c + [d], phone) ==
      if IsActive(d.fields) && PhoneField in d.fields && d.fields[PhoneField] == Str(phone) then Some(d) else None
    decreases |c|
  {
    if |c| > 0 {
      assert (c + [d])[1..] == c[1..] + [d];
      FirstWithPhoneAppend(c[1..], d, phone);
    }
  }

  /** A client created with a phone no active client has is the one the phone lookup finds,
      with or without the `@` suffix of a chat id, and it reads back with its new id. */
  lemma CreatedClientFoundByPhone(c: Collection, data: Fields, newId: string, now: int, p: string)
    requires newId !in Ids(c) && IdField !in data
    requires PhoneField in data && data[PhoneField] == Str(BeforeFirst(p, '@'))
    requires forall d :: d in c && IsActive(d.fields) ==>
      PhoneField !in d.fields || d.fields[PhoneField] != Str(BeforeFirst(p, '@'))
    ensures var (c', v) := CreateClient(c, data, newId, now);
      && GetClientByAssistantPhone(c', Some(p)) == Success(Some(v))
      && v[IdField] == Str(newId)
  {
    var stored := Stored(data, now);
    var (c', v) := CreateClient(c, data, newId, now);
    assert c' == c + [Doc(newId, stored)];
    FirstWithPhoneAppend(c, Doc(newId, stored), BeforeFirst(p, '@'));
  }

  // ---------------------------------------------------------------------------
  // Statistics

  predicate BotInactive(f: Fields) {
    BotStatusField in f && f[BotStatusField] == Str(InactiveBot)
  }

  /** The documents returned by `where('status', '==', 'active')`. */
  function CountActive(c: Collection): (n: nat)
    ensures n <= |c|
  {
    if |c| == 0 then 0 else (if IsActive(c[0].fields) then 1 else 0) + CountActive(c[1..])
  }

  /** The documents returned by the `botStatus == 'inactive'` and `status == 'active'` query. */
  function CountInactiveBots(c: Collection): (n: nat)
    ensures n <= CountActive(c)
  {
    if |c| == 0 then 0
    else (if IsActive(c[0].fields) && BotInactive(c[0].fields) then 1 else 0) + CountInactiveBots(c[1..])
  }

  /** Reference count: active clients whose bot is not marked inactive (including those with no
      `botStatus` at all). */
  function CountRunningBots(c: Collection): nat {
    if |c| == 0 then 0
    else (if IsActive(c[0].fields) && !BotInactive(c[0].fields) then 1 else 0) + CountRunningBots(c[1..])
  }

  datatype Stats = Stats(total: nat, active: int, inactive: nat)

  /** `getClientStats()`. */
  function GetClientStats(c: Collection): (r: Stats)
    ensures r.total == CountActive(c)
    ensures r.inactive == CountInactiveBots(c)
    ensures r.active >= 0 && r.active + r.inactive == r.total
  {
    Stats(CountActive(c), CountActive(c) - CountInactiveBots(c), CountInactiveBots(c))
  }

  /** `active` counts exactly the active clients whose bot is not marked inactive. */
  lemma {:induction false} StatsActiveCountsRunning(c: Collection)
    ensures GetClientStats(c).active == CountRunningBots(c)
    decreases |c|
  {
    if |c| > 0 {
      StatsActiveCountsRunning(c[1..]);
    }
  }
}
