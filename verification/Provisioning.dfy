/**
 Creating and extending a customer's client on the panel. Every call can be rejected
 before it has an effect, or lose its answer after the effect.
 */
module Provisioning {
  import opened Results
  import opened PanelRecords

  const GB := 1024 * 1024 * 1024

  datatype Client = Client(row: Row, inbounds: set<int>)

  type Clients = map<string, Client>

  datatype PanelError = Unreachable | AnswerLost | Missing | NothingToAdjust | Exists

  /** What an order asks of the panel. */
  datatype Goods = Goods(days: nat, gigabytes: nat, devices: int)

  /** What the panel holds after provisioning. */
  datatype Provision = Provisions(subId: string, totalBytes: int, expiryMs: int)

  function DeviceLimit(g: Goods): int {
    Max(g.devices, 1)
  }

  /** A client as the panel stores it. */
  predicate Stored(c: Client, email: string) {
    Documented(c.row) && Get(c.row, Email) == Some(Str(email)) && IntField(c.row, TotalGB) >= 0
  }

  /** Adding to a quota or an expiry; unlimited (0) stays unlimited. */
  function Added(value: int, delta: int): int {
    if value == 0 then 0 else value + delta
  }

  /** Everything the extension of an order must not touch. */
  ghost predicate KeepsRest(before: Row, after: Row) {
    && (forall f | f != TotalGB && f != ExpiryTime && f != LimitIp && f != Enable && f != AllowedIPs ::
          Get(after, f) == Get(before, f))
    && AllowedIps(after) == AllowedIps(before)
  }

  /** The quota and expiry grew by what was bought. */
  predicate Extended(before: Row, after: Row, g: Goods) {
    && IntField(after, TotalGB) == Added(IntField(before, TotalGB), g.gigabytes * GB)
    && IntField(after, ExpiryTime) == Added(IntField(before, ExpiryTime), g.days * MS_PER_DAY)
  }

  /** The quota and expiry grew by what was bought, and the rest of the record is as before. */
  ghost predicate Grown(before: Row, after: Row, g: Goods) {
    Extended(before, after, g) && KeepsRest(before, after)
  }

  /** A failed attempt either left the record alone or had its full effect on quota and expiry. */
  ghost predicate SameOrGrown(before: Row, after: Row, g: Goods) {
    after == before || Grown(before, after, g)
  }

  /** The client of a new customer. */
  ghost predicate CreatedFor(c: Client, g: Goods, now: int, wanted: set<int>) {
    && IntField(c.row, TotalGB) == g.gigabytes * GB
    && IntField(c.row, ExpiryTime) == now + g.days * MS_PER_DAY
    && IntField(c.row, LimitIp) == DeviceLimit(g)
    && Get(c.row, Enable) == Some(Flag(true))
    && c.inbounds == wanted
  }

  /** What one provisioning attempt does to the panel. */
  ghost predicate Provisioned(before: Clients, after: Clients, email: string, g: Goods, now: int, wanted: set<int>,
                              outcome: Option<Provision>)
  {
    && (forall e | e != email :: e in before <==> e in after)
    && (forall e | e != email && e in before :: after[e] == before[e])
    && (email in before ==> email in after && SameOrGrown(before[email].row, after[email].row, g))
    && (email !in before && email in after ==> CreatedFor(after[email], g, now, wanted))
    && (wanted == {} ==> after == before && outcome.None?)
    && (outcome.Some? ==>
          && email in after
          && outcome.value.subId != ""
          && Get(after[email].row, SubId) == Some(Str(outcome.value.subId))
          && outcome.value.totalBytes == IntField(after[email].row, TotalGB)
          && outcome.value.expiryMs == IntField(after[email].row, ExpiryTime)
          && (if email in before
              then
                && Grown(before[email].row, after[email].row, g)
                && IntField(after[email].row, LimitIp) == DeviceLimit(g)
                && after[email].inbounds == wanted
              else CreatedFor(after[email], g, now, wanted)))
  }

  lemma AdjustGrows(row: Row, g: Goods, reenable: bool)
    ensures Grown(row, Adjust(row, g.days, g.gigabytes * GB, reenable), g)
    ensures IntField(Adjust(row, g.days, g.gigabytes * GB, reenable), LimitIp) == IntField(row, LimitIp)
    ensures Documented(row) ==> Documented(Adjust(row, g.days, g.gigabytes * GB, reenable))
  {
    AdjustExtends(row, g, reenable);
    AdjustKeepsRest(row, g, reenable);
  }

  lemma AdjustExtends(row: Row, g: Goods, reenable: bool)
    ensures Extended(row, Adjust(row, g.days, g.gigabytes * GB, reenable), g)
  {
  }

  lemma AdjustField(row: Row, addDays: int, addBytes: int, reenable: bool, field: Field)
    requires field != TotalGB && field != ExpiryTime && field != Enable
    ensures Get(Adjust(row, addDays, addBytes, reenable), field) == Get(row, field)
  {
  }

  lemma AdjustFields(row: Row, after: Row, g: Goods, reenable: bool)
    requires after == Adjust(row, g.days, g.gigabytes * GB, reenable)
    ensures forall f | f != TotalGB && f != ExpiryTime && f != Enable :: Get(after, f) == Get(row, f)
  {
    forall f | f != TotalGB && f != ExpiryTime && f != Enable
      ensures Get(after, f) == Get(row, f)
    {
      AdjustField(row, g.days, g.gigabytes * GB, reenable, f);
    }
  }

  lemma FieldsKeepRest(row: Row, after: Row)
    requires forall f | f != TotalGB && f != ExpiryTime && f != Enable :: Get(after, f) == Get(row, f)
    ensures KeepsRest(row, after) && IntField(after, LimitIp) == IntField(row, LimitIp)
  {
    assert Get(after, AllowedIPs) == Get(row, AllowedIPs) && Get(after, LimitIp) == Get(row, LimitIp);
  }

  lemma FieldsKeepDocumented(row: Row, after: Row)
    requires Documented(row)
    requires forall f | f != TotalGB && f != ExpiryTime && f != Enable :: Get(after, f) == Get(row, f)
    ensures Documented(after)
  {
    assert Get(after, Uuid) == Get(row, Uuid) && Get(after, LimitHwid) == Get(row, LimitHwid);
    assert Get(after, AllowedIPs) == Get(row, AllowedIPs);
    forall f | f in after
      ensures Known(f)
    {
      assert f != TotalGB && f != ExpiryTime && f != Enable ==> Get(after, f) == Get(row, f);
    }
  }

  lemma AdjustKeepsRest(row: Row, g: Goods, reenable: bool)
    ensures KeepsRest(row, Adjust(row, g.days, g.gigabytes * GB, reenable))
    ensures IntField(Adjust(row, g.days, g.gigabytes * GB, reenable), LimitIp) == IntField(row, LimitIp)
    ensures Documented(row) ==> Documented(Adjust(row, g.days, g.gigabytes * GB, reenable))
  {
    var after := Adjust(row, g.days, g.gigabytes * GB, reenable);
    AdjustFields(row, after, g, reenable);
    FieldsKeepRest(row, after);
    if Documented(row) {
      FieldsKeepDocumented(row, after);
    }
  }

  /** The panel's clients after the row of one of them was set. */
  predicate RowSet(before: Clients, after: Clients, email: string, row: Row) {
    email in before && after == before[email := before[email].(row := row)]
  }

  function Adjusted(row: Row, g: Goods, reenable: bool): Row {
    Adjust(row, g.days, g.gigabytes * GB, reenable)
  }

  lemma AdjustedStored(c: Client, email: string, g: Goods, reenable: bool)
    requires Stored(c, email)
    ensures Stored(c.(row := Adjusted(c.row, g, reenable)), email)
  {
    var adjusted := Adjusted(c.row, g, reenable);
    AdjustGrows(c.row, g, reenable);
    assert Get(adjusted, Email) == Get(c.row, Email);
    assert IntField(adjusted, TotalGB) == Added(IntField(c.row, TotalGB), g.gigabytes * GB) >= 0;
  }

  /** Replacing a record by its own update payload changes the device limit and nothing else. */
  lemma ReplaceSetsLimit(row: Row, email: string, limit: int)
    requires Documented(row) && Get(row, Email) == Some(Str(email))
    ensures
      var after := Replace(row, LimitPayload(row, email, limit));
      && (forall f | f != AllowedIPs :: Get(after, f) == if f == LimitIp then Some(Num(limit)) else Get(row, f))
      && AllowedIps(after) == AllowedIps(row)
      && Documented(after)
  {
    var after := Replace(row, LimitPayload(row, email, limit));
    forall f | f != AllowedIPs
      ensures Get(after, f) == if f == LimitIp then Some(Num(limit)) else Get(row, f)
    {
      ReplaceKeepsField(row, email, limit, f);
    }
    ReplaceKeepsIps(row, email, limit);
    KeptIsDocumented(row, after);
  }

  lemma LimitStaysGrown(before: Row, adjusted: Row, after: Row, limit: int, g: Goods)
    requires Grown(before, adjusted, g)
    requires forall f | f != AllowedIPs :: Get(after, f) == if f == LimitIp then Some(Num(limit)) else Get(adjusted, f)
    requires AllowedIps(after) == AllowedIps(adjusted)
    ensures Grown(before, after, g) && IntField(after, LimitIp) == limit
  {
    assert Get(after, TotalGB) == Get(adjusted, TotalGB) && Get(after, ExpiryTime) == Get(adjusted, ExpiryTime);
    assert Get(after, LimitIp) == Some(Num(limit));
  }

  /** The replacement that follows bulkAdjust carries the adjusted values: nothing is rolled back. */
  lemma ReplaceStaysGrown(before: Row, adjusted: Row, email: string, g: Goods)
    requires Grown(before, adjusted, g) && Documented(adjusted) && Get(adjusted, Email) == Some(Str(email))
    ensures
      var after := Replace(adjusted, LimitPayload(adjusted, email, DeviceLimit(g)));
      && Grown(before, after, g)
      && IntField(after, LimitIp) == DeviceLimit(g)
      && Documented(after)
      && Get(after, Email) == Some(Str(email))
  {
    var after := Replace(adjusted, LimitPayload(adjusted, email, DeviceLimit(g)));
    ReplaceSetsLimit(adjusted, email, DeviceLimit(g));
    LimitStaysGrown(before, adjusted, after, DeviceLimit(g), g);
  }

  lemma KeptIsDocumented(row: Row, after: Row)
    requires Documented(row)
    requires forall f | f != AllowedIPs && f != LimitIp :: Get(after, f) == Get(row, f)
    requires AllowedIPs in after ==> after[AllowedIPs].Str?
    ensures Documented(after)
  {
    assert Get(after, Uuid) == Get(row, Uuid) && Get(after, LimitHwid) == Get(row, LimitHwid);
    forall f | f in after
      ensures Known(f)
    {
      assert f != AllowedIPs && f != LimitIp ==> Get(after, f) == Get(row, f);
    }
  }

  ghost predicate AllStored(clients: Clients) {
    forall e | e in clients :: Stored(clients[e], e)
  }

  /** Nothing but the inbounds of this one client may differ. */
  predicate InboundsOnly(before: Clients, after: Clients, email: string) {
    if email in before
    then email in after && after == before[email := before[email].(inbounds := after[email].inbounds)]
    else after == before
  }

  /** Nothing but this one client may differ. */
  ghost predicate OthersKept(before: Clients, after: Clients, email: string) {
    && (forall e | e != email :: e in before <==> e in after)
    && (forall e | e != email && e in before :: after[e] == before[e])
  }

  lemma InboundsOnlyTwice(a: Clients, b: Clients, c: Clients, email: string)
    requires InboundsOnly(a, b, email) && InboundsOnly(b, c, email)
    ensures InboundsOnly(a, c, email)
  {
  }

  /** What is missing was attached, then what is extra was detached. */
  lemma SyncedInbounds(b: Clients, mid: Clients, a: Clients, email: string, wanted: set<int>)
    requires email in b && InboundsOnly(b, mid, email) && InboundsOnly(mid, a, email)
    requires mid[email].inbounds == b[email].inbounds + (wanted - b[email].inbounds)
    requires a[email].inbounds == mid[email].inbounds - (b[email].inbounds - wanted)
    ensures a[email].inbounds == wanted
  {
  }

  lemma InboundsKeepStored(b: Clients, a: Clients, email: string)
    requires AllStored(b) && InboundsOnly(b, a, email)
    ensures AllStored(a)
  {
  }

  /** The panel fills in fields of its own, but keeps the given ones. */
  ghost predicate Completes(row: Row, stored: Row) {
    forall f | f in row :: Get(stored, f) == Get(row, f)
  }

  /** The fields that the panel adds to a new row. */
  function OwnFields(uuid: string, subId: string, rowId: int): Row {
    map[Uuid := Str("u" + uuid), SubId := Str("s" + subId), Id := Num(rowId), LimitHwid := Num(0)]
  }

  lemma NewRowStored(row: Row, own: Row, email: string, inbounds: set<int>, uuid: string, subId: string, rowId: int)
    requires own == OwnFields(uuid, subId, rowId)
    requires Get(row, Email) == Some(Str(email)) && IntField(row, TotalGB) >= 0
    requires forall f | f in row :: IsRecordField(f) && f != AllowedIPs && f != SubId
    ensures Stored(Client(row + own, inbounds), email) && Completes(row, row + own)
    ensures NonEmptyText(row + own, SubId)
  {
    assert Get(row + own, Email) == Get(row, Email) && IntField(row + own, TotalGB) == IntField(row, TotalGB);
  }

  /** The record after its own update payload with a new device limit replaced it. */
  function Limited(row: Row, email: string, g: Goods): Row {
    Replace(row, LimitPayload(row, email, DeviceLimit(g)))
  }

  predicate EndsAs(before: Row, adjusted: Row, limited: Row, after: Row, g: Goods, done: bool) {
    after == limited || (after == adjusted && (done ==> IntField(before, LimitIp) == DeviceLimit(g)))
  }

  /** An adjusted record; once `done`, its device limit is that of the order too. */
  ghost predicate Adjusts(before: Row, after: Row, email: string, g: Goods, done: bool) {
    exists b ::
      EndsAs(before, Adjusted(before, g, b), Limited(Adjusted(before, g, b), email, g), after, g, done)
  }

  lemma EndsAdjusted(before: Row, adjusted: Row, after: Row, email: string, g: Goods, done: bool)
    requires AdjustedRow(before, adjusted, g)
    requires EndsAs(before, adjusted, Limited(adjusted, email, g), after, g, done)
    ensures Adjusts(before, after, email, g, done)
  {
  }

  lemma AdjustedGrows(before: Row, adjusted: Row, email: string, g: Goods, reenable: bool)
    requires Documented(before) && Get(before, Email) == Some(Str(email)) && adjusted == Adjusted(before, g, reenable)
    ensures Grown(before, adjusted, g) && IntField(adjusted, LimitIp) == IntField(before, LimitIp)
    ensures Documented(adjusted) && Get(adjusted, Email) == Some(Str(email))
  {
    AdjustGrows(before, g, reenable);
    assert Get(adjusted, Email) == Get(before, Email);
  }

  lemma LimitedGrows(before: Row, adjusted: Row, after: Row, email: string, g: Goods)
    requires Grown(before, adjusted, g) && Documented(adjusted) && Get(adjusted, Email) == Some(Str(email))
    requires after == Limited(adjusted, email, g)
    ensures Grown(before, after, g) && IntField(after, LimitIp) == DeviceLimit(g)
  {
    ReplaceStaysGrown(before, adjusted, email, g);
  }

  lemma EndsGrown(before: Row, adjusted: Row, limited: Row, after: Row, g: Goods, done: bool)
    requires Grown(before, adjusted, g) && IntField(adjusted, LimitIp) == IntField(before, LimitIp)
    requires Grown(before, limited, g) && IntField(limited, LimitIp) == DeviceLimit(g)
    requires EndsAs(before, adjusted, limited, after, g, done)
    ensures Grown(before, after, g) && (done ==> IntField(after, LimitIp) == DeviceLimit(g))
  {
  }

  lemma AdjustsGrows(before: Row, after: Row, email: string, g: Goods, done: bool)
    requires Documented(before) && Get(before, Email) == Some(Str(email)) && Adjusts(before, after, email, g, done)
    ensures Grown(before, after, g) && (done ==> IntField(after, LimitIp) == DeviceLimit(g))
  {
    var b :| EndsAs(before, Adjusted(before, g, b), Limited(Adjusted(before, g, b), email, g), after, g, done);
    var adjusted := Adjusted(before, g, b);
    var limited := Limited(adjusted, email, g);
    AdjustedGrows(before, adjusted, email, g, b);
    LimitedGrows(before, adjusted, limited, email, g);
    EndsGrown(before, adjusted, limited, after, g, done);
  }

  lemma RequestedField(adjusted: Row, payload: Row, ips: Option<Json>, field: Field)
    requires field == TotalGB || field == ExpiryTime
    ensures Get(Replaced(adjusted, payload, ips), field) == Get(payload, field)
  {
    ReplacedGet(adjusted, payload, ips, field);
  }

  /** The quota and expiry in a request come from the record that it was built from. */
  lemma RequestCarries(read: Row, email: string, limit: int, field: Field)
    requires field == TotalGB || field == ExpiryTime
    ensures Get(LimitPayload(read, email, limit), field) == Get(read, field)
  {
    LimitPayloadField(read, email, limit, field);
  }

  predicate NothingToExtend(row: Row, g: Goods) {
    && (IntField(row, TotalGB) == 0 || g.gigabytes == 0)
    && (IntField(row, ExpiryTime) == 0 || g.days == 0)
  }

  lemma UnchangedIsExtendedIff(before: Row, after: Row, g: Goods)
    requires Get(after, TotalGB) == Get(before, TotalGB) && Get(after, ExpiryTime) == Get(before, ExpiryTime)
    ensures Extended(before, after, g) <==> NothingToExtend(before, g)
  {
    assert IntField(after, TotalGB) == IntField(before, TotalGB);
    assert IntField(after, ExpiryTime) == IntField(before, ExpiryTime);
  }

  /**
   If the panel no longer finds the client after bulkAdjust, the update is built from the
   record read before: that keeps the extension exactly if there was nothing to extend.
   */
  lemma FallbackKeepsExtensionIff(before: Row, adjusted: Row, email: string, limit: int, g: Goods)
    ensures Extended(before, Replace(adjusted, LimitPayload(before, email, limit)), g) <==> NothingToExtend(before, g)
  {
    var payload := LimitPayload(before, email, limit);
    var ips := StoredIps(adjusted, payload);
    FallbackFields(before, adjusted, payload, ips, email, limit);
    UnchangedIsExtendedIff(before, Replaced(adjusted, payload, ips), g);
  }

  lemma FallbackFields(before: Row, adjusted: Row, payload: Row, ips: Option<Json>, email: string, limit: int)
    requires payload == LimitPayload(before, email, limit)
    ensures Get(Replaced(adjusted, payload, ips), TotalGB) == Get(before, TotalGB)
    ensures Get(Replaced(adjusted, payload, ips), ExpiryTime) == Get(before, ExpiryTime)
  {
    RequestedField(adjusted, payload, ips, TotalGB);
    RequestedField(adjusted, payload, ips, ExpiryTime);
    RequestCarries(before, email, limit, TotalGB);
    RequestCarries(before, email, limit, ExpiryTime);
  }

  lemma LimitedStored(c: Client, email: string, g: Goods)
    requires Stored(c, email)
    ensures Stored(c.(row := Limited(c.row, email, g)), email)
  {
    ReplaceSetsLimit(c.row, email, DeviceLimit(g));
    assert Get(Limited(c.row, email, g), TotalGB) == Get(c.row, TotalGB);
    assert Get(Limited(c.row, email, g), Email) == Get(c.row, Email);
  }

  lemma RowSetKeeps(b: Clients, a: Clients, email: string, row: Row)
    requires AllStored(b) && email in b && Stored(b[email].(row := row), email)
    requires a == b || RowSet(b, a, email, row)
    ensures AllStored(a) && OthersKept(b, a, email) && email in a && (a[email].row == b[email].row || a[email].row == row)
  {
  }

  lemma OthersKeptTwice(b: Clients, mid: Clients, a: Clients, email: string)
    requires OthersKept(b, mid, email) && OthersKept(mid, a, email)
    ensures OthersKept(b, a, email)
  {
  }

  ghost predicate AdjustedRow(before: Row, after: Row, g: Goods) {
    exists b :: after == Adjusted(before, g, b)
  }

  ghost predicate BulkDone(b: Clients, a: Clients, email: string, g: Goods) {
    && email in b && email in a && a == b[email := b[email].(row := a[email].row)]
    && AdjustedRow(b[email].row, a[email].row, g)
  }

  lemma BulkAdjusted(b: Clients, a: Clients, email: string, found: Client, g: Goods)
    requires email in b && b[email] == found && (a == b || BulkDone(b, a, email, g))
    ensures OthersKept(b, a, email) && email in a
    ensures a[email].row == found.row || Adjusts(found.row, a[email].row, email, g, false)
  {
    if a != b {
      EndsAdjusted(found.row, a[email].row, a[email].row, email, g, false);
    }
  }

  lemma SyncKeeps(b: Clients, mid: Clients, a: Clients, email: string)
    requires OthersKept(b, mid, email) && email in mid && InboundsOnly(mid, a, email)
    ensures OthersKept(b, a, email) && email in a && a[email].row == mid[email].row
  {
  }

  /** The panel, as far as the shop's calls can see it; a reliable one answers every call. */
  class XuiPanel {
    var clients: Clients
    const live: set<int>
    const reliable: bool

    ghost predicate Valid()
      reads this
    {
      AllStored(clients)
    }

    method ListInbounds() returns (r: Result<set<int>, PanelError>)
      ensures r.Success? ==> r.value == live
      ensures reliable ==> r.Success?
    {
      var fails: bool := *;
      r := if fails && !reliable then Failure(Unreachable) else Success(live);
    }

    method GetClient(email: string) returns (r: Result<Option<Client>, PanelError>)
      ensures r.Success? ==> r.value == if email in clients then Some(clients[email]) else None
      ensures reliable ==> r.Success?
    {
      var fails: bool := *;
      if fails && !reliable { return Failure(Unreachable); }
      r := Success(if email in clients then Some(clients[email]) else None);
    }

    /** POST clients/bulkAdjust for one email; the result says whether the panel skipped it. */
    method BulkAdjust(email: string, g: Goods) returns (r: Result<bool, PanelError>)
      requires Valid()
      modifies this
      ensures Valid()
      ensures clients == old(clients) || BulkDone(old(clients), clients, email, g)
      ensures r == Success(false) ==> BulkDone(old(clients), clients, email, g)
      ensures reliable && email in old(clients) && (g.days != 0 || g.gigabytes != 0) ==> r == Success(false)
    {
      if g.days == 0 && g.gigabytes == 0 { return Failure(NothingToAdjust); }
      var fails: bool := *;
      if fails && !reliable { return Failure(Unreachable); }
      var skips: bool := *;
      if (skips && !reliable) || email !in clients { return Success(true); }
      var reenable: bool := *;
      AdjustedStored(clients[email], email, g, reenable);
      clients := clients[email := clients[email].(row := Adjusted(clients[email].row, g, reenable))];
      assert AdjustedRow(old(clients)[email].row, clients[email].row, g);
      var lost: bool := *;
      r := if lost && !reliable then Failure(AnswerLost) else Success(false);
    }

    /** POST clients/update: the whole row is replaced by the payload. */
    method Update(email: string, payload: Row) returns (r: Result<bool, PanelError>)
      modifies this
      ensures clients == old(clients)
           || (email in old(clients) && RowSet(old(clients), clients, email, Replace(old(clients)[email].row, payload)))
      ensures r.Success? ==>
        email in old(clients) && RowSet(old(clients), clients, email, Replace(old(clients)[email].row, payload))
      ensures reliable && email in old(clients) ==> r.Success?
    {
      var fails: bool := *;
      if (fails && !reliable) || email !in clients { return Failure(Unreachable); }
      clients := clients[email := clients[email].(row := Replace(clients[email].row, payload))];
      var lost: bool := *;
      r := if lost && !reliable then Failure(AnswerLost) else Success(true);
    }

    /** POST clients/attach, or clients/detach. */
    method Attach(email: string, ids: set<int>, detach: bool) returns (r: Result<bool, PanelError>)
      modifies this
      ensures InboundsOnly(old(clients), clients, email)
      ensures r.Success? ==>
        (email in clients && clients[email].inbounds ==
          if detach then old(clients)[email].inbounds - ids else old(clients)[email].inbounds + ids)
      ensures reliable && email in old(clients) ==> r.Success?
    {
      var fails: bool := *;
      if (fails && !reliable) || email !in clients { return Failure(Unreachable); }
      var inbounds := if detach then clients[email].inbounds - ids else clients[email].inbounds + ids;
      clients := clients[email := clients[email].(inbounds := inbounds)];
      var lost: bool := *;
      r := if lost && !reliable then Failure(AnswerLost) else Success(true);
    }

    /** POST clients/add: the panel completes the row with an id, a UUID and a subscription id of its own. */
    method Add(email: string, row: Row, inbounds: set<int>) returns (r: Result<bool, PanelError>)
      requires Valid()
      requires Get(row, Email) == Some(Str(email)) && IntField(row, TotalGB) >= 0
      requires forall f | f in row :: IsRecordField(f) && f != AllowedIPs && f != SubId
      modifies this
      ensures Valid() && OthersKept(old(clients), clients, email)
      ensures email in old(clients) ==> clients == old(clients) && r.Failure?
      ensures email !in old(clients) && email in clients ==>
        Completes(row, clients[email].row) && clients[email].inbounds == inbounds
      ensures r.Success? ==> email in clients
      ensures reliable && email !in old(clients) ==> r.Success? && NonEmptyText(clients[email].row, SubId)
    {
      var fails: bool := *;
      if fails && !reliable { return Failure(Unreachable); }
      if email in clients { return Failure(Exists); }
      var uuid: string := *;
      var subId: string := *;
      var rowId: int := *;
      var own := OwnFields(uuid, subId, rowId);
      NewRowStored(row, own, email, inbounds, uuid, subId, rowId);
      clients := clients[email := Client(row + own, inbounds)];
      var lost: bool := *;
      r := if lost && !reliable then Failure(AnswerLost) else Success(true);
    }
  }

  /** An extension: the client stays, and its row is as before, adjusted, or adjusted with a new device limit. */
  ghost predicate Extends(before: Clients, after: Clients, email: string, g: Goods) {
    && OthersKept(before, after, email)
    && email in before && email in after
    && (after[email].row == before[email].row || Grown(before[email].row, after[email].row, g))
  }

  /** An existing client can be extended if there is something to add and it has a subscription id. */
  predicate Providable(clients: Clients, email: string, g: Goods) {
    email in clients ==> NonEmptyText(clients[email].row, SubId) && (g.days != 0 || g.gigabytes != 0)
  }

  function NewRow(email: string, g: Goods, now: int, comment: string): Row {
    map[Email := Str(email), Enable := Flag(true), TotalGB := Num(g.gigabytes * GB),
        ExpiryTime := Num(now + g.days * MS_PER_DAY), LimitIp := Num(DeviceLimit(g)), TgId := Num(0),
        Comment := Str(comment)]
  }

  lemma CompletedIsCreated(c: Client, email: string, g: Goods, now: int, comment: string, wanted: set<int>)
    requires Completes(NewRow(email, g, now, comment), c.row) && c.inbounds == wanted
    ensures CreatedFor(c, g, now, wanted)
  {
    var row := NewRow(email, g, now, comment);
    assert Get(c.row, TotalGB) == Get(row, TotalGB);
    assert Get(c.row, ExpiryTime) == Get(row, ExpiryTime);
    assert Get(c.row, LimitIp) == Get(row, LimitIp);
    assert Get(c.row, Enable) == Get(row, Enable);
  }

  /** What the calls for one client do, and the record they end with. */
  ghost predicate Reached(before: Clients, after: Clients, email: string, g: Goods, now: int, wanted: set<int>,
                          r: Result<Client, PanelError>)
  {
    && OthersKept(before, after, email)
    && (email in before ==> Extends(before, after, email, g))
    && (email !in before && email in after ==> CreatedFor(after[email], g, now, wanted))
    && (r.Success? ==>
          && email in after && r.value == after[email]
          && (email in before ==>
                && Grown(before[email].row, r.value.row, g)
                && IntField(r.value.row, LimitIp) == DeviceLimit(g)
                && r.value.inbounds == wanted))
  }

  lemma GrownKeepsSubId(before: Row, after: Row, g: Goods)
    requires Grown(before, after, g)
    ensures NonEmptyText(after, SubId) <==> NonEmptyText(before, SubId)
  {
    assert Get(after, SubId) == Get(before, SubId);
  }

  lemma ExtendedIsReached(before: Clients, after: Clients, email: string, g: Goods, now: int, wanted: set<int>,
                          r: Result<Client, PanelError>)
    requires email in before && email in after && OthersKept(before, after, email) && Stored(before[email], email)
    requires after[email].row == before[email].row || Adjusts(before[email].row, after[email].row, email, g, false)
    requires r.Success? ==>
      (r.value == after[email] && r.value.inbounds == wanted && Adjusts(before[email].row, r.value.row, email, g, true))
    ensures Reached(before, after, email, g, now, wanted, r)
    ensures r.Success? ==> (NonEmptyText(r.value.row, SubId) <==> NonEmptyText(before[email].row, SubId))
  {
    if after[email].row != before[email].row {
      AdjustsGrows(before[email].row, after[email].row, email, g, false);
    }
    if r.Success? {
      AdjustsGrows(before[email].row, r.value.row, email, g, true);
      GrownKeepsSubId(before[email].row, r.value.row, g);
    }
  }

  function ResultOf(r: Result<Client, PanelError>): Option<Provision> {
    if r.Failure? || !NonEmptyText(r.value.row, SubId) then None
    else
      var row := r.value.row;
      Some(Provisions(row[SubId].s, IntField(row, TotalGB), IntField(row, ExpiryTime)))
  }

  lemma ReachedIsProvisioned(before: Clients, after: Clients, email: string, g: Goods, now: int, wanted: set<int>,
                             r: Result<Client, PanelError>)
    requires Reached(before, after, email, g, now, wanted, r) && wanted != {}
    ensures Provisioned(before, after, email, g, now, wanted, ResultOf(r))
  {
  }

  class Provisioner {
    const panel: XuiPanel
    var selected: set<int>   // the inbound ids that the admin selected

    constructor (panel: XuiPanel, selected: set<int>)
      ensures this.panel == panel && this.selected == selected
    {
      this.panel := panel;
      this.selected := selected;
    }

    /** The selected inbounds that still exist; stale ones are pruned from the selection. */
    method ResolveLive() returns (r: Result<set<int>, PanelError>)
      modifies this
      ensures r.Success? ==> r.value == old(selected) * panel.live && selected == r.value
      ensures r.Failure? ==> selected == old(selected) && old(selected) != {} && !panel.reliable
    {
      if selected == {} { return Success({}); }
      var live :- panel.ListInbounds();
      var valid := selected * live;
      if !(selected <= live) {
        selected := valid;
      }
      r := Success(valid);
    }

    /** Attach or detach some inbounds, unless there are none. */
    method Change(email: string, ids: set<int>, detach: bool) returns (r: Result<bool, PanelError>)
      requires panel.Valid() && email in panel.clients
      modifies panel
      ensures panel.Valid() && InboundsOnly(old(panel.clients), panel.clients, email)
      ensures r.Success? ==>
        (panel.clients[email].inbounds ==
          if detach then old(panel.clients)[email].inbounds - ids else old(panel.clients)[email].inbounds + ids)
      ensures panel.reliable ==> r.Success?
    {
      if ids == {} { return Success(false); }
      r := panel.Attach(email, ids, detach);
      InboundsKeepStored(old(panel.clients), panel.clients, email);
    }

    /** Attach what is missing and detach what is no longer selected. */
    method SyncInbounds(email: string, wanted: set<int>) returns (r: Result<Client, PanelError>)
      requires panel.Valid()
      modifies panel
      ensures panel.Valid()
      ensures InboundsOnly(old(panel.clients), panel.clients, email)
      ensures r.Success? ==> email in panel.clients && r.value == panel.clients[email] && r.value.inbounds == wanted
      ensures panel.reliable && email in old(panel.clients) ==> r.Success?
    {
      var found :- panel.GetClient(email);
      if found.None? { return Failure(Missing); }
      var current := found.value.inbounds;
      var _ :- Change(email, wanted - current, false);
      ghost var attached := panel.clients;
      var _ :- Change(email, current - wanted, true);
      InboundsOnlyTwice(old(panel.clients), attached, panel.clients, email);
      SyncedInbounds(old(panel.clients), attached, panel.clients, email, wanted);
      var synced :- panel.GetClient(email);
      r := Success(synced.value);
    }

    /** Set the device limit: bulkAdjust leaves it alone, so the full current record is sent. */
    method UpdateLimit(email: string, g: Goods, wanted: set<int>) returns (r: Result<Client, PanelError>)
      requires panel.Valid() && email in panel.clients
      modifies panel
      ensures panel.Valid() && OthersKept(old(panel.clients), panel.clients, email) && email in panel.clients
      ensures panel.clients[email].row == old(panel.clients)[email].row
           || panel.clients[email].row == Limited(old(panel.clients)[email].row, email, g)
      ensures r.Success? ==>
        (r.value == panel.clients[email] && r.value.inbounds == wanted
         && r.value.row == Limited(old(panel.clients)[email].row, email, g))
      ensures panel.reliable ==> r.Success?
    {
      var current :- panel.GetClient(email);
      var payload := PreparePayload(current.value.row, Changes(email, None, None, None, Some(DeviceLimit(g))));
      ghost var row := Limited(current.value.row, email, g);
      LimitedStored(current.value, email, g);
      var updated := panel.Update(email, payload);
      RowSetKeeps(old(panel.clients), panel.clients, email, row);
      if updated.Failure? { return Failure(updated.error); }
      ghost var mid := panel.clients;
      r := SyncInbounds(email, wanted);
      SyncKeeps(old(panel.clients), mid, panel.clients, email);
    }

    /** Set the device limit if the client was found with another one, else only the inbounds. */
    method FixLimit(email: string, found: Client, g: Goods, wanted: set<int>) returns (r: Result<Client, PanelError>)
      requires panel.Valid() && email in panel.clients
      modifies panel
      ensures panel.Valid() && OthersKept(old(panel.clients), panel.clients, email) && email in panel.clients
      ensures
        var adjusted := old(panel.clients)[email].row;
        EndsAs(found.row, adjusted, Limited(adjusted, email, g), panel.clients[email].row, g, r.Success?)
      ensures r.Success? ==> r.value == panel.clients[email] && r.value.inbounds == wanted
      ensures panel.reliable ==> r.Success?
    {
      if IntField(found.row, LimitIp) != DeviceLimit(g) {
        r := UpdateLimit(email, g, wanted);
      } else {
        r := SyncInbounds(email, wanted);
      }
    }

    /** The client was `found`: shift its quota and expiry, then fix the device limit or the inbounds. */
    method Extend(email: string, found: Client, g: Goods, wanted: set<int>) returns (r: Result<Client, PanelError>)
      requires panel.Valid() && email in panel.clients && found == panel.clients[email]
      modifies panel
      ensures panel.Valid() && OthersKept(old(panel.clients), panel.clients, email) && email in panel.clients
      ensures panel.clients[email].row == found.row || Adjusts(found.row, panel.clients[email].row, email, g, false)
      ensures r.Success? ==>
        (r.value == panel.clients[email] && r.value.inbounds == wanted && Adjusts(found.row, r.value.row, email, g, true))
      ensures panel.reliable && (g.days != 0 || g.gigabytes != 0) ==> r.Success?
    {
      var skipped := panel.BulkAdjust(email, g);
      ghost var mid := panel.clients;
      BulkAdjusted(old(panel.clients), mid, email, found, g);
      if skipped.Failure? {
        return Failure(skipped.error);
      }
      if skipped.value { return Failure(Missing); }
      r := FixLimit(email, found, g, wanted);
      OthersKeptTwice(old(panel.clients), mid, panel.clients, email);
      EndsAdjusted(found.row, mid[email].row, panel.clients[email].row, email, g, r.Success?);
    }

    method Create(email: string, g: Goods, wanted: set<int>, comment: string, now: int)
      returns (r: Result<Client, PanelError>)
      requires panel.Valid() && email !in panel.clients
      modifies panel
      ensures panel.Valid() && OthersKept(old(panel.clients), panel.clients, email)
      ensures email in panel.clients ==> CreatedFor(panel.clients[email], g, now, wanted)
      ensures r.Success? ==> email in panel.clients && r.value == panel.clients[email]
      ensures panel.reliable ==> r.Success? && NonEmptyText(r.value.row, SubId)
    {
      var row := NewRow(email, g, now, comment);
      var added := panel.Add(email, row, wanted);
      if email in panel.clients {
        CompletedIsCreated(panel.clients[email], email, g, now, comment, wanted);
      }
      if added.Failure? { return Failure(added.error); }
      var found :- panel.GetClient(email);
      if found.None? { return Failure(Missing); }
      r := Success(found.value);
    }

    /** Extend the client if the panel has it, else create it. */
    method Reach(email: string, g: Goods, wanted: set<int>, comment: string, now: int)
      returns (r: Result<Client, PanelError>)
      requires panel.Valid()
      modifies panel
      ensures panel.Valid() && Reached(old(panel.clients), panel.clients, email, g, now, wanted, r)
      ensures panel.reliable && Providable(old(panel.clients), email, g) ==>
        r.Success? && NonEmptyText(r.value.row, SubId)
    {
      var existing :- panel.GetClient(email);
      if existing.Some? {
        r := Extend(email, existing.value, g, wanted);
        ExtendedIsReached(old(panel.clients), panel.clients, email, g, now, wanted, r);
      } else {
        r := Create(email, g, wanted, comment, now);
      }
    }

    /** provision_subscription_detailed. */
    method Provision(email: string, g: Goods, comment: string, now: int) returns (outcome: Option<Provision>)
      requires panel.Valid()
      modifies this, panel
      ensures panel.Valid()
      ensures Provisioned(old(panel.clients), panel.clients, email, g, now, old(selected) * panel.live, outcome)
      ensures selected == old(selected) || selected == old(selected) * panel.live
      ensures panel.reliable && Providable(old(panel.clients), email, g) && old(selected) * panel.live != {} ==> outcome.Some?
    {
      var inbounds := ResolveLive();
      if inbounds.Failure? || inbounds.value == {} { return None; }
      var detail := Reach(email, g, inbounds.value, comment, now);
      ReachedIsProvisioned(old(panel.clients), panel.clients, email, g, now, inbounds.value, detail);
      outcome := ResultOf(detail);
    }
  }
}
