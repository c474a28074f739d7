/**
 The 3x-ui client record. An update replaces the stored row with what the request
 carries, so the request has to be built from the whole record. What the panel does
 with a request is taken from its description in app/xui/client.py.
 */
module PanelRecords {
  import opened Results

  datatype Json = Num(n: int) | Str(s: string) | Flag(b: bool) | List(items: seq<string>)

  /** The keys of a record, and of an update request; `SentCreatedAt` is "created_at" next to the stored "createdAt". */
  datatype Field =
    | AdTag | AllowedIPs | Auth | Comment | Email | Enable | ExpiryTime | Flow | ForwardedPorts | Group
    | KeepAlive | LimitIp | Password | PreSharedKey | PrivateKey | PublicKey | Reset | ResetDay | ResetMax
    | ResetWeekday | Reverse | Secret | Security | SubId | TgId | TotalGB | TrafficReset | TrafficResetDay
    | Uuid | Id | LimitHwid | CreatedAt | UpdatedAt | SentCreatedAt | SentUpdatedAt | Other(name: string)

  type Row = map<Field, Json>

  const MS_PER_DAY := 24 * 60 * 60 * 1000

  const RECORD_FIELDS_1: seq<Field> := [AdTag, AllowedIPs, Auth, Comment, Email, Enable, ExpiryTime]
  const RECORD_FIELDS_2: seq<Field> := [Flow, ForwardedPorts, Group, KeepAlive, LimitIp, Password, PreSharedKey]
  const RECORD_FIELDS_3: seq<Field> := [PrivateKey, PublicKey, Reset, ResetDay, ResetMax, ResetWeekday, Reverse]
  const RECORD_FIELDS_4: seq<Field> := [Secret, Security, SubId, TgId, TotalGB, TrafficReset, TrafficResetDay]

  /** The fields that the program copies, in its order. */
  function ClientRecordFields(): seq<Field> {
    RECORD_FIELDS_1 + RECORD_FIELDS_2 + RECORD_FIELDS_3 + RECORD_FIELDS_4
  }

  /** The fields of a stored record that an update request carries under another name or next to the client. */
  predicate IsRenamed(field: Field) {
    field.Uuid? || field.Id? || field.LimitHwid? || field.CreatedAt? || field.UpdatedAt?
  }

  predicate IsRecordField(field: Field) {
    !IsRenamed(field) && !field.SentCreatedAt? && !field.SentUpdatedAt? && !field.Other?
  }

  predicate Known(field: Field) {
    IsRecordField(field) || IsRenamed(field)
  }

  lemma Listed1(f: Field)
    ensures f in RECORD_FIELDS_1 <==>
      f.AdTag? || f.AllowedIPs? || f.Auth? || f.Comment? || f.Email? || f.Enable? || f.ExpiryTime?
  {
  }

  lemma Listed2(f: Field)
    ensures f in RECORD_FIELDS_2 <==>
      f.Flow? || f.ForwardedPorts? || f.Group? || f.KeepAlive? || f.LimitIp? || f.Password? || f.PreSharedKey?
  {
  }

  lemma Listed3(f: Field)
    ensures f in RECORD_FIELDS_3 <==>
      f.PrivateKey? || f.PublicKey? || f.Reset? || f.ResetDay? || f.ResetMax? || f.ResetWeekday? || f.Reverse?
  {
  }

  lemma Listed4(f: Field)
    ensures f in RECORD_FIELDS_4 <==>
      f.Secret? || f.Security? || f.SubId? || f.TgId? || f.TotalGB? || f.TrafficReset? || f.TrafficResetDay?
  {
  }

  lemma InConcat(f: Field, a: seq<Field>, b: seq<Field>, c: seq<Field>, d: seq<Field>)
    ensures f in a + b + c + d <==> f in a || f in b || f in c || f in d
  {
  }

  /** The list of the program is exactly the record's own fields. */
  lemma RecordFieldsListed(f: Field)
    ensures f in ClientRecordFields() <==> IsRecordField(f)
  {
    InConcat(f, RECORD_FIELDS_1, RECORD_FIELDS_2, RECORD_FIELDS_3, RECORD_FIELDS_4);
    Listed1(f);
    Listed2(f);
    Listed3(f);
    Listed4(f);
  }

  function IntField(row: Row, field: Field): int {
    if field in row && row[field].Num? then row[field].n else 0
  }

  predicate NonEmptyText(row: Row, field: Field) {
    field in row && row[field].Str? && row[field].s != ""
  }

  // --- allowed addresses ----------------------------------------------------

  /** The characters that str.strip() removes. */
  predicate IsSpace(c: char) {
    var code := c as int;
    || 0x09 <= code <= 0x0d || 0x1c <= code <= 0x20
    || code in {0x85, 0xa0, 0x1680, 0x2028, 0x2029, 0x202f, 0x205f, 0x3000}
    || 0x2000 <= code <= 0x200a
  }

  function TrimLeft(s: string): string {
    if s != "" && IsSpace(s[0]) then TrimLeft(s[1..]) else s
  }

  function TrimRight(s: string): string {
    if s != "" && IsSpace(s[|s| - 1]) then TrimRight(s[..|s| - 1]) else s
  }

  function Trim(s: string): string {
    TrimRight(TrimLeft(s))
  }

  function Split(s: string): (pieces: seq<string>)
    ensures pieces != []
  {
    if s == "" then [""]
    else
      var rest := Split(s[1..]);
      if s[0] == ',' then [""] + rest else [[s[0]] + rest[0]] + rest[1..]
  }

  function Join(parts: seq<string>): string {
    if parts == [] then "" else if |parts| == 1 then parts[0] else parts[0] + "," + Join(parts[1..])
  }

  /** [part.strip() for part in pieces if part.strip()] */
  function Parts(pieces: seq<string>): seq<string> {
    if pieces == [] then []
    else (if Trim(pieces[0]) != "" then [Trim(pieces[0])] else []) + Parts(pieces[1..])
  }

  function AllowedIps(row: Row): seq<string> {
    if AllowedIPs !in row then []
    else
      match row[AllowedIPs]
      case Str(s) => Parts(Split(s))
      case List(items) => Parts(items)
      case _ => []
  }

  predicate Clean(part: string) {
    && part != ""
    && ',' !in part
    && !IsSpace(part[0]) && !IsSpace(part[|part| - 1])
  }

  lemma {:induction false} TrimLeftClean(s: string)
    requires ',' !in s
    ensures ',' !in TrimLeft(s) && (TrimLeft(s) != "" ==> !IsSpace(TrimLeft(s)[0]))
  {
    if s != "" && IsSpace(s[0]) {
      TrimLeftClean(s[1..]);
    }
  }

  lemma {:induction false} TrimRightClean(s: string)
    requires ',' !in s && (s != "" ==> !IsSpace(s[0]))
    ensures TrimRight(s) != "" ==> Clean(TrimRight(s))
  {
    if s != "" && IsSpace(s[|s| - 1]) {
      assert s[..|s| - 1] != "" ==> s[..|s| - 1][0] == s[0];
      TrimRightClean(s[..|s| - 1]);
    }
  }

  lemma {:induction false} SplitHasNoCommas(s: string)
    ensures forall piece | piece in Split(s) :: ',' !in piece
  {
    if s != "" {
      SplitHasNoCommas(s[1..]);
      assert Split(s[1..])[0] in Split(s[1..]);
    }
  }

  lemma {:induction false} PartsAreClean(pieces: seq<string>)
    requires forall piece | piece in pieces :: ',' !in piece
    ensures forall part | part in Parts(pieces) :: Clean(part)
  {
    if pieces != [] {
      assert pieces[0] in pieces;
      TrimLeftClean(pieces[0]);
      TrimRightClean(TrimLeft(pieces[0]));
      PartsAreClean(pieces[1..]);
    }
  }

  lemma {:induction false} CleanPartsStay(parts: seq<string>)
    requires forall part | part in parts :: Clean(part)
    ensures Parts(parts) == parts
  {
    if parts != [] {
      assert Clean(parts[0]) && Trim(parts[0]) == parts[0];
      CleanPartsStay(parts[1..]);
    }
  }

  lemma {:induction false} SplitPlain(part: string)
    requires ',' !in part
    ensures Split(part) == [part]
  {
    if part != "" {
      SplitPlain(part[1..]);
      assert part == [part[0]] + part[1..];
    }
  }

  lemma {:induction false} SplitFirst(part: string, rest: string)
    requires ',' !in part
    ensures Split(part + "," + rest) == [part] + Split(rest)
  {
    var s := part + "," + rest;
    if part == "" {
      assert s[0] == ',' && s[1..] == rest;
    } else {
      assert s[0] == part[0] && s[1..] == part[1..] + "," + rest;
      SplitFirst(part[1..], rest);
      assert part == [part[0]] + part[1..];
      assert ([part[1..]] + Split(rest))[1..] == Split(rest);
    }
  }

  lemma {:induction false} SplitJoin(parts: seq<string>)
    requires parts != [] && forall part | part in parts :: Clean(part)
    ensures Split(Join(parts)) == parts
  {
    assert Clean(parts[0]);
    if |parts| == 1 {
      SplitPlain(parts[0]);
    } else {
      SplitFirst(parts[0], Join(parts[1..]));
      SplitJoin(parts[1..]);
    }
  }

  /** The address list survives the trip through the update request and back into the stored text. */
  lemma IpsRoundTrip(s: string)
    ensures
      var parts := Parts(Split(s));
      parts != [] ==> Parts(Split(Join(parts))) == parts
  {
    var parts := Parts(Split(s));
    SplitHasNoCommas(s);
    PartsAreClean(Split(s));
    if parts != [] {
      SplitJoin(parts);
      CleanPartsStay(parts);
    }
  }

  // --- the update request ---------------------------------------------------

  function Get(row: Row, field: Field): Option<Json> {
    if field in row then Some(row[field]) else None
  }

  /** The row with these field values. */
  function FromFields(domain: set<Field>, value: Field -> Option<Json>): Row {
    map f | f in domain && value(f).Some? :: value(f).value
  }

  lemma FromFieldsGet(domain: set<Field>, value: Field -> Option<Json>, field: Field)
    requires value(field).Some? ==> field in domain
    ensures Get(FromFields(domain, value), field) == value(field)
  {
  }

  /** What the update request calls the client's id: the protocol UUID. */
  function ProtocolId(row: Row): Option<Json> {
    if NonEmptyText(row, Uuid) then Some(row[Uuid])
    else if NonEmptyText(row, Id) then Some(row[Id])
    else None
  }

  /** The values the caller of prepare_client_update_payload sets itself. */
  datatype Changes = Changes(
    email: string, totalBytes: Option<int>, expiryMs: Option<int>, comment: Option<string>, limitIp: Option<int>)
  {
    function Value(field: Field): Option<Json> {
      if field == Email then Some(Str(email))
      else if field == TotalGB && totalBytes.Some? then Some(Num(totalBytes.value))
      else if field == ExpiryTime && expiryMs.Some? then Some(Num(expiryMs.value))
      else if field == Comment && comment.Some? then Some(Str(comment.value))
      else if field == LimitIp && limitIp.Some? then Some(Num(limitIp.value))
      else None
    }
  }

  /** One field of the update request before the caller's own values. */
  function CarriedField(row: Row, ips: seq<string>, field: Field): Option<Json> {
    if field == SentCreatedAt then Get(row, CreatedAt)
    else if field == SentUpdatedAt then Get(row, UpdatedAt)
    else if field == Id then ProtocolId(row)
    else if field == LimitHwid then (if LimitHwid in row then Some(Num(IntField(row, LimitHwid))) else None)
    else if field == AllowedIPs then (if ips != [] then Some(List(ips)) else None)
    else if IsRecordField(field) then Get(row, field)
    else None
  }

  function PayloadField(row: Row, ips: seq<string>, changes: Changes, field: Field): Option<Json> {
    if changes.Value(field).Some? then changes.Value(field) else CarriedField(row, ips, field)
  }

  const REQUEST_FIELDS: set<Field> :=
    {Id, LimitHwid, SentCreatedAt, SentUpdatedAt, AllowedIPs, Email, TotalGB, ExpiryTime, Comment, LimitIp}

  function Request(row: Row, ips: seq<string>, changes: Changes): Row {
    FromFields(row.Keys + REQUEST_FIELDS, f => PayloadField(row, ips, changes, f))
  }

  lemma RequestField(row: Row, ips: seq<string>, changes: Changes, field: Field)
    ensures Get(Request(row, ips, changes), field) == PayloadField(row, ips, changes, field)
  {
    FromFieldsGet(row.Keys + REQUEST_FIELDS, f => PayloadField(row, ips, changes, f), field);
  }

  /** The body of the update request that prepare_client_update_payload builds from the stored row. */
  function Payload(row: Row, changes: Changes): Row {
    Request(row, AllowedIps(row), changes)
  }

  function PutIf(row: Row, field: Field, value: Option<Json>): (r: Row)
    ensures forall f :: Get(r, f) == if f == field && value.Some? then value else Get(row, f)
  {
    if value.Some? then row[field := value.value] else row
  }

  /** Copy the fields of a list that the record has. */
  method CopyFields(row: Row, fields: seq<Field>) returns (payload: Row)
    ensures forall f :: Get(payload, f) == if f in fields then Get(row, f) else None
  {
    payload := map[];
    for k := 0 to |fields|
      invariant forall f :: Get(payload, f) == if f in fields[..k] then Get(row, f) else None
    {
      assert fields[..k + 1] == fields[..k] + [fields[k]];
      payload := PutIf(payload, fields[k], Get(row, fields[k]));
    }
    assert fields[..|fields|] == fields;
  }

  method CopyRecordFields(row: Row) returns (payload: Row)
    ensures forall f :: Get(payload, f) == if IsRecordField(f) then Get(row, f) else None
  {
    payload := CopyFields(row, ClientRecordFields());
    forall f
      ensures f in ClientRecordFields() <==> IsRecordField(f)
    {
      RecordFieldsListed(f);
    }
  }

  /** Replace the address text by the list, or leave it out. */
  method CarryIps(row: Row, before: Row, ips: seq<string>) returns (payload: Row)
    requires forall f :: Get(before, f) == if IsRecordField(f) then Get(row, f) else None
    ensures forall f :: Get(payload, f) == (if IsRecordField(f) then CarriedField(row, ips, f) else None)
  {
    payload := before - {AllowedIPs};
    payload := PutIf(payload, AllowedIPs, if ips != [] then Some(List(ips)) else None);
  }

  /** Fields that travel under another name. */
  method CarryRenamed(row: Row, before: Row, ips: seq<string>) returns (payload: Row)
    requires forall f :: Get(before, f) == (if IsRecordField(f) then CarriedField(row, ips, f) else None)
    ensures forall f :: Get(payload, f) == CarriedField(row, ips, f)
  {
    payload := PutIf(before, LimitHwid, if LimitHwid in row then Some(Num(IntField(row, LimitHwid))) else None);
    payload := PutIf(payload, Id, ProtocolId(row));
    payload := PutIf(payload, SentCreatedAt, Get(row, CreatedAt));
    payload := PutIf(payload, SentUpdatedAt, Get(row, UpdatedAt));
  }

  /** The first half: copy the record fields and rename the others. */
  method CarryRecord(row: Row, ips: seq<string>) returns (payload: Row)
    ensures forall f :: Get(payload, f) == CarriedField(row, ips, f)
  {
    payload := CopyRecordFields(row);
    payload := CarryIps(row, payload, ips);
    payload := CarryRenamed(row, payload, ips);
  }

  /** The second half: the caller's own values. */
  method Override(before: Row, changes: Changes) returns (payload: Row)
    ensures forall f :: Get(payload, f) == if changes.Value(f).Some? then changes.Value(f) else Get(before, f)
  {
    payload := before[Email := Str(changes.email)];
    payload := PutIf(payload, TotalGB, changes.Value(TotalGB));
    payload := PutIf(payload, ExpiryTime, changes.Value(ExpiryTime));
    payload := PutIf(payload, Comment, changes.Value(Comment));
    payload := PutIf(payload, LimitIp, changes.Value(LimitIp));
  }

  /** The dictionary is filled in place, field after field. */
  method PreparePayload(row: Row, changes: Changes) returns (payload: Row)
    ensures payload == Payload(row, changes)
  {
    var ips := AllowedIps(row);
    payload := CarryRecord(row, ips);
    payload := Override(payload, changes);
    forall f
      ensures Get(payload, f) == Get(Request(row, ips, changes), f)
    {
      RequestField(row, ips, changes, f);
    }
    SameRows(payload, Request(row, ips, changes));
  }

  lemma SameRows(a: Row, b: Row)
    requires forall f :: Get(a, f) == Get(b, f)
    ensures a == b
  {
    forall f
      ensures f in a <==> f in b
      ensures f in a ==> a[f] == b[f]
    {
      assert Get(a, f) == Get(b, f);
    }
  }

  // --- what the panel does --------------------------------------------------

  function StoredIps(row: Row, payload: Row): Option<Json> {
    if AllowedIPs in payload && payload[AllowedIPs].List? then Some(Str(Join(payload[AllowedIPs].items)))
    else if AllowedIPs in row then Some(row[AllowedIPs])
    else None
  }

  /** The value of one field of the stored row after an update request. */
  function ReplacedField(row: Row, payload: Row, ips: Option<Json>, field: Field): Option<Json> {
    if field == AllowedIPs then ips
    else if IsRecordField(field) then (if field in payload then Some(payload[field]) else None)
    else if field == LimitHwid then Some(if LimitHwid in payload then payload[LimitHwid] else Num(0))
    else if field == Uuid then
      (if Id in payload then Some(payload[Id]) else if Uuid in row then Some(row[Uuid]) else None)
    else if field == Id then (if Id in row then Some(row[Id]) else None)
    else if field == CreatedAt then (if SentCreatedAt in payload then Some(payload[SentCreatedAt]) else None)
    else if field == UpdatedAt then (if SentUpdatedAt in payload then Some(payload[SentUpdatedAt]) else None)
    else None
  }

  function Replaced(row: Row, payload: Row, ips: Option<Json>): Row {
    FromFields(row.Keys + payload.Keys + {AllowedIPs, LimitHwid, Uuid, CreatedAt, UpdatedAt},
               f => ReplacedField(row, payload, ips, f))
  }

  lemma ReplacedGet(row: Row, payload: Row, ips: Option<Json>, field: Field)
    ensures Get(Replaced(row, payload, ips), field) == ReplacedField(row, payload, ips, field)
  {
    FromFieldsGet(row.Keys + payload.Keys + {AllowedIPs, LimitHwid, Uuid, CreatedAt, UpdatedAt},
                  f => ReplacedField(row, payload, ips, f), field);
  }

  /** POST clients/update: the row is replaced, and what is not listed is dropped. */
  function Replace(row: Row, payload: Row): Row {
    Replaced(row, payload, StoredIps(row, payload))
  }

  /** POST clients/bulkAdjust: deltas, unlimited (0) stays unlimited; a depleted client may be enabled again. */
  function Adjust(row: Row, addDays: int, addBytes: int, reenable: bool): Row {
    var total, expiry := IntField(row, TotalGB), IntField(row, ExpiryTime);
    var r1 := if total != 0 then row[TotalGB := Num(total + addBytes)] else row;
    var r2 := if expiry != 0 then r1[ExpiryTime := Num(expiry + addDays * MS_PER_DAY)] else r1;
    if reenable then r2[Enable := Flag(true)] else r2
  }

  // --- replacement keeps the record -----------------------------------------

  /** The stored record as the panel keeps it. */
  predicate Documented(row: Row) {
    && (forall f | f in row :: Known(f))
    && NonEmptyText(row, Uuid)
    && LimitHwid in row && row[LimitHwid].Num?
    && (AllowedIPs in row ==> row[AllowedIPs].Str?)
  }

  /** The request that only changes the device limit. */
  function LimitPayload(row: Row, email: string, limit: int): Row {
    Payload(row, Changes(email, None, None, None, Some(limit)))
  }

  lemma LimitPayloadField(row: Row, email: string, limit: int, field: Field)
    ensures Get(LimitPayload(row, email, limit), field) ==
      if field == Email then Some(Str(email))
      else if field == LimitIp then Some(Num(limit))
      else CarriedField(row, AllowedIps(row), field)
  {
    RequestField(row, AllowedIps(row), Changes(email, None, None, None, Some(limit)), field);
  }

  /** The payload holds what was carried over from the row, apart from the values that were set. */
  ghost predicate Carries(payload: Row, row: Row) {
    forall f | f != Email && f != LimitIp && f != AllowedIPs :: Get(payload, f) == CarriedField(row, [], f)
  }

  lemma LimitPayloadCarries(row: Row, email: string, limit: int)
    ensures Carries(LimitPayload(row, email, limit), row)
  {
    forall f | f != Email && f != LimitIp && f != AllowedIPs
      ensures Get(LimitPayload(row, email, limit), f) == CarriedField(row, [], f)
    {
      LimitPayloadField(row, email, limit, f);
    }
  }

  lemma RecordFieldIsKept(row: Row, payload: Row, ips: Option<Json>, field: Field)
    requires Carries(payload, row) && IsRecordField(field)
    requires field != LimitIp && field != Email && field != AllowedIPs
    ensures ReplacedField(row, payload, ips, field) == Get(row, field)
  {
    assert Get(payload, field) == CarriedField(row, [], field);
  }

  lemma RenamedFieldIsKept(row: Row, payload: Row, ips: Option<Json>, field: Field)
    requires NonEmptyText(row, Uuid) && LimitHwid in row && row[LimitHwid].Num?
    requires Carries(payload, row) && IsRenamed(field)
    ensures ReplacedField(row, payload, ips, field) == Get(row, field)
  {
    assert Get(payload, Id) == ProtocolId(row);
    assert Get(payload, SentCreatedAt) == Get(row, CreatedAt);
    assert Get(payload, SentUpdatedAt) == Get(row, UpdatedAt);
    assert Get(payload, LimitHwid) == Some(Num(IntField(row, LimitHwid)));
  }

  lemma ReplacedFieldIsKept(row: Row, payload: Row, ips: Option<Json>, field: Field)
    requires Documented(row) && Carries(payload, row) && field != LimitIp && field != Email && field != AllowedIPs
    ensures ReplacedField(row, payload, ips, field) == Get(row, field)
  {
    if IsRecordField(field) {
      RecordFieldIsKept(row, payload, ips, field);
    } else if IsRenamed(field) {
      RenamedFieldIsKept(row, payload, ips, field);
    }
  }

  lemma ReplacedIps(row: Row, email: string, limit: int)
    requires Documented(row)
    ensures
      var stored := StoredIps(row, LimitPayload(row, email, limit));
      && (stored.Some? <==> AllowedIPs in row)
      && (stored.Some? ==> stored.value.Str? && Parts(Split(stored.value.s)) == AllowedIps(row))
  {
    LimitPayloadField(row, email, limit, AllowedIPs);
    if AllowedIPs in row {
      IpsRoundTrip(row[AllowedIPs].s);
    }
  }

  /** A full-row replacement changes the device limit and nothing else that the panel stores. */
  lemma ReplaceKeepsField(row: Row, email: string, limit: int, field: Field)
    requires Documented(row) && Get(row, Email) == Some(Str(email)) && field != AllowedIPs
    ensures Get(Replace(row, LimitPayload(row, email, limit)), field) ==
      if field == LimitIp then Some(Num(limit)) else Get(row, field)
  {
    var payload := LimitPayload(row, email, limit);
    var ips := StoredIps(row, payload);
    ReplacedGet(row, payload, ips, field);
    LimitPayloadField(row, email, limit, field);
    if field != LimitIp && field != Email {
      LimitPayloadCarries(row, email, limit);
      ReplacedFieldIsKept(row, payload, ips, field);
    }
  }

  /** The allowed addresses come out of the replacement as they went in. */
  lemma ReplaceKeepsIps(row: Row, email: string, limit: int)
    requires Documented(row)
    ensures
      var after := Replace(row, LimitPayload(row, email, limit));
      && (AllowedIPs in after <==> AllowedIPs in row)
      && (AllowedIPs in after ==> after[AllowedIPs].Str?)
      && AllowedIps(after) == AllowedIps(row)
  {
    var payload := LimitPayload(row, email, limit);
    ReplacedIps(row, email, limit);
    ReplacedGet(row, payload, StoredIps(row, payload), AllowedIPs);
  }

  lemma FieldSurvivesIff(row: Row, payload: Row, ips: Option<Json>, field: Field)
    requires field in row && (field == AllowedIPs ==> ips.Some?)
    requires Carries(payload, row) && Email in payload && LimitIp in payload
    ensures ReplacedField(row, payload, ips, field).Some? <==> Known(field)
  {
    assert Get(payload, SentCreatedAt) == Get(row, CreatedAt);
    assert Get(payload, SentUpdatedAt) == Get(row, UpdatedAt);
    if IsRecordField(field) && field != Email && field != LimitIp && field != AllowedIPs {
      assert Get(payload, field) == CarriedField(row, [], field);
    }
  }

  /** Whatever the stored row looks like: no field is lost exactly when every field is one the program knows. */
  lemma FieldsSurviveIff(row: Row, email: string, limit: int)
    ensures row.Keys <= Replace(row, LimitPayload(row, email, limit)).Keys <==> forall f | f in row :: Known(f)
  {
    var payload := LimitPayload(row, email, limit);
    var ips := StoredIps(row, payload);
    LimitPayloadCarries(row, email, limit);
    LimitPayloadField(row, email, limit, Email);
    LimitPayloadField(row, email, limit, LimitIp);
    forall f | f in row
      ensures f in Replace(row, payload) <==> Known(f)
    {
      ReplacedGet(row, payload, ips, f);
      FieldSurvivesIff(row, payload, ips, f);
    }
  }
}
