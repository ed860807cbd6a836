/** Accepting messages one at a time: what a single send, and a batch of them, writes and
    answers. */
module SmsAcceptance {
  import opened SmsTypes
  import opened MessageEncoder
  import opened RequestedRoute
  import AmountParser
  import MessageJob

  const MAX_SEGMENTS := 10

  type Uid = nat

  datatype Priority = High | Normal | Low

  datatype SendInput = SendInput(
    to: string, message: Text, priority: Option<Priority>, operator: Option<string>,
    route: RouteRequest, expiresIn: Option<nat>, reference: Option<string>)

  /** Who sends, with the tenant's settings. `storedBody` is its retention policy. */
  datatype Client = Client(
    tenant: TenantId, apiClient: Option<nat>,
    defaultExpiresIn: nat, maxAttempts: MessageJob.MaxAttempts, storedBody: Text -> Option<Text>)

  /** What acceptance looks up: canonical numbers, body fingerprints, lower case, operators by
      code, devices. */
  datatype Directory = Directory(
    e164: string -> Option<Recipient>, bodyHash: Text -> string, lower: string -> string,
    operators: map<string, OperatorId>, devices: Devices)

  /** A row of `sms_messages` as it is first written. The deadline is kept as seconds from
      acceptance. */
  datatype Row = Row(
    uid: Uid, tenant: TenantId, apiClient: Option<nat>, key: Option<string>, reference: Option<string>,
    recipient: string, e164: Recipient, messageBody: Option<Text>, dispatchBody: Text, bodyHash: string,
    segments: nat, encoding: Encoding, priority: Priority, maxAttempts: MessageJob.MaxAttempts,
    operator: Option<OperatorId>, gateway: Option<GatewayId>, slot: Option<nat>, expiresIn: Option<nat>)

  type Table = seq<Row>

  datatype SendResult =
    | Accepted(row: Row, duplicate: bool)
    | Rejected(code: ErrorCode)
    | Threw // an error the caller did not cause

  // ---- idempotency keys ---------------------------------------------------------------

  predicate HasKey(row: Row, tenant: TenantId, key: string) {
    row.tenant == tenant && row.key == Some(key)
  }

  function FindKey(table: Table, tenant: TenantId, key: string): (found: Option<Row>)
    ensures found.Some? ==> found.value in table && HasKey(found.value, tenant, key)
    ensures found.None? <==> forall row :: row in table ==> !HasKey(row, tenant, key)
  {
    if table == [] then None
    else if HasKey(table[|table| - 1], tenant, key) then Some(table[|table| - 1])
    else FindKey(table[..|table| - 1], tenant, key)
  }

  function Lookup(table: Table, tenant: TenantId, key: Option<string>): Option<Row> {
    if key.None? then None else FindKey(table, tenant, key.value)
  }

  /** The unique index: a tenant uses a key at most once. */
  predicate UniqueKeys(table: Table) {
    forall i, j :: 0 <= i < j < |table| && table[i].key.Some? ==>
      table[i].tenant != table[j].tenant || table[i].key != table[j].key
  }

  predicate SamePayload(found: Row, e164: Recipient, bodyHash: string) {
    found.e164 == e164 && found.bodyHash == bodyHash
  }

  /** A used key is a duplicate for the same number and text, and a conflict for any other. */
  function Replay(found: Row, e164: Recipient, bodyHash: string): SendResult {
    if SamePayload(found, e164, bodyHash) then Accepted(found, true) else Rejected(IDEMPOTENCY_CONFLICT)
  }

  /** The key of the entry at `index` of a request sent under `key`. */
  function EntryKey(key: Option<string>, index: nat): (entry: Option<string>)
    ensures entry.Some? ==> IsNamed(entry)
  {
    if IsNamed(key) then Some(key.value + ":" + AmountParser.Print(index)) else None
  }

  // ---- one message ----------------------------------------------------------------------

  /** An operator named by its code, in any case; an empty name is no name. */
  function FindOperator(dir: Directory, code: string): Option<OperatorId> {
    if code in dir.operators then Some(dir.operators[code]) else None
  }

  function Compose(client: Client, dir: Directory, input: SendInput, e164: Recipient, operator: Option<OperatorId>,
                   gateway: Option<GatewayId>, slot: Option<nat>, key: Option<string>, uid: Uid): (row: Row)
    ensures row.tenant == client.tenant && row.key == key
    ensures row.e164 == e164 && row.bodyHash == dir.bodyHash(input.message)
  {
    var encoded := Encode(input.message);
    var seconds := if input.expiresIn.Some? then input.expiresIn.value else client.defaultExpiresIn;
    Row(uid, client.tenant, client.apiClient, key, input.reference, input.to, e164,
        client.storedBody(input.message), input.message, dir.bodyHash(input.message),
        encoded.segments, encoded.encoding, if input.priority.Some? then input.priority.value else Normal,
        client.maxAttempts, operator, gateway, slot, if seconds > 0 then Some(seconds) else None)
  }

  /** Whether an entry can be written, told from the entry alone. */
  datatype Judgement = Unfit(code: ErrorCode) | Fit(row: Row)

  /** What is wrong with the number or the text, if anything. */
  function ContentFault(dir: Directory, input: SendInput): Option<ErrorCode> {
    if dir.e164(input.to).None? then Some(INVALID_NUMBER)
    else if Encode(input.message).segments > MAX_SEGMENTS then Some(MESSAGE_TOO_LONG)
    else None
  }

  /** The operator and the route, looked up for this entry. */
  function JudgeRoute(client: Client, dir: Directory, input: SendInput, key: Option<string>, uid: Uid): Judgement
    requires ContentFault(dir, input).None?
  {
    var operator := if IsNamed(input.operator) then FindOperator(dir, dir.lower(input.operator.value)) else None;
    if IsNamed(input.operator) && operator.None? then Unfit(OPERATOR_NOT_FOUND)
    else
      match Resolve(dir.devices, client.tenant, input.route)
      case Refused(code) => Unfit(code)
      case Resolved(gateway, slot) =>
        Fit(Compose(client, dir, input, dir.e164(input.to).value, operator, gateway, slot, key, uid))
  }

  function Judge(client: Client, dir: Directory, input: SendInput, key: Option<string>, uid: Uid): Judgement {
    var fault := ContentFault(dir, input);
    if fault.Some? then Unfit(fault.value) else JudgeRoute(client, dir, input, key, uid)
  }

  /** `send`, with no other write in between. */
  function Send(client: Client, dir: Directory, table: Table, input: SendInput, key: Option<string>, uid: Uid)
    : (Table, SendResult) {
    var fault := ContentFault(dir, input);
    if fault.Some? then (table, Rejected(fault.value))
    else
      var found := if IsNamed(key) then FindKey(table, client.tenant, key.value) else None;
      if found.Some? then (table, Replay(found.value, dir.e164(input.to).value, dir.bodyHash(input.message)))
      else
        match JudgeRoute(client, dir, input, key, uid)
        case Unfit(code) => (table, Rejected(code))
        case Fit(row) =>
          if Lookup(table, client.tenant, key).Some? then (table, Threw)
          else (table + [row], Accepted(row, false))
  }

  /** The first `n` entries of a batch: each stands on its own. */
  function Batch(client: Client, dir: Directory, table: Table, inputs: seq<SendInput>, key: Option<string>,
                 uids: nat -> Uid, n: nat): (r: (Table, seq<SendResult>))
    requires n <= |inputs|
    ensures |r.1| == n
  {
    if n == 0 then (table, [])
    else
      var (before, results) := Batch(client, dir, table, inputs, key, uids, n - 1);
      var (after, result) := Send(client, dir, before, inputs[n - 1], EntryKey(key, n - 1), uids(n - 1));
      (after, results + [result])
  }

  // ---- laws -----------------------------------------------------------------------------

  lemma LookupIsUnique(table: Table, tenant: TenantId, key: string, row: Row)
    requires UniqueKeys(table) && row in table && HasKey(row, tenant, key)
    ensures FindKey(table, tenant, key) == Some(row)
  {
    var i :| 0 <= i < |table| && table[i] == row;
    var found := FindKey(table, tenant, key).value;
    var j :| 0 <= j < |table| && table[j] == found;
  }

  lemma FindKeyInExtension(table: Table, more: Table, tenant: TenantId, key: string)
    requires UniqueKeys(table + more)
    ensures FindKey(table, tenant, key).Some? ==> FindKey(table + more, tenant, key) == FindKey(table, tenant, key)
    ensures FindKey(table + more, tenant, key).None?
       <==> FindKey(table, tenant, key).None? && FindKey(more, tenant, key).None?
  {
    assert forall row :: row in table + more <==> row in table || row in more;
    if FindKey(table, tenant, key).Some? {
      LookupIsUnique(table + more, tenant, key, FindKey(table, tenant, key).value);
    }
  }

  lemma UniqueKeysOfPrefix(table: Table, more: Table)
    requires UniqueKeys(table + more)
    ensures UniqueKeys(table)
  {
    assert forall i :: 0 <= i < |table| ==> (table + more)[i] == table[i];
  }

  /** One more row fits the unique index exactly when its key is not taken. */
  lemma RowFitsIff(table: Table, row: Row)
    requires UniqueKeys(table)
    ensures UniqueKeys(table + [row]) <==> Lookup(table, row.tenant, row.key).None?
  {
    var after := table + [row];
    if Lookup(table, row.tenant, row.key).Some? {
      var found := Lookup(table, row.tenant, row.key).value;
      var i :| 0 <= i < |table| && table[i] == found;
      assert after[i] == found && after[|table|] == row;
    } else {
      assert forall i :: 0 <= i < |table| ==>
            table[i] in table && !(row.key.Some? && HasKey(table[i], row.tenant, row.key.value));
    }
  }

  /** However a request is retried, entries of different positions, or under different keys,
      never share a key. */
  lemma EntryKeysAreInjective(key: Option<string>, i: nat, key': Option<string>, j: nat)
    requires EntryKey(key, i).Some? && EntryKey(key, i) == EntryKey(key', j)
    ensures key == key' && i == j
  {
    var a, b := AmountParser.Print(i), AmountParser.Print(j);
    var s := key.value + ":" + a;
    assert s == key'.value + ":" + b;
    assert s[|key.value|] == ':' && s[|key'.value|] == ':';
    assert forall k :: |key.value| < k < |s| ==> s[k] == a[k - |key.value| - 1];
    assert forall k :: |key'.value| < k < |s| ==> s[k] == b[k - |key'.value| - 1];
    assert a == s[|key.value| + 1..] && b == s[|key'.value| + 1..];
    assert key.value == s[..|key.value|] && key'.value == s[..|key'.value|];
  }

  /** A send keeps the unique index; a second one under the same key and with the same number
      and text writes nothing and returns the first one's message, whatever came in between. */
  lemma SendOnceUnderAKey(client: Client, dir: Directory, table: Table, input: SendInput, key: Option<string>, uid: Uid,
                          more: Table, again: SendInput, uid': Uid)
    requires UniqueKeys(table) && IsNamed(key)
    requires again.to == input.to && again.message == input.message
    requires UniqueKeys(Send(client, dir, table, input, key, uid).0 + more)
    ensures UniqueKeys(Send(client, dir, table, input, key, uid).0)
    ensures var (after, result) := Send(client, dir, table, input, key, uid);
            result.Accepted? ==>
              Send(client, dir, after + more, again, key, uid') == (after + more, Accepted(result.row, true))
  {
    hide Encode, Resolve;
    var (after, result) := Send(client, dir, table, input, key, uid);
    UniqueKeysOfPrefix(after, more);
    if result.Accepted? {
      assert result.row in after;
      LookupIsUnique(after + more, client.tenant, key.value, result.row);
    }
  }
}
