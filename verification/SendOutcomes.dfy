/** What acceptance answers and writes, read off the columns: what is refused and why, what a used
    key is answered, and the columns of a new row. */
module SendOutcomes {
  import opened SmsTypes
  import opened MessageEncoder
  import opened DeliveryState
  import opened RequestedRoute
  import opened SmsAcceptance
  import opened BulkAcceptance
  import opened BulkLaws
  import opened SmsService
  import AmountParser

  // ---- refusals ---------------------------------------------------------------------------------------

  /** The number is one, and the text fits ten parts. */
  predicate IsSendable(dir: Directory, input: SendInput) {
    dir.e164(input.to).Some? && Encode(input.message).segments <= 10
  }

  /** A number that is none is refused first, then a text that is too long, whatever the key. */
  lemma UnsendableIsRefused(client: Client, dir: Directory, table: Table, input: SendInput, key: Option<string>,
                            uid: Uid)
    requires !IsSendable(dir, input)
    ensures Send(client, dir, table, input, key, uid)
         == (table, Rejected(if dir.e164(input.to).None? then INVALID_NUMBER else MESSAGE_TOO_LONG))
  {
  }

  // ---- used keys --------------------------------------------------------------------------------------

  predicate IsUnder(row: Row, client: Client, key: string) {
    row.tenant == client.tenant && row.key == Some(key)
  }

  /** What a request is answered when `row` has its key: that message, if its number and
      its text are the request's own, and a conflict otherwise. */
  function AnswerFor(row: Row, dir: Directory, input: SendInput): SendResult
    requires dir.e164(input.to).Some?
  {
    if row.e164 == dir.e164(input.to).value && row.bodyHash == dir.bodyHash(input.message) then Accepted(row, true)
    else Rejected(IDEMPOTENCY_CONFLICT)
  }

  /** Under a key that is used nothing is written. */
  lemma UsedKeyIsAnswered(client: Client, dir: Directory, table: Table, input: SendInput, key: string, uid: Uid,
                          row: Row)
    requires UniqueKeys(table) && row in table && IsUnder(row, client, key)
    requires IsSendable(dir, input) && key != ""
    ensures Send(client, dir, table, input, Some(key), uid) == (table, AnswerFor(row, dir, input))
  {
    hide Encode;
    LookupIsUnique(table, client.tenant, key, row);
  }

  /** A key that is taken after the check has found it free: the insert fails, and the request is
      answered by the message that took it, if its operator and route were in order. */
  lemma LostRaceIsAnswered(client: Client, dir: Directory, table: Table, input: SendInput, key: string, uid: Uid,
                           others: Table, row: Row)
    requires UniqueKeys(table + others) && row in others && IsUnder(row, client, key)
    requires IsSendable(dir, input) && key != ""
    ensures var (after, answer) := SendAmid(client, dir, table, input, Some(key), uid, others);
            && after == table + others
            && (JudgeRoute(client, dir, input, Some(key), uid).Fit? ==> answer == AnswerFor(row, dir, input))
            && (JudgeRoute(client, dir, input, Some(key), uid).Unfit? ==>
                  answer == Rejected(JudgeRoute(client, dir, input, Some(key), uid).code))
  {
    hide Encode, JudgeRoute, UniqueKeys;
    var all := table + others;
    assert row in all;
    FindKeyInExtension(table, others, client.tenant, key);
    LookupIsUnique(all, client.tenant, key, row);
    UsedKeyIsAnswered(client, dir, all, input, key, uid, row);
    assert FindKey(others, client.tenant, key).Some?;
    NotBeforeAndAfter(table, others, client.tenant, key, row);
    LongerIsAnother(table, if JudgeRoute(client, dir, input, Some(key), uid).Fit?
                           then JudgeRoute(client, dir, input, Some(key), uid).row else row);
  }

  lemma NotBeforeAndAfter(table: Table, others: Table, tenant: TenantId, key: string, row: Row)
    requires UniqueKeys(table + others) && row in others && HasKey(row, tenant, key)
    ensures FindKey(table, tenant, key).None?
  {
    var i :| 0 <= i < |others| && others[i] == row;
    var all := table + others;
    assert all[|table| + i] == row;
    forall r | r in table ensures !HasKey(r, tenant, key) {
      var j :| 0 <= j < |table| && table[j] == r;
      assert all[j] == r;
    }
  }

  /** A row taken for an entry has that entry's number and text. */
  predicate IsRowOf(dir: Directory, input: SendInput, judgement: Judgement) {
    judgement.Fit? ==>
      && IsSendable(dir, input)
      && judgement.row.e164 == dir.e164(input.to).value && judgement.row.bodyHash == dir.bodyHash(input.message)
  }

  lemma SiftedEntryIsRowOf(client: Client, dir: Directory, sieve: Sieve, input: SendInput, key: Option<string>,
                           uid: Uid)
    ensures IsRowOf(dir, input, SiftEntry(client, dir, sieve, input, key, uid).judged[|sieve.judged|])
  {
    hide Encode, RememberOperator, RememberRoute, RouteKey;
  }

  lemma {:induction false} SiftedAreRowsOf(client: Client, dir: Directory, inputs: seq<SendInput>, key: Option<string>,
                                           uids: nat -> Uid, n: nat)
    requires n <= |inputs|
    ensures var judged := Sift(client, dir, inputs, key, uids, n).judged;
            forall i :: 0 <= i < n ==> IsRowOf(dir, inputs[i], judged[i])
  {
    hide SiftEntry, EntryKey, IsRowOf;
    if n > 0 {
      var sieve := Sift(client, dir, inputs, key, uids, n - 1);
      var judged := Sift(client, dir, inputs, key, uids, n).judged;
      SiftedAreRowsOf(client, dir, inputs, key, uids, n - 1);
      SiftedEntryIsRowOf(client, dir, sieve, inputs[n - 1], EntryKey(key, n - 1), uids(n - 1));
      assert forall i :: 0 <= i < n - 1 ==> judged[i] == judged[..n - 1][i];
    }
  }

  /** An entry of a bulk request, when `row` has the key of its position: unless it is refused by
      itself or as a repetition, it is answered the same way, and no row is written under that
      key. */
  lemma BulkEntryIsAnswered(client: Client, dir: Directory, table: Table, inputs: seq<SendInput>, key: Option<string>,
                            uids: nat -> Uid, i: nat, row: Row)
    requires UniqueKeys(table) && i < |inputs| && IsNamed(EntryKey(key, i)) && row in table
    requires IsUnder(row, client, EntryKey(key, i).value)
    ensures var judged := Sift(client, dir, inputs, key, uids, |inputs|).judged;
            var (after, results) := Bulk(client, dir, table, inputs, key, uids);
            && (judged[i].Fit? ==> IsSendable(dir, inputs[i]) && results[i] == AnswerFor(row, dir, inputs[i]))
            && (judged[i].Unfit? ==> results[i] == Rejected(judged[i].code))
            && table <= after
            && forall r :: r in after[|table|..] ==> !IsUnder(r, client, EntryKey(key, i).value)
  {
    hide Encode, Sift, EntryKey, UniqueKeys;
    var judged := Sift(client, dir, inputs, key, uids, |inputs|).judged;
    var (after, results) := Bulk(client, dir, table, inputs, key, uids);
    SiftedAreKeyed(client, dir, inputs, key, uids, |inputs|);
    SiftedAreRowsOf(client, dir, inputs, key, uids, |inputs|);
    LookupIsUnique(table, client.tenant, EntryKey(key, i).value, row);
    BulkKeepsKeysUnique(client, dir, table, inputs, key, uids);
    forall r | r in after[|table|..] ensures !IsUnder(r, client, EntryKey(key, i).value) {
      if IsUnder(r, client, EntryKey(key, i).value) {
        NotBeforeAndAfter(table, after[|table|..], client.tenant, EntryKey(key, i).value, r);
      }
    }
  }

  /** An entry is refused as a repetition if and only if it could be sent and an earlier entry, which
      was taken, has its number and its text. */
  lemma RepeatIsRefusedIff(client: Client, dir: Directory, table: Table, inputs: seq<SendInput>, key: Option<string>,
                           uids: nat -> Uid, i: nat)
    requires RoutesMayUseMemo(dir, inputs) && i < |inputs|
    ensures var judged := Sift(client, dir, inputs, key, uids, |inputs|).judged;
            Bulk(client, dir, table, inputs, key, uids).1[i] == Rejected(DUPLICATE_RECIPIENT) <==>
              && IsSendable(dir, inputs[i])
              && exists j :: && 0 <= j < i && judged[j].Fit?
                             && dir.e164(inputs[j].to) == dir.e164(inputs[i].to)
                             && dir.bodyHash(inputs[j].message) == dir.bodyHash(inputs[i].message)
  {
    hide Encode, Sift, EntryKey, Judge, Bulk, NewRows, RoutesMayUseMemo;
    var judged := Sift(client, dir, inputs, key, uids, |inputs|).judged;
    BulkAnswers(client, dir, table, inputs, key, uids);
    AnswerIsDuplicateIff(table, judged[i]);
    OwnOrRefused(client, dir, inputs, key, uids, i);
    SiftedAreRowsOf(client, dir, inputs, key, uids, |inputs|);
  }

  // ---- new rows ---------------------------------------------------------------------------------------

  /** The operator the request asks for, if it asks for one: by its code, in lower case. */
  ghost predicate AsksFor(dir: Directory, input: SendInput, operator: Option<OperatorId>) {
    if input.operator.None? || input.operator.value == "" then operator.None?
    else
      var code := dir.lower(input.operator.value);
      code in dir.operators && operator == Some(dir.operators[code])
  }

  /** The device a request names: the tenant's own by its code, or, by its uid, one that is in the pool
      or the tenant's own. */
  ghost predicate NamesDevice(devices: Devices, tenant: TenantId, route: RouteRequest, g: GatewayId) {
    if IsNamed(route.device) then
      && var code := devices.deviceCode(route.device.value);
      && code.Some? && code.value in devices.byCode && devices.byCode[code.value] == g
      && g in devices.assignments && devices.assignments[g] == Owned(tenant)
    else
      && IsNamed(route.gatewayUid)
      && route.gatewayUid.value in devices.byUid && devices.byUid[route.gatewayUid.value] == g
      && g in devices.assignments && (devices.assignments[g].Pool? || devices.assignments[g] == Owned(tenant))
  }

  /** Where a request may go: refused for naming a device twice, for naming one it may not use, for a
      slot without a device or one the device does not have, in this order; else granted as asked. */
  lemma RouteComesTo(devices: Devices, tenant: TenantId, route: RouteRequest)
    ensures var r := Resolve(devices, tenant, route);
            if IsNamed(route.device) && IsNamed(route.gatewayUid) then r == Refused(VALIDATION_FAILED)
            else if !IsNamed(route.device) && !IsNamed(route.gatewayUid) then
              r == if route.slot.Some? then Refused(VALIDATION_FAILED) else Resolved(None, None)
            else if forall g: GatewayId :: !NamesDevice(devices, tenant, route, g) then r == Refused(GATEWAY_NOT_FOUND)
            else exists g: GatewayId :: NamesDevice(devices, tenant, route, g) && r == OnDevice(devices, g, route.slot)
  {
    var named := NamedGateway(devices, tenant, route);
    if named.Some? { assert NamesDevice(devices, tenant, route, named.value); }
  }

  function OnDevice(devices: Devices, g: GatewayId, slot: Option<nat>): Resolution {
    if slot.Some? && (g, slot.value) !in devices.slots then Refused(VALIDATION_FAILED) else Resolved(Some(g), slot)
  }

  /** The key of an entry is that of the request, a colon, and its position in decimal. */
  lemma EntryKeyComesTo(key: Option<string>, index: nat)
    ensures if key.None? || key.value == "" then EntryKey(key, index) == None
            else exists digits: string ::
                   && AmountParser.AllDigits(digits) && AmountParser.Value(digits) == index
                   && EntryKey(key, index) == Some(key.value + ":" + digits)
  {
    assert AmountParser.Value(AmountParser.Print(index)) == index;
  }

  /** A request under a key that is free, or without one: an operator that is not known is refused,
      then a route that is; else one row is written. */
  lemma FreshSendComesTo(client: Client, dir: Directory, table: Table, input: SendInput, key: Option<string>, uid: Uid)
    requires IsSendable(dir, input)
    requires key.Some? ==> forall row :: row in table ==> !IsUnder(row, client, key.value)
    ensures var (after, answer) := Send(client, dir, table, input, key, uid);
            var route := Resolve(dir.devices, client.tenant, input.route);
            if forall operator :: !AsksFor(dir, input, operator) then
              after == table && answer == Rejected(OPERATOR_NOT_FOUND)
            else if route.Refused? then after == table && answer == Rejected(route.code)
            else
              && answer.Accepted? && !answer.duplicate && after == table + [answer.row]
              && IsNewRow(client, dir, input, key, uid, answer.row)
              && AsksFor(dir, input, answer.row.operator)
              && answer.row.gateway == route.gateway && answer.row.slot == route.slot
  {
    hide Encode, Resolve;
    if IsNamed(input.operator) {
      var code := dir.lower(input.operator.value);
      if code in dir.operators { assert AsksFor(dir, input, Some(dir.operators[code])); }
    } else {
      assert AsksFor(dir, input, None);
    }
  }

  /** The columns of a new row that the request and the tenant's settings decide. */
  predicate IsNewRow(client: Client, dir: Directory, input: SendInput, key: Option<string>, uid: Uid, row: Row)
    requires dir.e164(input.to).Some?
  {
    var encoded := Encode(input.message);
    && row.uid == uid && row.tenant == client.tenant && row.apiClient == client.apiClient && row.key == key
    && row.reference == input.reference && row.recipient == input.to && row.e164 == dir.e164(input.to).value
    && row.messageBody == client.storedBody(input.message) && row.dispatchBody == input.message
    && row.bodyHash == dir.bodyHash(input.message)
    && row.segments == encoded.segments && row.encoding == encoded.encoding
    && row.priority == (match input.priority case None => Normal case Some(asked) => asked)
    && row.maxAttempts == client.maxAttempts
    && row.expiresIn == (match input.expiresIn
                         case None => if client.defaultExpiresIn > 0 then Some(client.defaultExpiresIn) else None
                         case Some(asked) => if asked > 0 then Some(asked) else None)
  }

  /** The empty key is no key to the check, but it is one to the index: used before, it makes the
      insert fail without an answer. */
  lemma EmptyKeyIsUsedOnce(client: Client, dir: Directory, table: Table, input: SendInput, uid: Uid, row: Row)
    requires row in table && IsUnder(row, client, "") && JudgeFits(client, dir, input, Some(""), uid)
    ensures Send(client, dir, table, input, Some(""), uid) == (table, Threw)
  {
    hide Encode, Resolve;
  }

  predicate JudgeFits(client: Client, dir: Directory, input: SendInput, key: Option<string>, uid: Uid) {
    Judge(client, dir, input, key, uid).Fit?
  }
}
