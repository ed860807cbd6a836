/** Accepting a bulk request: validated in memory with memo tables, written at once. */
module BulkAcceptance {
  import opened SmsTypes
  import opened MessageEncoder
  import opened RequestedRoute
  import opened SmsAcceptance

  type ContentKey = (Recipient, string)

  /** The loop's state: a judgement per entry so far, and its three maps. */
  datatype Sieve = Sieve(
    judged: seq<Judgement>,
    firsts: map<ContentKey, nat>,
    operators: map<string, Option<OperatorId>>,
    routes: map<string, Resolution>)

  const EMPTY_SIEVE := Sieve([], map[], map[], map[])

  function Content(dir: Directory, input: SendInput): ContentKey
    requires ContentFault(dir, input).None?
  {
    (dir.e164(input.to).value, dir.bodyHash(input.message))
  }

  function RememberOperator(dir: Directory, sieve: Sieve, input: SendInput): (known: Sieve)
    ensures known == sieve.(operators := known.operators)
    ensures IsNamed(input.operator) ==> dir.lower(input.operator.value) in known.operators
  {
    if !IsNamed(input.operator) then sieve
    else
      var code := dir.lower(input.operator.value);
      if code in sieve.operators then sieve
      else sieve.(operators := sieve.operators[code := FindOperator(dir, code)])
  }

  function RememberRoute(client: Client, dir: Directory, sieve: Sieve, input: SendInput): (known: Sieve)
    ensures known == sieve.(routes := known.routes) && RouteKey(input.route) in known.routes
  {
    if RouteKey(input.route) in sieve.routes then sieve
    else sieve.(routes := sieve.routes[RouteKey(input.route) := Resolve(dir.devices, client.tenant, input.route)])
  }

  function Verdict(sieve: Sieve, judgement: Judgement): Sieve {
    sieve.(judged := sieve.judged + [judgement])
  }

  /** An entry with a fresh, valid number and text: its operator and route, from the memos. */
  function SiftRoute(client: Client, dir: Directory, sieve: Sieve, input: SendInput, key: Option<string>, uid: Uid)
    : (next: Sieve)
    requires ContentFault(dir, input).None?
    ensures |next.judged| == |sieve.judged| + 1 && next.judged[..|sieve.judged|] == sieve.judged
  {
    var known := RememberOperator(dir, sieve, input);
    var operator := if IsNamed(input.operator) then known.operators[dir.lower(input.operator.value)] else None;
    if IsNamed(input.operator) && operator.None? then Verdict(known, Unfit(OPERATOR_NOT_FOUND))
    else
      var routed := RememberRoute(client, dir, known, input);
      match routed.routes[RouteKey(input.route)]
      case Refused(code) => Verdict(routed, Unfit(code))
      case Resolved(gateway, slot) =>
        var row := Compose(client, dir, input, dir.e164(input.to).value, operator, gateway, slot, key, uid);
        Verdict(routed.(firsts := routed.firsts[Content(dir, input) := |sieve.judged|]), Fit(row))
  }

  function SiftEntry(client: Client, dir: Directory, sieve: Sieve, input: SendInput, key: Option<string>, uid: Uid)
    : (next: Sieve)
    ensures |next.judged| == |sieve.judged| + 1 && next.judged[..|sieve.judged|] == sieve.judged
  {
    var fault := ContentFault(dir, input);
    if fault.Some? then Verdict(sieve, Unfit(fault.value))
    else if Content(dir, input) in sieve.firsts then Verdict(sieve, Unfit(DUPLICATE_RECIPIENT))
    else SiftRoute(client, dir, sieve, input, key, uid)
  }

  function Sift(client: Client, dir: Directory, inputs: seq<SendInput>, key: Option<string>, uids: nat -> Uid, n: nat)
    : (sieve: Sieve)
    requires n <= |inputs|
    ensures |sieve.judged| == n
  {
    if n == 0 then EMPTY_SIEVE
    else SiftEntry(client, dir, Sift(client, dir, inputs, key, uids, n - 1), inputs[n - 1], EntryKey(key, n - 1),
                   uids(n - 1))
  }

  // ---- writing --------------------------------------------------------------------------

  /** What an entry is answered, given the rows already there. */
  function Answer(table: Table, judgement: Judgement): SendResult {
    match judgement
    case Unfit(code) => Rejected(code)
    case Fit(row) =>
      var found := Lookup(table, row.tenant, row.key);
      if found.Some? then Replay(found.value, row.e164, row.bodyHash) else Accepted(row, false)
  }

  predicate IsNew(table: Table, judgement: Judgement) {
    judgement.Fit? && Lookup(table, judgement.row.tenant, judgement.row.key).None?
  }

  /** The rows that have to be written. */
  function NewRows(table: Table, judged: seq<Judgement>): (rows: Table)
    ensures forall row :: row in rows ==>
              exists i :: 0 <= i < |judged| && IsNew(table, judged[i]) && judged[i].row == row
    ensures forall i :: 0 <= i < |judged| && IsNew(table, judged[i]) ==> judged[i].row in rows
  {
    if judged == [] then []
    else
      var last := judged[|judged| - 1];
      var rows := NewRows(table, judged[..|judged| - 1]);
      if IsNew(table, last) then rows + [last.row] else rows
  }

  /** `sendBulk`, with no other write in between. */
  function Bulk(client: Client, dir: Directory, table: Table, inputs: seq<SendInput>, key: Option<string>,
                uids: nat -> Uid)
    : (r: (Table, seq<SendResult>))
    ensures |r.1| == |inputs|
  {
    var judged := Sift(client, dir, inputs, key, uids, |inputs|).judged;
    (table + NewRows(table, judged), seq(|inputs|, i requires 0 <= i < |inputs| => Answer(table, judged[i])))
  }

  // ---- what the sieve comes to ------------------------------------------------------------

  /** Entries with one key in the route memo may share an answer. */
  ghost predicate RoutesMayUseMemo(dir: Directory, inputs: seq<SendInput>) {
    forall i, j :: 0 <= i < |inputs| && 0 <= j < |inputs| ==>
      MayShareAnswer(dir.devices, inputs[i].route, inputs[j].route)
  }

  /** They may when no name has a pipe, and when a validator lets all of them through and each is
      safe among what it lets through. */
  lemma SafeRoutesMayUseMemo(admits: Validator, dir: Directory, inputs: seq<SendInput>)
    requires || (forall i :: 0 <= i < |inputs| ==> !HasPipe(inputs[i].route))
             || (PipeFreeUids(dir.devices)
                 && forall i :: 0 <= i < |inputs| ==>
                      Admits(admits, inputs[i].route)
                      && MemoSafeAmong(admits, dir.devices.deviceCode, inputs[i].route))
    ensures RoutesMayUseMemo(dir, inputs)
  {
    hide MayShareAnswer, MemoSafeAmong, Admits, PipeFreeUids, HasPipe;
    forall i, j | 0 <= i < |inputs| && 0 <= j < |inputs|
      ensures MayShareAnswer(dir.devices, inputs[i].route, inputs[j].route)
    {
      if !HasPipe(inputs[i].route) {
        PlainNamesMayShare(dir.devices, inputs[i].route, inputs[j].route);
      } else {
        SafeAmongMayShare(admits, dir.devices, inputs[i].route, inputs[j].route);
      }
    }
  }

  ghost predicate FirstsAreRight(dir: Directory, sieve: Sieve, inputs: seq<SendInput>) {
    && |sieve.judged| <= |inputs|
    && (forall c :: c in sieve.firsts ==>
          var j := sieve.firsts[c];
          j < |sieve.judged| && sieve.judged[j].Fit?
          && ContentFault(dir, inputs[j]).None? && Content(dir, inputs[j]) == c)
    && (forall j :: 0 <= j < |sieve.judged| && sieve.judged[j].Fit? ==>
          ContentFault(dir, inputs[j]).None? && Content(dir, inputs[j]) in sieve.firsts)
  }

  ghost predicate OperatorsAreRight(dir: Directory, sieve: Sieve) {
    forall code :: code in sieve.operators ==> sieve.operators[code] == FindOperator(dir, code)
  }

  ghost predicate RoutesAreRight(client: Client, dir: Directory, sieve: Sieve, inputs: seq<SendInput>) {
    forall k :: k in sieve.routes ==>
      exists j :: 0 <= j < |inputs| && RouteKey(inputs[j].route) == k
               && sieve.routes[k] == Resolve(dir.devices, client.tenant, inputs[j].route)
  }

  ghost predicate MemosAreRight(client: Client, dir: Directory, sieve: Sieve, inputs: seq<SendInput>) {
    && FirstsAreRight(dir, sieve, inputs)
    && OperatorsAreRight(dir, sieve)
    && RoutesAreRight(client, dir, sieve, inputs)
  }

  lemma {:induction false} MemosStayRight(client: Client, dir: Directory, inputs: seq<SendInput>, key: Option<string>,
                                          uids: nat -> Uid, n: nat)
    requires n <= |inputs|
    ensures MemosAreRight(client, dir, Sift(client, dir, inputs, key, uids, n), inputs)
  {
    hide SiftEntry, EntryKey, FirstsAreRight, OperatorsAreRight, RoutesAreRight;
    if n == 0 {
      NothingRemembered(client, dir, inputs);
    } else {
      var sieve := Sift(client, dir, inputs, key, uids, n - 1);
      MemosStayRight(client, dir, inputs, key, uids, n - 1);
      EntryKeepsMemos(client, dir, inputs, sieve, EntryKey(key, n - 1), uids(n - 1));
    }
  }

  lemma NothingRemembered(client: Client, dir: Directory, inputs: seq<SendInput>)
    ensures MemosAreRight(client, dir, EMPTY_SIEVE, inputs)
  {
  }

  /** An entry is taken exactly when its content is noted as seen, at its own index; its row
      carries the tenant and the key it was given. */
  ghost predicate IsNoted(client: Client, dir: Directory, sieve: Sieve, next: Sieve, input: SendInput,
                          key: Option<string>) {
    && |next.judged| == |sieve.judged| + 1
    && var last := next.judged[|sieve.judged|];
    && next.judged == sieve.judged + [last]
    && (last.Fit? ==> ContentFault(dir, input).None? && last.row.tenant == client.tenant && last.row.key == key)
    && next.firsts == if last.Fit? then sieve.firsts[Content(dir, input) := |sieve.judged|] else sieve.firsts
  }

  lemma TakenRouteIsNoted(client: Client, dir: Directory, sieve: Sieve, input: SendInput, key: Option<string>, uid: Uid)
    requires ContentFault(dir, input).None?
    ensures IsNoted(client, dir, sieve, SiftRoute(client, dir, sieve, input, key, uid), input, key)
  {
    hide RememberOperator, RememberRoute, IsNamed, RouteKey, Compose, Content, ContentFault;
  }

  lemma TakenEntriesAreNoted(client: Client, dir: Directory, sieve: Sieve, input: SendInput, key: Option<string>,
                             uid: Uid)
    ensures IsNoted(client, dir, sieve, SiftEntry(client, dir, sieve, input, key, uid), input, key)
  {
    hide SiftRoute, Content, ContentFault;
    if ContentFault(dir, input).None? {
      TakenRouteIsNoted(client, dir, sieve, input, key, uid);
    }
  }

  lemma EntryKeepsFirsts(client: Client, dir: Directory, inputs: seq<SendInput>, sieve: Sieve, key: Option<string>,
                         uid: Uid)
    requires |sieve.judged| < |inputs| && FirstsAreRight(dir, sieve, inputs)
    ensures FirstsAreRight(dir, SiftEntry(client, dir, sieve, inputs[|sieve.judged|], key, uid), inputs)
  {
    hide SiftEntry, Content, ContentFault;
    var n := |sieve.judged|;
    TakenEntriesAreNoted(client, dir, sieve, inputs[n], key, uid);
    var next := SiftEntry(client, dir, sieve, inputs[n], key, uid);
    assert forall j :: 0 <= j < n ==> next.judged[j] == sieve.judged[j];
  }

  lemma EntryKeepsOperators(client: Client, dir: Directory, sieve: Sieve, input: SendInput, key: Option<string>,
                            uid: Uid)
    requires OperatorsAreRight(dir, sieve)
    ensures OperatorsAreRight(dir, SiftEntry(client, dir, sieve, input, key, uid))
  {
    hide SiftRoute, Content, ContentFault;
    if ContentFault(dir, input).None? { RouteKeepsOperators(client, dir, sieve, input, key, uid); }
  }

  lemma RouteKeepsOperators(client: Client, dir: Directory, sieve: Sieve, input: SendInput, key: Option<string>,
                            uid: Uid)
    requires OperatorsAreRight(dir, sieve) && ContentFault(dir, input).None?
    ensures OperatorsAreRight(dir, SiftRoute(client, dir, sieve, input, key, uid))
  {
    hide RememberRoute, RouteKey, Compose, FindOperator, Content, ContentFault;
    assert OperatorsAreRight(dir, RememberOperator(dir, sieve, input));
  }

  lemma EntryKeepsRoutes(client: Client, dir: Directory, inputs: seq<SendInput>, sieve: Sieve, key: Option<string>,
                         uid: Uid)
    requires |sieve.judged| < |inputs| && RoutesAreRight(client, dir, sieve, inputs)
    ensures RoutesAreRight(client, dir, SiftEntry(client, dir, sieve, inputs[|sieve.judged|], key, uid), inputs)
  {
    hide Resolve, RouteKey, Encode, Compose, FindOperator, Content, ContentFault;
  }

  lemma EntryKeepsMemos(client: Client, dir: Directory, inputs: seq<SendInput>, sieve: Sieve, key: Option<string>,
                        uid: Uid)
    requires |sieve.judged| < |inputs| && MemosAreRight(client, dir, sieve, inputs)
    ensures MemosAreRight(client, dir, SiftEntry(client, dir, sieve, inputs[|sieve.judged|], key, uid), inputs)
  {
    hide SiftEntry, FirstsAreRight, OperatorsAreRight, RoutesAreRight;
    EntryKeepsFirsts(client, dir, inputs, sieve, key, uid);
    EntryKeepsOperators(client, dir, sieve, inputs[|sieve.judged|], key, uid);
    EntryKeepsRoutes(client, dir, inputs, sieve, key, uid);
  }

  /** The memos agree with direct lookups, for entries that may rely on them. */
  lemma MemosAgreeWithLookups(client: Client, dir: Directory, inputs: seq<SendInput>, sieve: Sieve,
                              key: Option<string>, uid: Uid)
    requires RoutesMayUseMemo(dir, inputs) && |sieve.judged| < |inputs| && MemosAreRight(client, dir, sieve, inputs)
    requires ContentFault(dir, inputs[|sieve.judged|]).None?
    ensures SiftRoute(client, dir, sieve, inputs[|sieve.judged|], key, uid).judged
         == sieve.judged + [JudgeRoute(client, dir, inputs[|sieve.judged|], key, uid)]
  {
    hide Resolve, RouteKey, MayShareAnswer, Encode, Compose, FindOperator, ContentFault, FirstsAreRight;
    var input := inputs[|sieve.judged|];
    var k := RouteKey(input.route);
    if k in sieve.routes {
      var j :| 0 <= j < |inputs| && RouteKey(inputs[j].route) == k
               && sieve.routes[k] == Resolve(dir.devices, client.tenant, inputs[j].route);
      EqualKeysResolveEqually(dir.devices, client.tenant, input.route, inputs[j].route);
    }
  }

  /** Some earlier entry was taken with the same number and text. */
  ghost predicate Repeats(dir: Directory, inputs: seq<SendInput>, judged: seq<Judgement>, i: nat)
    requires i < |inputs| && ContentFault(dir, inputs[i]).None?
  {
    exists j :: 0 <= j < i && j < |judged| && judged[j].Fit? && ContentFault(dir, inputs[j]).None?
             && Content(dir, inputs[j]) == Content(dir, inputs[i])
  }

  /** The judgement of an entry, told from the request alone: its own, unless an earlier entry
      was taken with the same number and text. */
  ghost function OwnJudgement(client: Client, dir: Directory, inputs: seq<SendInput>, key: Option<string>,
                              uids: nat -> Uid, judged: seq<Judgement>, i: nat): Judgement
    requires i < |inputs|
  {
    if ContentFault(dir, inputs[i]).None? && Repeats(dir, inputs, judged, i) then Unfit(DUPLICATE_RECIPIENT)
    else Judge(client, dir, inputs[i], EntryKey(key, i), uids(i))
  }

  lemma SieveJudgesEntry(client: Client, dir: Directory, inputs: seq<SendInput>, key: Option<string>, uids: nat -> Uid,
                         n: nat)
    requires RoutesMayUseMemo(dir, inputs) && n < |inputs|
    ensures var judged := Sift(client, dir, inputs, key, uids, n).judged;
            Sift(client, dir, inputs, key, uids, n + 1).judged
              == judged + [OwnJudgement(client, dir, inputs, key, uids, judged, n)]
  {
    hide JudgeRoute, SiftRoute, OperatorsAreRight, RoutesAreRight;
    var sieve := Sift(client, dir, inputs, key, uids, n);
    MemosStayRight(client, dir, inputs, key, uids, n);
    if ContentFault(dir, inputs[n]).None? {
      var c := Content(dir, inputs[n]);
      assert c in sieve.firsts <==> Repeats(dir, inputs, sieve.judged, n);
      if c !in sieve.firsts {
        MemosAgreeWithLookups(client, dir, inputs, sieve, EntryKey(key, n), uids(n));
      }
    }
  }

  /** Every entry of a bulk request is judged as `send` would judge it on its own, except that
      a repetition of an entry already taken is refused. */
  lemma {:induction false} BulkJudgesEachEntry(client: Client, dir: Directory, inputs: seq<SendInput>,
                                               key: Option<string>, uids: nat -> Uid, n: nat)
    requires RoutesMayUseMemo(dir, inputs) && n <= |inputs|
    ensures var judged := Sift(client, dir, inputs, key, uids, n).judged;
            forall i :: 0 <= i < n ==> judged[i] == OwnJudgement(client, dir, inputs, key, uids, judged, i)
  {
    hide Sift, Judge, ContentFault, Content, OwnJudgement;
    if n > 0 {
      BulkJudgesEachEntry(client, dir, inputs, key, uids, n - 1);
      SieveJudgesEntry(client, dir, inputs, key, uids, n - 1);
      var before := Sift(client, dir, inputs, key, uids, n - 1).judged;
      var judged := Sift(client, dir, inputs, key, uids, n).judged;
      forall i | 0 <= i < n
        ensures OwnJudgement(client, dir, inputs, key, uids, judged, i)
             == OwnJudgement(client, dir, inputs, key, uids, before, i)
      {
        LaterEntriesDoNotMatter(client, dir, inputs, key, uids, before, judged, i);
      }
    }
  }

  lemma LaterEntriesDoNotMatter(client: Client, dir: Directory, inputs: seq<SendInput>, key: Option<string>,
                                uids: nat -> Uid, before: seq<Judgement>, judged: seq<Judgement>, i: nat)
    requires i < |inputs| && i <= |before| && before <= judged
    ensures OwnJudgement(client, dir, inputs, key, uids, judged, i)
         == OwnJudgement(client, dir, inputs, key, uids, before, i)
  {
    hide Judge, ContentFault, Content;
    assert forall j :: 0 <= j < i ==> judged[j] == before[j];
  }
}
