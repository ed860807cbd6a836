/** `sendBulk`, statement by statement: one loop that validates in memory, then at most two
    passes that write. */
module BulkSend {
  import opened SmsTypes
  import opened MessageEncoder
  import opened RequestedRoute
  import opened SmsAcceptance
  import opened BulkAcceptance
  import opened BulkLaws
  import opened SmsService

  /** A fit entry with its position in the request. */
  datatype PendingEntry = PendingEntry(index: nat, row: Row)

  function PendingOf(judged: seq<Judgement>): seq<PendingEntry> {
    if judged == [] then []
    else
      var n := |judged| - 1;
      var pending := PendingOf(judged[..n]);
      if judged[n].Fit? then pending + [PendingEntry(n, judged[n].row)] else pending
  }

  ghost predicate Ascending(pending: seq<PendingEntry>) {
    forall p, q :: 0 <= p < q < |pending| ==> pending[p].index < pending[q].index
  }

  /** The pending entries are the ones taken, in order. */
  lemma {:induction false} PendingAreTheFit(judged: seq<Judgement>)
    ensures var pending := PendingOf(judged);
            && (forall p :: 0 <= p < |pending| ==>
                  pending[p].index < |judged| && judged[pending[p].index] == Fit(pending[p].row))
            && Ascending(pending)
            && (forall i :: 0 <= i < |judged| && judged[i].Fit? ==>
                  exists p :: 0 <= p < |pending| && pending[p].index == i)
  {
    if judged != [] {
      var n := |judged| - 1;
      PendingAreTheFit(judged[..n]);
      var before, pending := PendingOf(judged[..n]), PendingOf(judged);
      assert forall p :: 0 <= p < |before| ==> pending[p] == before[p];
      if judged[n].Fit? { assert pending[|before|].index == n; }
    }
  }

  function StillNew(table: Table, pending: seq<PendingEntry>): seq<PendingEntry> {
    if pending == [] then []
    else
      var last := pending[|pending| - 1];
      var before := StillNew(table, pending[..|pending| - 1]);
      if Lookup(table, last.row.tenant, last.row.key).None? then before + [last] else before
  }

  function RowsOf(pending: seq<PendingEntry>): (rows: Table)
    ensures |rows| == |pending|
  {
    seq(|pending|, i requires 0 <= i < |pending| => pending[i].row)
  }

  lemma {:induction false} StillNewAreTheNewRows(table: Table, judged: seq<Judgement>)
    ensures RowsOf(StillNew(table, PendingOf(judged))) == NewRows(table, judged)
  {
    hide Lookup;
    if judged != [] {
      var n := |judged| - 1;
      StillNewAreTheNewRows(table, judged[..n]);
      if judged[n].Fit? {
        var pending := PendingOf(judged[..n]);
        assert (pending + [PendingEntry(n, judged[n].row)])[..|pending|] == pending;
      }
    }
  }

  lemma {:induction false} StillNewAreNew(table: Table, pending: seq<PendingEntry>)
    ensures forall e :: e in StillNew(table, pending) <==> e in pending && Lookup(table, e.row.tenant, e.row.key).None?
  {
    hide Lookup;
    if pending != [] {
      StillNewAreNew(table, pending[..|pending| - 1]);
      assert pending == pending[..|pending| - 1] + [pending[|pending| - 1]];
    }
  }

  /** What an entry is answered if its key was already used. */
  function ReplayOr(table: Table, row: Row, otherwise: Option<SendResult>): Option<SendResult> {
    var found := Lookup(table, row.tenant, row.key);
    if found.Some? then Some(Replay(found.value, row.e164, row.bodyHash)) else otherwise
  }

  /** Answers the entries whose keys the table knows; what is left is for the insert. */
  method ResolveBulkReplays(inbox: Inbox, pending: seq<PendingEntry>, results: array<Option<SendResult>>)
    returns (remaining: seq<PendingEntry>)
    requires forall p :: 0 <= p < |pending| ==> pending[p].index < results.Length
    requires Ascending(pending)
    modifies results
    ensures remaining == StillNew(inbox.rows, pending)
    ensures forall p :: 0 <= p < |pending| ==>
              results[pending[p].index] == ReplayOr(inbox.rows, pending[p].row, old(results[pending[p].index]))
    ensures forall i :: 0 <= i < results.Length && (forall p :: 0 <= p < |pending| ==> pending[p].index != i) ==>
              results[i] == old(results[i])
  {
    hide Lookup, Replay;
    remaining := [];
    for p := 0 to |pending|
      invariant remaining == StillNew(inbox.rows, pending[..p])
      invariant forall q :: 0 <= q < p ==>
                results[pending[q].index] == ReplayOr(inbox.rows, pending[q].row, old(results[pending[q].index]))
      invariant forall q :: p <= q < |pending| ==> results[pending[q].index] == old(results[pending[q].index])
      invariant forall i :: 0 <= i < results.Length && (forall q :: 0 <= q < |pending| ==> pending[q].index != i) ==>
                results[i] == old(results[i])
    {
      var entry := pending[p];
      assert pending[..p + 1][..p] == pending[..p];
      var found := Lookup(inbox.rows, entry.row.tenant, entry.row.key);
      if found.None? {
        remaining := remaining + [entry];
      } else {
        results[entry.index] := Some(Replay(found.value, entry.row.e164, entry.row.bodyHash));
      }
    }
    assert pending[..|pending|] == pending;
  }

  // ---- one pass -----------------------------------------------------------------------------

  /** A row of `others` holds the key of an entry that was taken. */
  ghost predicate TakesAKey(others: Table, judged: seq<Judgement>) {
    exists o, i :: 0 <= o < |others| && 0 <= i < |judged| && SharesKey(others[o], judged[i])
  }

  ghost predicate SharesKey(other: Row, judgement: Judgement) {
    judgement.Fit? && judgement.row.key.Some? && HasKey(other, judgement.row.tenant, judgement.row.key.value)
  }

  lemma WithoutConflict(table: Table, others: Table, rows: Table)
    requires UniqueKeys(table + others) && UniqueKeys(table + rows)
    requires forall o, i :: 0 <= o < |others| && 0 <= i < |rows| && rows[i].key.Some? ==>
               !HasKey(others[o], rows[i].tenant, rows[i].key.value)
    ensures UniqueKeys(table + others + rows)
  {
    var all, left, right := table + others + rows, table + others, table + rows;
    forall i, j | 0 <= i < j < |all| && all[i].key.Some?
      ensures all[i].tenant != all[j].tenant || all[i].key != all[j].key
    {
      if j < |left| {
        assert left[i] == all[i] && left[j] == all[j];
      } else {
        var r := j - |left|;
        assert all[j] == rows[r] == right[|table| + r];
        if i < |table| {
          assert right[i] == all[i];
        } else if i < |left| {
          assert all[i] == others[i - |table|];
        } else {
          assert all[i] == rows[i - |left|] == right[|table| + i - |left|];
        }
      }
    }
  }

  /** When the insert fails, one of the rows that came in between is to blame. */
  lemma ConflictIsWithOthers(client: Client, key: Option<string>, table: Table, others: Table, judged: seq<Judgement>)
    requires UniqueKeys(table + others) && KeyedByPosition(client, key, judged)
    ensures UniqueKeys(table + others + NewRows(table, judged)) || TakesAKey(others, judged)
  {
    hide UniqueKeys, EntryKey, HasKey;
    var rows := NewRows(table, judged);
    UniqueKeysOfPrefix(table, others);
    NewRowsKeepKeysUnique(client, key, table, judged);
    if !TakesAKey(others, judged) {
      forall o, r | 0 <= o < |others| && 0 <= r < |rows| && rows[r].key.Some?
        ensures !HasKey(others[o], rows[r].tenant, rows[r].key.value)
      {
        assert rows[r] in rows;
        var i :| 0 <= i < |judged| && IsNew(table, judged[i]) && judged[i].row == rows[r];
        assert !SharesKey(others[o], judged[i]);
      }
      WithoutConflict(table, others, rows);
    }
  }

  lemma AnswersSurvive(table: Table, others: Table, judged: seq<Judgement>, i: nat)
    requires i < |judged| && UniqueKeys(table + others) && UniqueKeys(table + others + NewRows(table, judged))
    ensures Answer(table + others, judged[i]) == Answer(table, judged[i])
    ensures IsNew(table + others, judged[i]) <==> IsNew(table, judged[i])
  {
    hide UniqueKeys, NewRows;
    if judged[i].Fit? && judged[i].row.key.Some? {
      var row, rows := judged[i].row, NewRows(table, judged);
      FindKeyInExtension(table, others, row.tenant, row.key.value);
      if IsNew(table, judged[i]) {
        NewRowsHold(table, judged, i);
        KeysOfLaterRowsAreFree(table + others, rows, row);
      }
    }
  }

  lemma KeysOfLaterRowsAreFree(table: Table, rows: Table, row: Row)
    requires UniqueKeys(table + rows) && row in rows
    ensures Lookup(table, row.tenant, row.key).None?
  {
    var r :| 0 <= r < |rows| && rows[r] == row;
    var all := table + rows;
    if row.key.Some? {
      forall other | other in table ensures !HasKey(other, row.tenant, row.key.value) {
        var o :| 0 <= o < |table| && table[o] == other;
        assert all[o] == other && all[|table| + r] == row;
      }
    }
  }

  lemma {:induction false} NewRowsSurvive(table: Table, others: Table, judged: seq<Judgement>)
    requires forall i :: 0 <= i < |judged| ==> (IsNew(table + others, judged[i]) <==> IsNew(table, judged[i]))
    ensures NewRows(table + others, judged) == NewRows(table, judged)
  {
    hide IsNew;
    if judged != [] {
      NewRowsSurvive(table, others, judged[..|judged| - 1]);
    }
  }

  /** If the insert succeeds, what was committed between the check and it did not matter. */
  lemma CommitDidNotMatter(table: Table, others: Table, judged: seq<Judgement>)
    requires UniqueKeys(table + others) && UniqueKeys(table + others + NewRows(table, judged))
    ensures forall i :: 0 <= i < |judged| ==> Answer(table + others, judged[i]) == Answer(table, judged[i])
    ensures NewRows(table + others, judged) == NewRows(table, judged)
  {
    hide UniqueKeys, Answer, IsNew, NewRows;
    forall i | 0 <= i < |judged|
      ensures Answer(table + others, judged[i]) == Answer(table, judged[i])
      ensures IsNew(table + others, judged[i]) <==> IsNew(table, judged[i])
    {
      AnswersSurvive(table, others, judged, i);
    }
    NewRowsSurvive(table, others, judged);
  }

  /** Every entry taken has its answer, and no other cell was touched. */
  ghost predicate Filled(table: Table, judged: seq<Judgement>, before: seq<Option<SendResult>>,
                         after: seq<Option<SendResult>>) {
    && |before| == |after| == |judged|
    && forall i :: 0 <= i < |judged| ==>
          after[i] == if judged[i].Fit? then Some(Answer(table, judged[i])) else before[i]
  }

  /** Reports the entries just written. */
  method ReportWritten(remaining: seq<PendingEntry>, results: array<Option<SendResult>>)
    requires forall p :: 0 <= p < |remaining| ==> remaining[p].index < results.Length
    requires Ascending(remaining)
    modifies results
    ensures forall e :: e in remaining ==> results[e.index] == Some(Accepted(e.row, false))
    ensures forall i :: 0 <= i < results.Length && (forall e :: e in remaining ==> e.index != i) ==>
              results[i] == old(results[i])
  {
    for r := 0 to |remaining|
      invariant forall q :: 0 <= q < r ==> results[remaining[q].index] == Some(Accepted(remaining[q].row, false))
      invariant forall i :: 0 <= i < results.Length && (forall e :: e in remaining ==> e.index != i) ==>
                results[i] == old(results[i])
    {
      results[remaining[r].index] := Some(Accepted(remaining[r].row, false));
    }
  }

  lemma {:induction false} StillNewAscend(table: Table, pending: seq<PendingEntry>)
    requires Ascending(pending)
    ensures Ascending(StillNew(table, pending))
  {
    hide Lookup;
    if pending != [] {
      var n := |pending| - 1;
      StillNewAscend(table, pending[..n]);
      StillNewAreNew(table, pending[..n]);
      var before := StillNew(table, pending[..n]);
      forall p | 0 <= p < |before| ensures before[p].index < pending[n].index {
        assert before[p] in pending[..n];
      }
    }
  }

  /** Replays found, the rest written: every entry taken is answered. */
  lemma PassFills(table: Table, judged: seq<Judgement>, pending: seq<PendingEntry>,
                  before: seq<Option<SendResult>>, found: seq<Option<SendResult>>, after: seq<Option<SendResult>>)
    requires |before| == |found| == |after| == |judged| && pending == PendingOf(judged)
    requires forall e :: e in pending || e in StillNew(table, pending) ==> e.index < |judged|
    requires forall p :: 0 <= p < |pending| ==>
              found[pending[p].index] == ReplayOr(table, pending[p].row, before[pending[p].index])
    requires forall i :: 0 <= i < |found| && (forall p :: 0 <= p < |pending| ==> pending[p].index != i) ==>
              found[i] == before[i]
    requires forall e :: e in StillNew(table, pending) ==> after[e.index] == Some(Accepted(e.row, false))
    requires forall i :: 0 <= i < |after| && (forall e :: e in StillNew(table, pending) ==> e.index != i) ==>
              after[i] == found[i]
    ensures Filled(table, judged, before, after)
  {
    hide Lookup, Replay, PendingOf;
    StillNewAreNew(table, pending);
    PendingAreTheFit(judged);
    forall i | 0 <= i < |judged|
      ensures after[i] == if judged[i].Fit? then Some(Answer(table, judged[i])) else before[i]
    {
      if judged[i].Fit? {
        var p :| 0 <= p < |pending| && pending[p].index == i;
        assert pending[p] in pending;
      }
    }
  }

  /** One pass: find replays, let `others` commit, write the rest. */
  method WritePass(inbox: Inbox, client: Client, key: Option<string>, ghost judged: seq<Judgement>,
                   pending: seq<PendingEntry>, results: array<Option<SendResult>>, others: Table)
    returns (ok: bool)
    requires UniqueKeys(inbox.rows + others)
    requires pending == PendingOf(judged) && results.Length == |judged| && KeyedByPosition(client, key, judged)
    modifies inbox, results
    ensures UniqueKeys(inbox.rows)
    ensures ok ==> inbox.rows == old(inbox.rows) + others + NewRows(old(inbox.rows) + others, judged)
    ensures ok ==> Filled(old(inbox.rows) + others, judged, old(results[..]), results[..])
    ensures !ok ==> inbox.rows == old(inbox.rows) + others && TakesAKey(others, judged)
    ensures forall i :: 0 <= i < |judged| && judged[i].Unfit? ==> results[i] == old(results[i])
  {
    hide UniqueKeys, KeyedByPosition, Lookup, Replay, TakesAKey, EntryKey, Answer, NewRows, StillNew, ReplayOr,
         PendingOf;
    PendingAreTheFit(judged);
    ghost var start, cells := inbox.rows, results[..];
    UniqueKeysOfPrefix(start, others);
    StillNewAreTheNewRows(start, judged);
    StillNewAreNew(start, pending);
    var remaining := ResolveBulkReplays(inbox, pending, results);
    inbox.Commit(others);
    ConflictIsWithOthers(client, key, start, others, judged);
    ok := InsertBulk(inbox, RowsOf(remaining));
    if !ok { return; }
    CommitDidNotMatter(start, others, judged);
    ghost var found := results[..];
    assert forall p :: 0 <= p < |pending| ==> pending[p] in pending;
    StillNewAscend(start, pending);
    ReportWritten(remaining, results);
    PassFills(start, judged, pending, cells, found, results[..]);
    FilledAlike(start, start + others, judged, cells, results[..]);
  }

  lemma FilledAlike(table: Table, table': Table, judged: seq<Judgement>, before: seq<Option<SendResult>>,
                    after: seq<Option<SendResult>>)
    requires Filled(table, judged, before, after)
    requires forall i :: 0 <= i < |judged| ==> Answer(table', judged[i]) == Answer(table, judged[i])
    ensures Filled(table', judged, before, after)
  {
    hide Answer;
  }

  // ---- the whole call -------------------------------------------------------------------------

  /** Every entry refused so far has its result, and nothing else has. */
  ghost predicate RefusalsReported(judged: seq<Judgement>, results: seq<Option<SendResult>>) {
    && |judged| <= |results|
    && (forall i :: 0 <= i < |judged| ==>
          results[i] == if judged[i].Unfit? then Some(Rejected(judged[i].code)) else None)
    && (forall i :: |judged| <= i < |results| ==> results[i] == None)
  }

  lemma PendingAdds(judged: seq<Judgement>, last: Judgement)
    ensures PendingOf(judged + [last])
         == if last.Fit? then PendingOf(judged) + [PendingEntry(|judged|, last.row)] else PendingOf(judged)
  {
    assert (judged + [last])[..|judged|] == judged;
  }

  /** The body of the validating loop: judges one entry and updates the three maps. */
  method JudgeEntry(client: Client, dir: Directory, input: SendInput, key: Option<string>, uid: Uid, index: nat,
                    firsts: map<ContentKey, nat>, operators: map<string, Option<OperatorId>>,
                    routes: map<string, Resolution>,
                    ghost judged: seq<Judgement>)
    returns (judgement: Judgement, firsts': map<ContentKey, nat>, operators': map<string, Option<OperatorId>>,
             routes': map<string, Resolution>)
    requires index == |judged|
    ensures Sieve(judged + [judgement], firsts', operators', routes')
         == SiftEntry(client, dir, Sieve(judged, firsts, operators, routes), input, key, uid)
  {
    hide Encode, Resolve, RouteKey, Compose, FindOperator;
    firsts', operators', routes' := firsts, operators, routes;
    var fault := ContentFault(dir, input);
    if fault.Some? { return Unfit(fault.value), firsts', operators', routes'; }
    var content := Content(dir, input);
    if content in firsts { return Unfit(DUPLICATE_RECIPIENT), firsts', operators', routes'; }
    var operator: Option<OperatorId> := None;
    if IsNamed(input.operator) {
      var code := dir.lower(input.operator.value);
      if code !in operators {
        operators' := operators[code := FindOperator(dir, code)];
      }
      operator := operators'[code];
      if operator.None? { return Unfit(OPERATOR_NOT_FOUND), firsts', operators', routes'; }
    }
    var routeKey := RouteKey(input.route);
    if routeKey !in routes {
      routes' := routes[routeKey := Resolve(dir.devices, client.tenant, input.route)];
    }
    var route := routes'[routeKey];
    if route.Refused? { return Unfit(route.code), firsts', operators', routes'; }
    firsts' := firsts[content := index];
    var e164 := dir.e164(input.to).value;
    judgement := Fit(Compose(client, dir, input, e164, operator, route.gateway, route.slot, key, uid));
  }

  /** The validating loop: refusals go straight to `results`, the rest is left pending. */
  method Validate(client: Client, dir: Directory, inputs: seq<SendInput>, key: Option<string>, uids: nat -> Uid,
                  results: array<Option<SendResult>>)
    returns (pending: seq<PendingEntry>, ghost judged: seq<Judgement>)
    requires results.Length == |inputs| && forall i :: 0 <= i < |inputs| ==> results[i] == None
    modifies results
    ensures judged == Sift(client, dir, inputs, key, uids, |inputs|).judged
    ensures pending == PendingOf(judged) && RefusalsReported(judged, results[..])
  {
    hide SiftEntry, PendingOf, EntryKey;
    pending, judged := [], [];
    NothingPending();
    var firsts: map<ContentKey, nat> := map[];
    var operators: map<string, Option<OperatorId>>, routes: map<string, Resolution> := map[], map[];
    for index := 0 to |inputs|
      invariant Sieve(judged, firsts, operators, routes) == Sift(client, dir, inputs, key, uids, index)
      invariant |judged| == index && pending == PendingOf(judged) && RefusalsReported(judged, results[..])
    {
      var judgement: Judgement;
      judgement, firsts, operators, routes :=
        JudgeEntry(client, dir, inputs[index], EntryKey(key, index), uids(index), index, firsts, operators, routes,
                   judged);
      PendingAdds(judged, judgement);
      judged := judged + [judgement];
      if judgement.Unfit? {
        results[index] := Some(Rejected(judgement.code));
      } else {
        pending := pending + [PendingEntry(index, judgement.row)];
      }
    }
  }

  lemma NothingPending()
    ensures PendingOf([]) == []
  {
  }

  ghost predicate RefusalsStand(judged: seq<Judgement>, results: seq<Option<SendResult>>) {
    && |results| == |judged|
    && forall i :: 0 <= i < |judged| && judged[i].Unfit? ==> results[i] == Some(Rejected(judged[i].code))
  }

  lemma AllFilled(table: Table, judged: seq<Judgement>, before: seq<Option<SendResult>>, after: seq<Option<SendResult>>)
    requires RefusalsStand(judged, before) && Filled(table, judged, before, after)
    ensures forall i :: 0 <= i < |judged| ==> after[i] == Some(Answer(table, judged[i]))
  {
    hide Replay, Lookup;
  }

  lemma ReportedStand(judged: seq<Judgement>, results: seq<Option<SendResult>>)
    requires RefusalsReported(judged, results) && |results| == |judged|
    ensures RefusalsStand(judged, results)
  {
  }

  lemma KeylessNeverConflict(client: Client, key: Option<string>, others: Table, judged: seq<Judgement>)
    requires !IsNamed(key) && KeyedByPosition(client, key, judged)
    ensures !TakesAKey(others, judged)
  {
  }

  /** Pass by pass, the way `sendBulk` retries once after losing a key to another request. */
  method WriteBulk(inbox: Inbox, client: Client, key: Option<string>, ghost judged: seq<Judgement>,
                   pending: seq<PendingEntry>, results: array<Option<SendResult>>, others: nat -> Table)
    returns (ok: bool, ghost committed: Table)
    requires UniqueKeys(inbox.rows + others(0) + others(1))
    requires pending == PendingOf(judged) && KeyedByPosition(client, key, judged) && RefusalsStand(judged, results[..])
    modifies inbox, results
    ensures UniqueKeys(inbox.rows)
    ensures committed == others(0) || committed == others(0) + others(1)
    ensures ok ==> inbox.rows == old(inbox.rows) + committed + NewRows(old(inbox.rows) + committed, judged)
    ensures results.Length == |judged|
    ensures ok ==> forall i :: 0 <= i < |judged| ==> results[i] == Some(Answer(old(inbox.rows) + committed, judged[i]))
    ensures !ok ==> IsNamed(key) && TakesAKey(others(1), judged)
    ensures !ok ==> inbox.rows == old(inbox.rows) + others(0) + others(1)
    ensures !TakesAKey(others(0), judged) ==> ok && committed == others(0)
  {
    hide Answer, NewRows, UniqueKeys, KeyedByPosition, TakesAKey, Filled, PendingOf, EntryKey;
    ghost var start, cells := inbox.rows, results[..];
    UniqueKeysOfPrefix(start + others(0), others(1));
    committed := others(0);
    ok := WritePass(inbox, client, key, judged, pending, results, others(0));
    if ok {
      AllFilled(start + others(0), judged, cells, results[..]);
      return;
    }
    if !IsNamed(key) {
      KeylessNeverConflict(client, key, others(0), judged);
      return;
    }
    cells := results[..];
    committed := others(0) + others(1);
    assert start + committed == start + others(0) + others(1);
    ok := WritePass(inbox, client, key, judged, pending, results, others(1));
    if ok {
      AllFilled(start + committed, judged, cells, results[..]);
    }
  }

  /** `sendBulk`, while `others(0)` commit during its first pass and, if that fails, `others(1)`
      during its second. It answers as if the whole request ran at one moment, after what was
      committed before its insert, and every entry has its result; it fails only if the second
      pass loses a key as well. */
  method SendBulk(inbox: Inbox, client: Client, dir: Directory, inputs: seq<SendInput>, key: Option<string>,
                  uids: nat -> Uid, others: nat -> Table)
    returns (ok: bool, results: array<Option<SendResult>>, ghost committed: Table)
    requires UniqueKeys(inbox.rows + others(0) + others(1))
    modifies inbox
    ensures UniqueKeys(inbox.rows) && fresh(results) && results.Length == |inputs|
    ensures committed == others(0) || committed == others(0) + others(1)
    ensures ok ==> var (after, answers) := Bulk(client, dir, old(inbox.rows) + committed, inputs, key, uids);
                   inbox.rows == after && forall i :: 0 <= i < |inputs| ==> results[i] == Some(answers[i])
    ensures !ok ==> IsNamed(key) && TakesAKey(others(1), Sift(client, dir, inputs, key, uids, |inputs|).judged)
    ensures !ok ==> inbox.rows == old(inbox.rows) + others(0) + others(1)
    ensures !TakesAKey(others(0), Sift(client, dir, inputs, key, uids, |inputs|).judged) ==>
              ok && committed == others(0)
  {
    hide Sift, Answer, NewRows, UniqueKeys, KeyedByPosition, TakesAKey, RefusalsReported, RefusalsStand, PendingOf,
         Bulk;
    results := new Option<SendResult>[|inputs|](_ => None);
    var pending;
    ghost var judged;
    pending, judged := Validate(client, dir, inputs, key, uids, results);
    SiftedAreKeyed(client, dir, inputs, key, uids, |inputs|);
    ReportedStand(judged, results[..]);
    BulkAnswers(client, dir, inbox.rows + others(0), inputs, key, uids);
    BulkAnswers(client, dir, inbox.rows + (others(0) + others(1)), inputs, key, uids);
    ok, committed := WriteBulk(inbox, client, key, judged, pending, results, others);
  }
}
