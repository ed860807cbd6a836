/** Bulk acceptance against the simple send: when the two agree, and what a retried request
    comes to. */
module BulkLaws {
  import opened SmsTypes
  import opened MessageEncoder
  import opened RequestedRoute
  import opened SmsAcceptance
  import opened BulkAcceptance

  // ---- keys -------------------------------------------------------------------------------

  /** Every entry taken carries the key of its own position. */
  ghost predicate KeyedByPosition(client: Client, key: Option<string>, judged: seq<Judgement>) {
    forall i :: 0 <= i < |judged| && judged[i].Fit? ==>
      judged[i].row.tenant == client.tenant && judged[i].row.key == EntryKey(key, i)
  }

  lemma JudgedRow(client: Client, dir: Directory, input: SendInput, key: Option<string>, uid: Uid)
    ensures var judgement := Judge(client, dir, input, key, uid);
            judgement.Fit? ==>
              && judgement.row.tenant == client.tenant && judgement.row.key == key
              && ContentFault(dir, input).None?
              && (judgement.row.e164, judgement.row.bodyHash) == Content(dir, input)
    ensures Judge(client, dir, input, key, uid) != Unfit(DUPLICATE_RECIPIENT)
  {
    hide Encode;
  }

  lemma {:induction false} SiftedAreKeyed(client: Client, dir: Directory, inputs: seq<SendInput>, key: Option<string>,
                                          uids: nat -> Uid, n: nat)
    requires n <= |inputs|
    ensures KeyedByPosition(client, key, Sift(client, dir, inputs, key, uids, n).judged)
  {
    hide SiftEntry, EntryKey;
    if n > 0 {
      SiftedAreKeyed(client, dir, inputs, key, uids, n - 1);
      TakenEntriesAreNoted(client, dir, Sift(client, dir, inputs, key, uids, n - 1), inputs[n - 1],
                           EntryKey(key, n - 1), uids(n - 1));
    }
  }

  /** The rows written for earlier entries never hold a later entry's key. */
  lemma EarlierRowsLeaveKeyFree(client: Client, key: Option<string>, table: Table, judged: seq<Judgement>, n: nat)
    requires KeyedByPosition(client, key, judged) && n >= |judged|
    ensures Lookup(table + NewRows(table, judged), client.tenant, EntryKey(key, n)).None?
       <==> Lookup(table, client.tenant, EntryKey(key, n)).None?
  {
    hide EntryKey;
    if EntryKey(key, n).Some? {
      var k := EntryKey(key, n).value;
      var rows := NewRows(table, judged);
      forall row | row in rows ensures !HasKey(row, client.tenant, k) {
        var i :| 0 <= i < |judged| && IsNew(table, judged[i]) && judged[i].row == row;
        assert EntryKey(key, i) == EntryKey(key, n) ==> false by {
          if EntryKey(key, i) == EntryKey(key, n) { EntryKeysAreInjective(key, i, key, n); }
        }
      }
      assert forall row :: row in table + rows <==> row in table || row in rows;
    }
  }

  lemma {:induction false} NewRowsKeepKeysUnique(client: Client, key: Option<string>, table: Table,
                                                 judged: seq<Judgement>)
    requires UniqueKeys(table) && KeyedByPosition(client, key, judged)
    ensures UniqueKeys(table + NewRows(table, judged))
  {
    hide UniqueKeys, EntryKey;
    if judged == [] {
      assert table + [] == table;
    } else {
      var n := |judged| - 1;
      var rows := NewRows(table, judged[..n]);
      assert KeyedByPosition(client, key, judged[..n]);
      NewRowsKeepKeysUnique(client, key, table, judged[..n]);
      if IsNew(table, judged[n]) {
        EarlierRowsLeaveKeyFree(client, key, table, judged[..n], n);
        RowFitsIff(table + rows, judged[n].row);
        assert table + (rows + [judged[n].row]) == table + rows + [judged[n].row];
      }
    }
  }

  /** A bulk request can always be written: its rows fit the unique index. */
  lemma BulkKeepsKeysUnique(client: Client, dir: Directory, table: Table, inputs: seq<SendInput>, key: Option<string>,
                            uids: nat -> Uid)
    requires UniqueKeys(table)
    ensures UniqueKeys(Bulk(client, dir, table, inputs, key, uids).0)
  {
    hide Sift, UniqueKeys;
    SiftedAreKeyed(client, dir, inputs, key, uids, |inputs|);
    NewRowsKeepKeysUnique(client, key, table, Sift(client, dir, inputs, key, uids, |inputs|).judged);
  }

  // ---- bulk against batch -------------------------------------------------------------------

  /** None of the keys the request derives is in use. */
  ghost predicate KeysUnused(client: Client, table: Table, key: Option<string>, n: nat) {
    forall i :: 0 <= i < n ==> Lookup(table, client.tenant, EntryKey(key, i)).None?
  }

  /** What `send` would judge, entry by entry. */
  function Judgements(client: Client, dir: Directory, inputs: seq<SendInput>, key: Option<string>, uids: nat -> Uid,
                      n: nat): seq<Judgement>
    requires n <= |inputs|
  {
    seq(n, i requires 0 <= i < n => Judge(client, dir, inputs[i], EntryKey(key, i), uids(i)))
  }

  lemma JudgementsAreKeyed(client: Client, dir: Directory, inputs: seq<SendInput>, key: Option<string>,
                           uids: nat -> Uid, n: nat)
    requires n <= |inputs|
    ensures KeyedByPosition(client, key, Judgements(client, dir, inputs, key, uids, n))
  {
    hide Judge, EntryKey;
    forall i | 0 <= i < n { JudgedRow(client, dir, inputs[i], EntryKey(key, i), uids(i)); }
  }

  /** With a free key, a send does what its judgement says. */
  lemma SendFollowsJudgement(client: Client, dir: Directory, table: Table, input: SendInput, key: Option<string>,
                             uid: Uid)
    requires Lookup(table, client.tenant, key).None?
    ensures Send(client, dir, table, input, key, uid)
         == match Judge(client, dir, input, key, uid)
            case Unfit(code) => (table, Rejected(code))
            case Fit(row) => (table + [row], Accepted(row, false))
  {
    hide Encode, Resolve;
  }

  lemma FreeKeyIsAnswered(table: Table, judged: seq<Judgement>, last: Judgement)
    requires last.Fit? ==> Lookup(table, last.row.tenant, last.row.key).None?
    ensures Answer(table, last) == if last.Fit? then Accepted(last.row, false) else Rejected(last.code)
    ensures table + NewRows(table, judged + [last])
         == if last.Fit? then table + NewRows(table, judged) + [last.row] else table + NewRows(table, judged)
  {
    hide Lookup;
    assert (judged + [last])[..|judged|] == judged;
  }

  /** The next send of a batch, after the rows of the entries before it. */
  lemma NextSend(client: Client, dir: Directory, table: Table, inputs: seq<SendInput>, key: Option<string>,
                 uids: nat -> Uid, n: nat)
    requires n < |inputs| && KeysUnused(client, table, key, |inputs|)
    ensures var judged := Judgements(client, dir, inputs, key, uids, n);
            var last := Judge(client, dir, inputs[n], EntryKey(key, n), uids(n));
            Send(client, dir, table + NewRows(table, judged), inputs[n], EntryKey(key, n), uids(n))
              == (table + NewRows(table, judged + [last]), Answer(table, last))
  {
    hide Send, Judge, EntryKey, Lookup, NewRows, IsNew, Answer, KeyedByPosition;
    var k, judged := EntryKey(key, n), Judgements(client, dir, inputs, key, uids, n);
    JudgementsAreKeyed(client, dir, inputs, key, uids, n);
    JudgedRow(client, dir, inputs[n], k, uids(n));
    EarlierRowsLeaveKeyFree(client, key, table, judged, n);
    SendFollowsJudgement(client, dir, table + NewRows(table, judged), inputs[n], k, uids(n));
    assert Lookup(table, client.tenant, k).None?;
    FreeKeyIsAnswered(table, judged, Judge(client, dir, inputs[n], k, uids(n)));
  }

  /** A table and results that are what a list of judgements comes to. */
  ghost predicate Follows(table: Table, judged: seq<Judgement>, after: Table, results: seq<SendResult>) {
    && after == table + NewRows(table, judged)
    && |results| == |judged| && forall i :: 0 <= i < |judged| ==> results[i] == Answer(table, judged[i])
  }

  lemma FollowsOneMore(table: Table, judged: seq<Judgement>, results: seq<SendResult>, last: Judgement)
    requires Follows(table, judged, table + NewRows(table, judged), results)
    ensures Follows(table, judged + [last], table + NewRows(table, judged + [last]), results + [Answer(table, last)])
  {
    hide Answer, NewRows;
  }

  lemma {:induction false} BatchFollowsJudgements(client: Client, dir: Directory, table: Table, inputs: seq<SendInput>,
                                                  key: Option<string>, uids: nat -> Uid, n: nat)
    requires n <= |inputs| && KeysUnused(client, table, key, |inputs|)
    ensures var r := Batch(client, dir, table, inputs, key, uids, n);
            Follows(table, Judgements(client, dir, inputs, key, uids, n), r.0, r.1)
  {
    hide Send, Judge, EntryKey, KeysUnused, NewRows, Answer, Follows;
    if n == 0 {
      NothingFollows(table);
      assert Judgements(client, dir, inputs, key, uids, n) == [];
      assert Batch(client, dir, table, inputs, key, uids, n) == (table, []);
    } else {
      hide Batch, Judgements;
      var judged := Judgements(client, dir, inputs, key, uids, n - 1);
      var last := Judge(client, dir, inputs[n - 1], EntryKey(key, n - 1), uids(n - 1));
      var r := Batch(client, dir, table, inputs, key, uids, n - 1);
      BatchFollowsJudgements(client, dir, table, inputs, key, uids, n - 1);
      assert r.0 == table + NewRows(table, judged) by { FollowsMeans(table, judged, r.0, r.1); }
      NextSend(client, dir, table, inputs, key, uids, n - 1);
      FollowsOneMore(table, judged, r.1, last);
      BatchUnfolds(client, dir, table, inputs, key, uids, n);
    }
  }

  lemma BatchUnfolds(client: Client, dir: Directory, table: Table, inputs: seq<SendInput>, key: Option<string>,
                     uids: nat -> Uid, n: nat)
    requires 0 < n <= |inputs|
    ensures var r := Batch(client, dir, table, inputs, key, uids, n - 1);
            var sent := Send(client, dir, r.0, inputs[n - 1], EntryKey(key, n - 1), uids(n - 1));
            Batch(client, dir, table, inputs, key, uids, n) == (sent.0, r.1 + [sent.1])
    ensures Judgements(client, dir, inputs, key, uids, n)
         == Judgements(client, dir, inputs, key, uids, n - 1)
            + [Judge(client, dir, inputs[n - 1], EntryKey(key, n - 1), uids(n - 1))]
  {
    hide Send, Judge, EntryKey;
  }

  lemma FollowsMeans(table: Table, judged: seq<Judgement>, after: Table, results: seq<SendResult>)
    requires Follows(table, judged, after, results)
    ensures after == table + NewRows(table, judged)
  {
  }

  lemma NothingFollows(table: Table)
    ensures Follows(table, [], table, [])
  {
    assert table + [] == table;
  }

  /** Two entries, the first of them sendable, with the same number and text. */
  ghost predicate HasRepeat(client: Client, dir: Directory, inputs: seq<SendInput>) {
    exists j, i :: 0 <= j < i < |inputs| && IsRepeat(client, dir, inputs[j], inputs[i])
  }

  ghost predicate IsRepeat(client: Client, dir: Directory, first: SendInput, second: SendInput) {
    && Judge(client, dir, first, None, 0).Fit?
    && ContentFault(dir, first).None? && ContentFault(dir, second).None? && Content(dir, first) == Content(dir, second)
  }

  lemma FitnessIgnoresKey(client: Client, dir: Directory, input: SendInput, key: Option<string>, uid: Uid)
    ensures Judge(client, dir, input, key, uid).Fit? <==> Judge(client, dir, input, None, 0).Fit?
  {
    hide Encode, Resolve;
  }

  lemma BulkAnswers(client: Client, dir: Directory, table: Table, inputs: seq<SendInput>, key: Option<string>,
                    uids: nat -> Uid)
    ensures var judged := Sift(client, dir, inputs, key, uids, |inputs|).judged;
            var (after, results) := Bulk(client, dir, table, inputs, key, uids);
            && after == table + NewRows(table, judged)
            && forall i :: 0 <= i < |inputs| ==> results[i] == Answer(table, judged[i])
  {
  }

  lemma AnswerIsDuplicateIff(table: Table, judgement: Judgement)
    ensures Answer(table, judgement) == Rejected(DUPLICATE_RECIPIENT) <==> judgement == Unfit(DUPLICATE_RECIPIENT)
  {
  }

  /** An entry's judgement is refusal as a repetition, or else its own. */
  lemma OwnOrRefused(client: Client, dir: Directory, inputs: seq<SendInput>, key: Option<string>, uids: nat -> Uid,
                     i: nat)
    requires RoutesMayUseMemo(dir, inputs) && i < |inputs|
    ensures var judged := Sift(client, dir, inputs, key, uids, |inputs|).judged;
            var own := Judge(client, dir, inputs[i], EntryKey(key, i), uids(i));
            && own != Unfit(DUPLICATE_RECIPIENT)
            && (judged[i] == Unfit(DUPLICATE_RECIPIENT)
                <==> ContentFault(dir, inputs[i]).None? && Repeats(dir, inputs, judged, i))
            && (judged[i] != Unfit(DUPLICATE_RECIPIENT) ==> judged[i] == own)
  {
    hide Sift, Judge, ContentFault, Repeats, EntryKey;
    BulkJudgesEachEntry(client, dir, inputs, key, uids, |inputs|);
    JudgedRow(client, dir, inputs[i], EntryKey(key, i), uids(i));
  }

  /** Bulk and batch differ only on repetitions: every other entry is answered the same. */
  lemma BulkDiffersOnlyOnRepeats(client: Client, dir: Directory, table: Table, inputs: seq<SendInput>,
                                 key: Option<string>, uids: nat -> Uid, i: nat)
    requires RoutesMayUseMemo(dir, inputs) && KeysUnused(client, table, key, |inputs|) && i < |inputs|
    ensures var judged := Sift(client, dir, inputs, key, uids, |inputs|).judged;
            var bulk := Bulk(client, dir, table, inputs, key, uids).1;
            var batch := Batch(client, dir, table, inputs, key, uids, |inputs|).1;
            && (bulk[i] != batch[i] <==> bulk[i] == Rejected(DUPLICATE_RECIPIENT))
            && (bulk[i] == Rejected(DUPLICATE_RECIPIENT)
                <==> ContentFault(dir, inputs[i]).None? && Repeats(dir, inputs, judged, i))
  {
    hide Sift, Judge, ContentFault, Batch, EntryKey, Repeats, KeysUnused, RoutesMayUseMemo, Answer, Bulk, NewRows;
    var judged := Sift(client, dir, inputs, key, uids, |inputs|).judged;
    BulkAnswers(client, dir, table, inputs, key, uids);
    BatchFollowsJudgements(client, dir, table, inputs, key, uids, |inputs|);
    OwnOrRefused(client, dir, inputs, key, uids, i);
    AnswerIsDuplicateIff(table, judged[i]);
    AnswerIsDuplicateIff(table, Judge(client, dir, inputs[i], EntryKey(key, i), uids(i)));
  }

  lemma RepeatsAreRefused(client: Client, dir: Directory, inputs: seq<SendInput>, key: Option<string>,
                          uids: nat -> Uid, j: nat, i: nat)
    requires RoutesMayUseMemo(dir, inputs) && j < i < |inputs| && IsRepeat(client, dir, inputs[j], inputs[i])
    ensures var judged := Sift(client, dir, inputs, key, uids, |inputs|).judged;
            judged[j] == Unfit(DUPLICATE_RECIPIENT) || judged[i] == Unfit(DUPLICATE_RECIPIENT)
  {
    hide Sift, Judge, ContentFault, Content, EntryKey, RoutesMayUseMemo;
    OwnOrRefused(client, dir, inputs, key, uids, j);
    OwnOrRefused(client, dir, inputs, key, uids, i);
    FitnessIgnoresKey(client, dir, inputs[j], EntryKey(key, j), uids(j));
  }

  lemma RefusalsAreRepeats(client: Client, dir: Directory, inputs: seq<SendInput>, key: Option<string>,
                           uids: nat -> Uid, i: nat)
    requires RoutesMayUseMemo(dir, inputs) && i < |inputs|
    requires Sift(client, dir, inputs, key, uids, |inputs|).judged[i] == Unfit(DUPLICATE_RECIPIENT)
    ensures HasRepeat(client, dir, inputs)
  {
    hide Sift, Judge, ContentFault, Content, EntryKey, RoutesMayUseMemo;
    var judged := Sift(client, dir, inputs, key, uids, |inputs|).judged;
    OwnOrRefused(client, dir, inputs, key, uids, i);
    var j :| 0 <= j < i && j < |judged| && judged[j].Fit? && ContentFault(dir, inputs[j]).None?
             && Content(dir, inputs[j]) == Content(dir, inputs[i]);
    OwnOrRefused(client, dir, inputs, key, uids, j);
    FitnessIgnoresKey(client, dir, inputs[j], EntryKey(key, j), uids(j));
    assert IsRepeat(client, dir, inputs[j], inputs[i]);
  }

  /** A request has a repetition if and only if bulk refuses one. */
  lemma RepeatsAreRefusedIff(client: Client, dir: Directory, inputs: seq<SendInput>, key: Option<string>,
                             uids: nat -> Uid)
    requires RoutesMayUseMemo(dir, inputs)
    ensures var judged := Sift(client, dir, inputs, key, uids, |inputs|).judged;
            (HasRepeat(client, dir, inputs)
             <==> exists i :: 0 <= i < |inputs| && judged[i] == Unfit(DUPLICATE_RECIPIENT))
  {
    hide Sift, IsRepeat, RoutesMayUseMemo;
    var judged := Sift(client, dir, inputs, key, uids, |inputs|).judged;
    if HasRepeat(client, dir, inputs) {
      var j, i :| 0 <= j < i < |inputs| && IsRepeat(client, dir, inputs[j], inputs[i]);
      RepeatsAreRefused(client, dir, inputs, key, uids, j, i);
    }
    if i :| 0 <= i < |inputs| && judged[i] == Unfit(DUPLICATE_RECIPIENT) {
      RefusalsAreRepeats(client, dir, inputs, key, uids, i);
    }
  }

  lemma WithoutRepeatsAllJudgedAlone(client: Client, dir: Directory, inputs: seq<SendInput>, key: Option<string>,
                                     uids: nat -> Uid)
    requires RoutesMayUseMemo(dir, inputs) && !HasRepeat(client, dir, inputs)
    ensures Sift(client, dir, inputs, key, uids, |inputs|).judged
         == Judgements(client, dir, inputs, key, uids, |inputs|)
  {
    hide Sift, Judge, ContentFault, EntryKey, HasRepeat, RoutesMayUseMemo, Repeats, Judgements;
    var judged := Sift(client, dir, inputs, key, uids, |inputs|).judged;
    var own := Judgements(client, dir, inputs, key, uids, |inputs|);
    RepeatsAreRefusedIff(client, dir, inputs, key, uids);
    JudgementsAt(client, dir, inputs, key, uids);
    forall i | 0 <= i < |inputs| ensures judged[i] == own[i] {
      OwnOrRefused(client, dir, inputs, key, uids, i);
    }
  }

  lemma JudgementsAt(client: Client, dir: Directory, inputs: seq<SendInput>, key: Option<string>, uids: nat -> Uid)
    ensures var own := Judgements(client, dir, inputs, key, uids, |inputs|);
            |own| == |inputs| && forall i :: 0 <= i < |own| ==>
                  own[i] == Judge(client, dir, inputs[i], EntryKey(key, i), uids(i))
  {
    hide Judge, EntryKey;
  }

  lemma BulkFollowsItsSieve(client: Client, dir: Directory, table: Table, inputs: seq<SendInput>, key: Option<string>,
                            uids: nat -> Uid)
    ensures var r := Bulk(client, dir, table, inputs, key, uids);
            Follows(table, Sift(client, dir, inputs, key, uids, |inputs|).judged, r.0, r.1)
  {
    hide Sift, Answer, NewRows;
  }

  lemma FollowingIsUnique(table: Table, judged: seq<Judgement>, after: Table, results: seq<SendResult>, after': Table,
                          results': seq<SendResult>)
    requires Follows(table, judged, after, results) && Follows(table, judged, after', results')
    ensures after == after' && results == results'
  {
    hide Answer, NewRows;
  }

  /** Bulk refines batch: with unused keys, for entries that may rely on the memos, it writes the same rows
      and answers every entry alike if and only if the request repeats no sendable entry. */
  lemma BulkMatchesBatchIff(client: Client, dir: Directory, table: Table, inputs: seq<SendInput>, key: Option<string>,
                            uids: nat -> Uid)
    requires RoutesMayUseMemo(dir, inputs) && KeysUnused(client, table, key, |inputs|)
    ensures Bulk(client, dir, table, inputs, key, uids) == Batch(client, dir, table, inputs, key, uids, |inputs|)
       <==> !HasRepeat(client, dir, inputs)
  {
    hide Sift, Bulk, Batch, ContentFault, HasRepeat, KeysUnused, RoutesMayUseMemo, Repeats, Answer, Follows, Judgements;
    var judged := Sift(client, dir, inputs, key, uids, |inputs|).judged;
    var bulk := Bulk(client, dir, table, inputs, key, uids);
    var batch := Batch(client, dir, table, inputs, key, uids, |inputs|);
    if HasRepeat(client, dir, inputs) {
      RepeatsAreRefusedIff(client, dir, inputs, key, uids);
      var i :| 0 <= i < |inputs| && judged[i] == Unfit(DUPLICATE_RECIPIENT);
      BulkAnswers(client, dir, table, inputs, key, uids);
      AnswerIsDuplicateIff(table, judged[i]);
      BulkDiffersOnlyOnRepeats(client, dir, table, inputs, key, uids, i);
      assert bulk.1[i] != batch.1[i];
    } else {
      WithoutRepeatsAllJudgedAlone(client, dir, inputs, key, uids);
      BulkFollowsItsSieve(client, dir, table, inputs, key, uids);
      BatchFollowsJudgements(client, dir, table, inputs, key, uids, |inputs|);
      FollowingIsUnique(table, judged, bulk.0, bulk.1, batch.0, batch.1);
    }
  }

  // ---- a request sent again -----------------------------------------------------------------

  ghost predicate SameButUid(a: Judgement, b: Judgement) {
    if a.Fit? then b.Fit? && b.row.(uid := a.row.uid) == a.row else a == b
  }

  lemma MemosIgnoreJudgements(client: Client, dir: Directory, a: Sieve, b: Sieve, input: SendInput)
    requires b == a.(judged := b.judged)
    ensures RememberOperator(dir, b, input) == RememberOperator(dir, a, input).(judged := b.judged)
    ensures RememberRoute(client, dir, b, input) == RememberRoute(client, dir, a, input).(judged := b.judged)
  {
    hide Resolve, RouteKey, FindOperator;
  }

  lemma SiftRouteIgnoresUid(client: Client, dir: Directory, a: Sieve, b: Sieve, input: SendInput, key: Option<string>,
                            uid: Uid, uid': Uid)
    requires |a.judged| == |b.judged| && b == a.(judged := b.judged) && ContentFault(dir, input).None?
    ensures var a', b' := SiftRoute(client, dir, a, input, key, uid), SiftRoute(client, dir, b, input, key, uid');
            && b' == a'.(judged := b'.judged)
            && a'.judged == a.judged + [a'.judged[|a.judged|]] && b'.judged == b.judged + [b'.judged[|b.judged|]]
            && SameButUid(a'.judged[|a.judged|], b'.judged[|b.judged|])
  {
    hide RememberOperator, RememberRoute, RouteKey, Encode, Content, ContentFault, IsNamed;
    MemosIgnoreJudgements(client, dir, a, b, input);
    MemosIgnoreJudgements(client, dir, RememberOperator(dir, a, input), RememberOperator(dir, b, input), input);
  }

  lemma SiftEntryIgnoresUid(client: Client, dir: Directory, a: Sieve, b: Sieve, input: SendInput, key: Option<string>,
                            uid: Uid, uid': Uid)
    requires |a.judged| == |b.judged| && b == a.(judged := b.judged)
    ensures var a', b' := SiftEntry(client, dir, a, input, key, uid), SiftEntry(client, dir, b, input, key, uid');
            && b' == a'.(judged := b'.judged)
            && a'.judged == a.judged + [a'.judged[|a.judged|]] && b'.judged == b.judged + [b'.judged[|b.judged|]]
            && SameButUid(a'.judged[|a.judged|], b'.judged[|b.judged|])
  {
    hide SiftRoute, Content, ContentFault;
    if ContentFault(dir, input).None? {
      SiftRouteIgnoresUid(client, dir, a, b, input, key, uid, uid');
    }
  }

  lemma {:induction false} SiftIgnoresUids(client: Client, dir: Directory, inputs: seq<SendInput>, key: Option<string>,
                                           uids: nat -> Uid, uids': nat -> Uid, n: nat)
    requires n <= |inputs|
    ensures var a, b := Sift(client, dir, inputs, key, uids, n), Sift(client, dir, inputs, key, uids', n);
            b == a.(judged := b.judged) && forall i :: 0 <= i < n ==> SameButUid(a.judged[i], b.judged[i])
  {
    hide SiftEntry, EntryKey;
    if n > 0 {
      SiftIgnoresUids(client, dir, inputs, key, uids, uids', n - 1);
      SiftEntryIgnoresUid(client, dir, Sift(client, dir, inputs, key, uids, n - 1),
                          Sift(client, dir, inputs, key, uids', n - 1),
                          inputs[n - 1], EntryKey(key, n - 1), uids(n - 1), uids'(n - 1));
    }
  }

  /** The answer to an entry of a repeated request: the first one's, as a duplicate. */
  function Repeated(first: SendResult): SendResult {
    if first.Accepted? then Accepted(first.row, true) else first
  }

  lemma ReplayedEntry(table: Table, more: Table, written: Table, judgement: Judgement, again: Judgement)
    requires SameButUid(judgement, again) && UniqueKeys(table + written + more)
    requires judgement.Fit? ==> judgement.row.key.Some?
    requires IsNew(table, judgement) ==> judgement.row in written
    ensures Answer(table + written + more, again) == Repeated(Answer(table, judgement))
    ensures !IsNew(table + written + more, again)
  {
    hide UniqueKeys;
    if judgement.Fit? {
      var row, all := judgement.row, table + written + more;
      if IsNew(table, judgement) {
        assert row in all;
        LookupIsUnique(all, row.tenant, row.key.value, row);
      } else {
        assert all == table + (written + more);
        FindKeyInExtension(table, written + more, row.tenant, row.key.value);
      }
    }
  }

  /** Repeating a keyed request, with whatever was written in between, writes nothing and
      returns the first call's message for every entry it accepted. */
  lemma BulkReplayIsAbsorbed(client: Client, dir: Directory, table: Table, more: Table, inputs: seq<SendInput>,
                             key: Option<string>, uids: nat -> Uid, uids': nat -> Uid)
    requires IsNamed(key)
    requires UniqueKeys(Bulk(client, dir, table, inputs, key, uids).0 + more)
    ensures var (after, first) := Bulk(client, dir, table, inputs, key, uids);
            var (again, second) := Bulk(client, dir, after + more, inputs, key, uids');
            && again == after + more
            && forall i :: 0 <= i < |inputs| ==> second[i] == Repeated(first[i])
  {
    hide Sift, UniqueKeys, Answer, IsNew, SameButUid;
    var judged := Sift(client, dir, inputs, key, uids, |inputs|).judged;
    var judged' := Sift(client, dir, inputs, key, uids', |inputs|).judged;
    SiftIgnoresUids(client, dir, inputs, key, uids, uids', |inputs|);
    SiftedAreKeyed(client, dir, inputs, key, uids, |inputs|);
    var written := NewRows(table, judged);
    var all := table + written + more;
    forall i | 0 <= i < |inputs|
      ensures Answer(all, judged'[i]) == Repeated(Answer(table, judged[i])) && !IsNew(all, judged'[i])
    {
      assert SameButUid(judged[i], judged'[i]);
      NewRowsHold(table, judged, i);
      ReplayedEntry(table, more, written, judged[i], judged'[i]);
    }
    assert NewRows(all, judged') == [] by { NothingNew(all, judged'); }
  }

  lemma NewRowsHold(table: Table, judged: seq<Judgement>, i: nat)
    requires i < |judged|
    ensures IsNew(table, judged[i]) ==> judged[i].row in NewRows(table, judged)
  {
  }

  lemma {:induction false} NothingNew(table: Table, judged: seq<Judgement>)
    requires forall i :: 0 <= i < |judged| ==> !IsNew(table, judged[i])
    ensures NewRows(table, judged) == []
  {
    if judged != [] { NothingNew(table, judged[..|judged| - 1]); }
  }
}
