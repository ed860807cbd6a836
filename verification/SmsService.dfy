/** The write side of acceptance, statement by statement, with other requests committing
    between a check and the insert that relies on it. */
module SmsService {
  import opened SmsTypes
  import opened MessageEncoder
  import opened RequestedRoute
  import opened SmsAcceptance
  import opened Database
  import DeliveryProtocol

  /** How many rows go into one statement. */
  const BULK_INSERT_CHUNK := 500

  /** `sms_messages`, as acceptance uses it. */
  class Inbox {
    var rows: Table

    constructor ()
      ensures rows == []
    {
      rows := [];
    }

    /** Other requests commit. */
    method Commit(others: Table)
      modifies this
      ensures rows == old(rows) + others
    {
      rows := rows + others;
    }

    /** Refused, and nothing written, exactly when the key is taken. */
    method Insert(row: Row) returns (ok: bool)
      modifies this
      ensures ok <==> Lookup(old(rows), row.tenant, row.key).None?
      ensures rows == if ok then old(rows) + [row] else old(rows)
    {
      if Lookup(rows, row.tenant, row.key).Some? { return false; }
      rows := rows + [row];
      return true;
    }
  }

  /** What a send comes to while `others` commit between its checks and its insert: as if it ran
      at one moment, before them when it writes nothing, after them when it tries to. */
  function SendAmid(client: Client, dir: Directory, table: Table, input: SendInput, key: Option<string>, uid: Uid,
                    others: Table)
    : (Table, SendResult)
  {
    var (before, answer) := Send(client, dir, table, input, key, uid);
    if before == table then (table + others, answer) else Send(client, dir, table + others, input, key, uid)
  }

  /** `send`, statement by statement. */
  method SendMessage(inbox: Inbox, client: Client, dir: Directory, input: SendInput, key: Option<string>, uid: Uid,
                     others: Table)
    returns (result: SendResult)
    requires UniqueKeys(inbox.rows + others)
    modifies inbox
    ensures UniqueKeys(inbox.rows)
    ensures (inbox.rows, result) == SendAmid(client, dir, old(inbox.rows), input, key, uid, others)
  {
    hide Encode, Resolve, UniqueKeys, Compose;
    ghost var start := inbox.rows;
    var fault := ContentFault(dir, input);
    if fault.Some? {
      inbox.Commit(others);
      return Rejected(fault.value);
    }
    if IsNamed(key) {
      var existing := FindKey(inbox.rows, client.tenant, key.value);
      if existing.Some? {
        inbox.Commit(others);
        return Replay(existing.value, dir.e164(input.to).value, dir.bodyHash(input.message));
      }
    }
    var judgement := JudgeRoute(client, dir, input, key, uid);
    inbox.Commit(others);
    if judgement.Unfit? { return Rejected(judgement.code); }
    if key.Some? { FindKeyInExtension(start, others, client.tenant, key.value); }
    RowFitsIff(inbox.rows, judgement.row);
    var ok := inbox.Insert(judgement.row);
    if ok {
      LongerIsAnother(start, judgement.row);
      return Accepted(judgement.row, false);
    }
    if IsNamed(key) {
      var winner := FindKey(inbox.rows, client.tenant, key.value);
      if winner.Some? {
        return Replay(winner.value, dir.e164(input.to).value, dir.bodyHash(input.message));
      }
    }
    return Threw;
  }

  lemma LongerIsAnother(table: Table, row: Row)
    ensures table + [row] != table
  {
    assert |table + [row]| == |table| + 1;
  }

  /** The first `n` entries of a batch, while `others(i)` commit during the i-th. */
  function BatchAmid(client: Client, dir: Directory, table: Table, inputs: seq<SendInput>, key: Option<string>,
                     uids: nat -> Uid, others: nat -> Table, n: nat): (r: (Table, seq<SendResult>))
    requires n <= |inputs|
    ensures |r.1| == n
  {
    if n == 0 then (table, [])
    else
      var (before, results) := BatchAmid(client, dir, table, inputs, key, uids, others, n - 1);
      var (after, result) := SendAmid(client, dir, before, inputs[n - 1], EntryKey(key, n - 1), uids(n - 1),
                                      others(n - 1));
      (after, results + [result])
  }

  /** Whatever commits while an entry is sent fits the unique index at that moment. */
  ghost predicate OthersFit(client: Client, dir: Directory, table: Table, inputs: seq<SendInput>, key: Option<string>,
                            uids: nat -> Uid, others: nat -> Table) {
    forall i :: 0 <= i < |inputs| ==>
      UniqueKeys(BatchAmid(client, dir, table, inputs, key, uids, others, i).0 + others(i))
  }

  lemma OthersFitAt(client: Client, dir: Directory, table: Table, inputs: seq<SendInput>, key: Option<string>,
                    uids: nat -> Uid, others: nat -> Table, i: nat)
    requires OthersFit(client, dir, table, inputs, key, uids, others) && i < |inputs|
    ensures UniqueKeys(BatchAmid(client, dir, table, inputs, key, uids, others, i).0 + others(i))
  {
    hide UniqueKeys, BatchAmid;
  }

  lemma NoneAmid(client: Client, dir: Directory, table: Table, inputs: seq<SendInput>, key: Option<string>,
                 uids: nat -> Uid, others: nat -> Table)
    ensures BatchAmid(client, dir, table, inputs, key, uids, others, 0) == (table, [])
  {
  }

  lemma NextAmid(client: Client, dir: Directory, table: Table, inputs: seq<SendInput>, key: Option<string>,
                 uids: nat -> Uid, others: nat -> Table, n: nat)
    requires n < |inputs|
    ensures var r := BatchAmid(client, dir, table, inputs, key, uids, others, n);
            var sent := SendAmid(client, dir, r.0, inputs[n], EntryKey(key, n), uids(n), others(n));
            BatchAmid(client, dir, table, inputs, key, uids, others, n + 1) == (sent.0, r.1 + [sent.1])
  {
    hide SendAmid, EntryKey;
  }

  /** The loop sends entry by entry, each at one moment of its own. */
  method SendBatch(inbox: Inbox, client: Client, dir: Directory, inputs: seq<SendInput>, key: Option<string>,
                   uids: nat -> Uid, others: nat -> Table)
    returns (results: seq<SendResult>)
    requires UniqueKeys(inbox.rows) && OthersFit(client, dir, inbox.rows, inputs, key, uids, others)
    modifies inbox
    ensures UniqueKeys(inbox.rows)
    ensures (inbox.rows, results) == BatchAmid(client, dir, old(inbox.rows), inputs, key, uids, others, |inputs|)
  {
    hide SendAmid, EntryKey, UniqueKeys, OthersFit, BatchAmid;
    ghost var start := inbox.rows;
    NoneAmid(client, dir, start, inputs, key, uids, others);
    results := [];
    for index := 0 to |inputs|
      invariant UniqueKeys(inbox.rows)
      invariant (inbox.rows, results) == BatchAmid(client, dir, old(inbox.rows), inputs, key, uids, others, index)
    {
      OthersFitAt(client, dir, start, inputs, key, uids, others, index);
      NextAmid(client, dir, start, inputs, key, uids, others, index);
      var result := SendMessage(inbox, client, dir, inputs[index], EntryKey(key, index), uids(index), others(index));
      results := results + [result];
    }
  }

  /** Alone, it is the batch that `send` would make entry by entry. */
  lemma {:induction false} AloneIsBatch(client: Client, dir: Directory, table: Table, inputs: seq<SendInput>,
                                        key: Option<string>, uids: nat -> Uid, others: nat -> Table, n: nat)
    requires n <= |inputs| && forall i :: 0 <= i < n ==> others(i) == []
    ensures BatchAmid(client, dir, table, inputs, key, uids, others, n)
         == Batch(client, dir, table, inputs, key, uids, n)
  {
    hide Send, EntryKey;
    if n > 0 {
      AloneIsBatch(client, dir, table, inputs, key, uids, others, n - 1);
      var before := Batch(client, dir, table, inputs, key, uids, n - 1).0;
      assert before + others(n - 1) == before;
    }
  }

  /** A keyed batch sent again, entry by entry while anything else commits: an entry that was
      accepted is found by its key, so nothing is written for it, whatever came in between. */
  lemma BatchEntryIsSentOnce(client: Client, dir: Directory, table: Table, input: SendInput, key: Option<string>,
                             uid: Uid, others: Table, more: Table, uid': Uid, others': Table)
    requires IsNamed(key) && UniqueKeys(table + others)
    requires UniqueKeys(SendAmid(client, dir, table, input, key, uid, others).0 + more)
    ensures var (after, result) := SendAmid(client, dir, table, input, key, uid, others);
            result.Accepted? ==>
              SendAmid(client, dir, after + more, input, key, uid', others')
                == (after + more + others', Accepted(result.row, true))
  {
    hide Send, UniqueKeys, EntryKey;
    UniqueKeysOfPrefix(table, others);
    var (before, answer) := Send(client, dir, table, input, key, uid);
    var (after, result) := SendAmid(client, dir, table, input, key, uid, others);
    if before == table {
      assert table + others + more == table + (others + more);
      SendOnceUnderAKey(client, dir, table, input, key, uid, others + more, input, uid');
    } else {
      SendOnceUnderAKey(client, dir, table + others, input, key, uid, more, input, uid');
    }
  }

  // ---- bulk -----------------------------------------------------------------------------

  function Flatten<T>(chunks: seq<seq<T>>): seq<T> {
    if chunks == [] then [] else Flatten(chunks[..|chunks| - 1]) + chunks[|chunks| - 1]
  }

  lemma FlattenAdds<T>(chunks: seq<seq<T>>, chunk: seq<T>)
    ensures Flatten(chunks + [chunk]) == Flatten(chunks) + chunk
  {
    assert (chunks + [chunk])[..|chunks|] == chunks;
  }

  /** Cuts a list into pieces of `size`, the last one possibly shorter, losing nothing. */
  method Chunked<T>(items: seq<T>, size: nat) returns (chunks: seq<seq<T>>)
    requires size > 0
    ensures Flatten(chunks) == items
    ensures forall i :: 0 <= i < |chunks| ==> 1 <= |chunks[i]| <= size && (i < |chunks| - 1 ==> |chunks[i]| == size)
  {
    chunks := [];
    var start := 0;
    assert items[..0] == [];
    while start < |items|
      invariant start >= 0
      invariant Flatten(chunks) == items[..Min(start, |items|)]
      invariant forall i :: 0 <= i < |chunks| ==> 1 <= |chunks[i]| <= size && (i < |chunks| - 1 ==> |chunks[i]| == size)
      invariant chunks != [] && start < |items| ==> |chunks[|chunks| - 1]| == size
    {
      var chunk := items[start..Min(start + size, |items|)];
      FlattenAdds(chunks, chunk);
      assert items[..start] + chunk == items[..Min(start + size, |items|)];
      chunks := chunks + [chunk];
      start := start + size;
    }
    assert items[..|items|] == items;
  }

  lemma {:induction false} FlattenTake<T>(chunks: seq<seq<T>>, n: nat)
    requires n <= |chunks|
    ensures Flatten(chunks[..n]) <= Flatten(chunks)
  {
    if n < |chunks| {
      FlattenTake(chunks[..|chunks| - 1], n);
      assert chunks[..|chunks| - 1][..n] == chunks[..n];
    } else {
      assert chunks[..n] == chunks;
    }
  }

  /** Writes all rows in one transaction, chunk by chunk: all of them, or none when a key is
      taken. */
  method InsertBulk(inbox: Inbox, rows: Table) returns (ok: bool)
    requires UniqueKeys(inbox.rows)
    modifies inbox
    ensures ok <==> UniqueKeys(old(inbox.rows) + rows)
    ensures inbox.rows == if ok then old(inbox.rows) + rows else old(inbox.rows)
  {
    hide UniqueKeys;
    if rows == [] {
      assert inbox.rows + rows == inbox.rows;
      return true;
    }
    var chunks := Chunked(rows, BULK_INSERT_CHUNK);
    var staged := inbox.rows;
    for c := 0 to |chunks|
      invariant staged == inbox.rows + Flatten(chunks[..c]) && UniqueKeys(staged)
      invariant inbox.rows == old(inbox.rows)
    {
      FlattenAdds(chunks[..c], chunks[c]);
      assert chunks[..c + 1] == chunks[..c] + [chunks[c]];
      var inserted := staged + chunks[c];
      assert inserted == inbox.rows + Flatten(chunks[..c + 1]);
      if !UniqueKeys(inserted) {
        FlattenTake(chunks, c + 1);
        var rest := rows[|Flatten(chunks[..c + 1])|..];
        assert inbox.rows + rows == inserted + rest;
        if UniqueKeys(inserted + rest) { UniqueKeysOfPrefix(inserted, rest); }
        return false;
      }
      staged := inserted;
    }
    assert chunks[..|chunks|] == chunks;
    inbox.rows := staged;
    return true;
  }

  // ---- cancellation -----------------------------------------------------------------------

  /** A cancellation, or the reason it is refused. */
  method CancelBy(db: Tables, tenant: TenantId, m: MessageId) returns (refused: Option<ErrorCode>)
    modifies db`jobs
    ensures db.State() == DeliveryProtocol.CancelMessage(old(db.State()), tenant, m)
    ensures refused == (if m !in old(db.jobs) || old(db.jobs[m].message.tenant) != tenant then Some(NOT_FOUND)
                        else if !IsCancellable(old(db.jobs[m].message.status)) then Some(FORBIDDEN) else None)
  {
    if m !in db.jobs || db.jobs[m].message.tenant != tenant { return Some(NOT_FOUND); }
    if !IsCancellable(db.jobs[m].message.status) { return Some(FORBIDDEN); }
    db.SaveMessage(m, db.jobs[m].message.(status := Cancelled, error := Some(CANCELLED_BY_CLIENT)));
    db.PublishEvent(m, SmsCancelled);
    return None;
  }
}
