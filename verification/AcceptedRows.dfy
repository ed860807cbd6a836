/** Where acceptance meets delivery: each row that was written enters the protocol as one
    accept step. */
module AcceptedRows {
  import opened SmsTypes
  import opened DeliveryState
  import opened DeliveryProtocol
  import opened SmsAcceptance
  import MessageJob

  /** A row as the delivery protocol sees it when it is accepted at `now`. */
  function AsRequest(row: Row, now: Instant): MessageJob.Accepted {
    MessageJob.Accepted(
      row.tenant, row.e164, row.maxAttempts,
      if row.expiresIn.Some? then Some(now + row.expiresIn.value as real) else None,
      row.operator, row.gateway, row.slot, row.dispatchBody != [])
  }

  /** The accept steps of the rows, in the order they were written. */
  function AcceptSteps(rows: Table, now: Instant): seq<Event> {
    seq(|rows|, i requires 0 <= i < |rows| => At(now, Accept(rows[i].uid, AsRequest(rows[i], now))))
  }

  ghost predicate FreshUids(db: Db, rows: Table) {
    && (forall i :: 0 <= i < |rows| ==> rows[i].uid !in db.jobs)
    && (forall i, j :: 0 <= i < j < |rows| ==> rows[i].uid != rows[j].uid)
  }

  lemma RunAdds(fleet: Fleet, db: Db, trace: seq<Event>, more: seq<Event>)
    ensures Run(fleet, db, trace + more) == Run(fleet, Run(fleet, db, trace), more)
    decreases |more|
  {
    hide Step;
    if more == [] {
      assert trace + more == trace;
    } else {
      var n := |more| - 1;
      assert (trace + more)[..|trace + more| - 1] == trace + more[..n];
      RunAdds(fleet, db, trace, more[..n]);
    }
  }

  /** `after` is `db` with one new message per row. */
  ghost predicate Adds(db: Db, after: Db, rows: Table, now: Instant) {
    && after == db.(jobs := after.jobs)
    && (forall m :: m in after.jobs ==> m in db.jobs || exists i :: 0 <= i < |rows| && rows[i].uid == m)
    && (forall m :: m in db.jobs ==> m in after.jobs && after.jobs[m] == db.jobs[m])
    && (forall i :: 0 <= i < |rows| ==>
          rows[i].uid in after.jobs && after.jobs[rows[i].uid] == MessageJob.NewJob(AsRequest(rows[i], now)))
  }

  lemma AddsOneMore(db: Db, before: Db, rows: Table, now: Instant)
    requires rows != [] && FreshUids(db, rows) && Adds(db, before, rows[..|rows| - 1], now)
    ensures var last := rows[|rows| - 1];
            && last.uid !in before.jobs
            && Adds(db, before.(jobs := before.jobs[last.uid := MessageJob.NewJob(AsRequest(last, now))]), rows, now)
  {
    hide AsRequest, MessageJob.NewJob;
    assert forall i :: 0 <= i < |rows| - 1 ==> rows[..|rows| - 1][i] == rows[i];
  }

  lemma LastStep(fleet: Fleet, db: Db, rows: Table, now: Instant)
    requires rows != []
    ensures var last := rows[|rows| - 1];
            Run(fleet, db, AcceptSteps(rows, now))
              == Step(fleet, Run(fleet, db, AcceptSteps(rows[..|rows| - 1], now)), now,
                      Accept(last.uid, AsRequest(last, now)))
  {
    hide AsRequest, Step;
    assert AcceptSteps(rows, now)[..|rows| - 1] == AcceptSteps(rows[..|rows| - 1], now);
  }

  lemma {:induction false} RowsAreAccepted(fleet: Fleet, db: Db, rows: Table, now: Instant)
    requires FreshUids(db, rows)
    ensures Adds(db, Run(fleet, db, AcceptSteps(rows, now)), rows, now)
  {
    hide AsRequest, MessageJob.NewJob, Adds;
    if rows == [] {
      NothingAdded(db, now);
      assert AcceptSteps(rows, now) == [];
    } else {
      hide Run, AcceptSteps;
      var n := |rows| - 1;
      assert FreshUids(db, rows[..n]);
      RowsAreAccepted(fleet, db, rows[..n], now);
      AddsOneMore(db, Run(fleet, db, AcceptSteps(rows[..n], now)), rows, now);
      LastStep(fleet, db, rows, now);
    }
  }

  lemma NothingAdded(db: Db, now: Instant)
    ensures Adds(db, db, [], now)
  {
  }

  /** Whatever acceptance writes, single, batch or bulk, leads from a reachable state of the
      platform to a reachable one, with one new queued message per row and no other change: so
      all that holds in reachable states holds of these messages from then on. */
  lemma WrittenRowsAreQueued(fleet: Fleet, db: Db, rows: Table, now: Instant, i: nat)
    requires Reachable(fleet, db) && FreshUids(db, rows) && i < |rows|
    ensures var after := Run(fleet, db, AcceptSteps(rows, now));
            && Reachable(fleet, after)
            && rows[i].uid in after.jobs
            && var message := after.jobs[rows[i].uid].message;
               && message.status.Queued? && message.attempts == 0 && message.recipient == rows[i].e164
               && message.maxAttempts == rows[i].maxAttempts
               && message.tenant == rows[i].tenant && message.requestedOperator == rows[i].operator
               && message.requestedGateway == rows[i].gateway && message.requestedSlot == rows[i].slot
               && (message.hasBody <==> rows[i].dispatchBody != [])
               && (message.expiresAt.None? <==> rows[i].expiresIn.None?)
               && (message.expiresAt.Some? ==> message.expiresAt.value == now + rows[i].expiresIn.value as real)
    ensures forall m :: m in db.jobs ==>
              && m in Run(fleet, db, AcceptSteps(rows, now)).jobs
              && Run(fleet, db, AcceptSteps(rows, now)).jobs[m] == db.jobs[m]
  {
    hide Run, AcceptSteps;
    var trace :| Run(fleet, EMPTY_DB, trace) == db;
    RunAdds(fleet, EMPTY_DB, trace, AcceptSteps(rows, now));
    RowsAreAccepted(fleet, db, rows, now);
  }
}
